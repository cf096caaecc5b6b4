/** Bulk invalidation (`clear`, `clear_memory`, `clear_files`): which
    bounds, patterns and filters decide what is deleted, stated over the
    state the deletion starts from. */
module Invalidation {
  import opened Python
  import opened Strings
  import opened Patterns
  import opened Primary
  import opened FileTier

  // ---------------------------------------------------------------------
  // The date bounds of `clear`

  /** A `start_date`/`end_date` argument: absent (`None`), a
      `YYYYMMDD_HHMM` string, or a date object. */
  datatype DateArg = NoDate | DateText(text: string) | DateValue(obj: PyObj)

  /** Python truthiness of the argument (date objects are always true). */
  predicate Given(b: DateArg) {
    b.DateValue? || (b.DateText? && b.text != "")
  }

  /** One bound as a string, formatted according to its own type. */
  function BoundText(rt: Runtime, b: DateArg): (r: Result<string>)
    ensures !Given(b) ==> r == Ok("")
    ensures b.DateText? ==> r == Ok(b.text)
    ensures r.Err? <==> b.DateValue? && rt.strftime(b.obj).None?
  {
    match b
    case NoDate => Ok("")
    case DateText(t) => Ok(t)
    case DateValue(o) => if rt.strftime(o).Some? then Ok(rt.strftime(o).value) else Err(NotADate)
  }

  /** The bounds `clear` hands on, each formatted by its own type; an end
      without a start is refused. */
  function ClearBounds(rt: Runtime, start: DateArg, end: DateArg): (r: Result<(string, string)>)
    ensures r == Err(EndWithoutStart) <==> !Given(start) && Given(end)
    ensures r.Ok? ==> Ok(r.value.0) == BoundText(rt, start) && Ok(r.value.1) == BoundText(rt, end)
  {
    if !Given(start) && Given(end) then Err(EndWithoutStart)
    else match (BoundText(rt, start), BoundText(rt, end))
      case (Ok(s), Ok(e)) => Ok((s, e))
      case (Err(f), _) => Err(f)
      case (_, Err(f)) => Err(f)
  }

  /** What an `end_str` can be as written: a string, or the date object
      itself. */
  datatype BoundValue = AsText(text: string) | AsObject(obj: PyObj)

  /** `clear` as written (lines 596-600): the end bound is formatted
      according to the type of the START bound. */
  function ClearBoundsAsWritten(rt: Runtime, start: DateArg, end: DateArg): Result<(string, BoundValue)> {
    if !Given(start) && Given(end) then Err(EndWithoutStart)
    else match BoundText(rt, start)
      case Err(f) => Err(f)
      case Ok(s) =>
        if !Given(end) then Ok((s, AsText("")))
        else if !start.DateText? then
          (match end
           case DateValue(o) => if rt.strftime(o).Some? then Ok((s, AsText(rt.strftime(o).value))) else Err(NotADate)
           case _ => Err(NotADate))   // `str` has no `strftime`
        else
          (match end
           case DateText(t) => Ok((s, AsText(t)))
           case _ => Ok((s, AsObject(end.obj))))
  }

  /** When both bounds have the same type, the code as written and the
      corrected bounds agree. */
  lemma ClearBoundsAgreeOnSameType(rt: Runtime, start: DateArg, end: DateArg)
    requires Given(start) && Given(end)
    requires start.DateText? == end.DateText?
    ensures ClearBoundsAsWritten(rt, start, end).Ok? <==> ClearBounds(rt, start, end).Ok?
    ensures ClearBounds(rt, start, end).Ok? ==>
      var (s, e) := ClearBounds(rt, start, end).value;
      ClearBoundsAsWritten(rt, start, end) == Ok((s, AsText(e)))
  {
  }

  /** A text start and a date-object end: as written the end bound is not
      a string at all; corrected, it is the formatted date. */
  lemma TextStartObjectEnd(rt: Runtime, o: PyObj, t: string)
    requires rt.strftime(o) == Some(t)
    ensures ClearBoundsAsWritten(rt, DateText("20200101_0000"), DateValue(o)) == Ok(("20200101_0000", AsObject(o)))
    ensures ClearBounds(rt, DateText("20200101_0000"), DateValue(o)) == Ok(("20200101_0000", t))
  {
  }

  /** A date-object start and a text end: as written `strftime` is called
      on the string and fails; corrected, the text is used as given. */
  lemma ObjectStartTextEnd(rt: Runtime, o: PyObj, t: string)
    requires rt.strftime(o) == Some(t)
    ensures ClearBoundsAsWritten(rt, DateValue(o), DateText("20201231_2359")) == Err(NotADate)
    ensures ClearBounds(rt, DateValue(o), DateText("20201231_2359")) == Ok((t, "20201231_2359"))
  {
  }

  /** `start <= t <= end` on strings. */
  predicate InRange(start: string, end: string, t: string) {
    LessEq(start, t) && LessEq(t, end)
  }

  lemma {:induction false} PointwiseLessEq(a: string, b: string)
    requires |a| == |b|
    requires forall i | 0 <= i < |a| :: a[i] <= b[i]
    ensures LessEq(a, b)
    decreases |a|
  {
    if |a| > 0 && a[0] == b[0] {
      PointwiseLessEq(a[1..], b[1..]);
      if a[1..] == b[1..] {
        assert a == [a[0]] + a[1..] && b == [b[0]] + b[1..];
      }
    }
  }

  // ---------------------------------------------------------------------
  // `clear_memory`

  /** The Redis pattern `clear_memory` builds (lines 436-449);
      `None` is the IndexError of `search_str[-1]` on an empty pattern.
      With a start and no end, the literal text `start_str` is appended. */
  function SearchPattern(ns: string, func: string, hash: string, start: string, end: string): (r: Option<string>)
    ensures r.None? <==> ns == "" && func == "" && hash == ""
    ensures r.Some? ==> StartsWith(r.value, ns)
  {
    var s1 := if func != "" then ns + ":" + func + ":" else ns;
    var s2 := if hash != "" then s1 + "*:" + hash else s1;
    if s2 == "" then None
    else
      var s3 := if s2[|s2| - 1] != '*' then s2 + "*" else s2;
      var s4 := if start != "" && end == "" then s3 + "start_str" else s3;
      assert s4[..|ns|] == ns;
      Some(s4)
  }

  /** No key outside the namespace is matched by the pattern, when the
      namespace holds no `'*'`. */
  lemma PatternStaysInNamespace(ns: string, func: string, hash: string, start: string, end: string, k: string)
    requires '*' !in ns
    requires SearchPattern(ns, func, hash, start, end).Some?
    requires Glob(SearchPattern(ns, func, hash, start, end).value, k)
    ensures StartsWith(k, ns)
  {
    var p := SearchPattern(ns, func, hash, start, end).value;
    assert p == ns + p[|ns|..];
    GlobLiteralPrefix(ns, p[|ns|..], k);
  }

  /** With no filter at all, the pattern is `ns*`: every key that starts
      with the namespace. */
  lemma WholeNamespacePattern(ns: string, k: string)
    requires ns != "" && '*' !in ns
    ensures SearchPattern(ns, "", "", "", "") == Some(ns + "*")
    ensures Glob(ns + "*", k) <==> StartsWith(k, ns)
  {
    GlobPrefixStar(ns, k);
  }

  /** With a start and no end, the literal `start_str` makes the pattern
      match only keys that end in `start_str`: no real cache key. */
  lemma StartOnlyPatternEndsInLiteral(ns: string, func: string, hash: string, start: string, k: string)
    requires start != ""
    requires SearchPattern(ns, func, hash, start, "").Some?
    requires Glob(SearchPattern(ns, func, hash, start, "").value, k)
    ensures EndsWith(k, "start_str")
  {
    var p := SearchPattern(ns, func, hash, start, "").value;
    var q := p[..|p| - 9];
    assert p == q + "start_str";
    GlobLiteralTail(q, "start_str", k);
  }

  /** The definition text stored under `key`, or `""` (a miss or a
      non-text value, both false in `if k:`). */
  function DefinitionText(values: map<string, Entry>, key: string): string {
    if key in values && values[key].blob.Str? then values[key].blob.text else ""
  }

  /** `list_memory(show=False)`: one line `set | definition` per set of
      the namespace that has a recorded definition. */
  function MemoryListing(values: map<string, Entry>, sets: Sets, ns: string): (r: set<string>)
    ensures forall s | s in sets && Glob(ns + ":*", s) && DefinitionText(values, s + ":funcDef") != "" ::
      s + " | " + DefinitionText(values, s + ":funcDef") in r
  {
    set s | s in sets.Keys && Glob(ns + ":*", s) && DefinitionText(values, s + ":funcDef") != "" ::
      s + " | " + DefinitionText(values, s + ":funcDef")
  }

  /** The names before `" | "` of the listing lines that mention `param`
      (lines 425-428 and 506-509). */
  function ParamFiltered(lines: set<string>, param: string): set<string> {
    set m | m in lines && Contains(m, param) :: SplitFirst(m, " | ")
  }

  /** A set whose definition text mentions `param` is selected by its own
      name. */
  lemma ParamFilteredSelectsSet(lines: set<string>, param: string, name: string, text: string)
    requires '|' !in name
    requires name + " | " + text in lines
    requires Contains(text, param)
    ensures name in ParamFiltered(lines, param)
  {
    var m := name + " | " + text;
    var i :| 0 <= i <= |text| && OccursAt(text, param, i);
    assert m[|name| + 3 + i..|name| + 3 + i + |param|] == text[i..i + |param|];
    assert OccursAt(m, param, |name| + 3 + i);
    SplitFirstOfListing(name, text);
  }

  /** The selected names that the rewritten pattern `re.match`es. */
  function ChosenPrefixes(names: set<string>, pattern: string): set<string> {
    set p | p in names && RegexPrefix(pattern, p)
  }

  /** The union of `keys(p + '*')` over the chosen names. */
  function KeysUnderAny(values: map<string, Entry>, sets: Sets, prefixes: set<string>): (r: set<string>)
    ensures forall k :: k in r <==> (k in values || k in sets) && exists p | p in prefixes :: Glob(p + "*", k)
  {
    set k | k in values.Keys + sets.Keys && exists p | p in prefixes :: Glob(p + "*", k)
  }

  /** One more prefix adds the keys of one more `keys(p + '*')`. */
  lemma KeysUnderAnyGrow(values: map<string, Entry>, sets: Sets, prefixes: set<string>, p: string)
    ensures KeysUnderAny(values, sets, prefixes + {p}) == KeysUnderAny(values, sets, prefixes) + KeysMatching(values, sets, p + "*")
  {
    forall k | k in KeysUnderAny(values, sets, prefixes + {p})
      ensures k in KeysUnderAny(values, sets, prefixes) + KeysMatching(values, sets, p + "*")
    {
      var q :| q in prefixes + {p} && Glob(q + "*", k);
      if q != p {
        assert q in prefixes;
      }
    }
  }

  /** The keys whose trailing `\d{8}_\d{4}` token lies in `[start, end]`
      (lines 470-477). */
  function InDateRange(keys: set<string>, start: string, end: string): set<string> {
    set k | k in keys && DateSuffix(k).Some? && InRange(start, end, DateSuffix(k).value)
  }

  /** A key survives the date filter exactly when its last 13 characters
      are a date token within the bounds. */
  lemma InDateRangeExactly(keys: set<string>, start: string, end: string, k: string)
    ensures k in InDateRange(keys, start, end) <==>
      k in keys && |k| >= 13 && IsDateToken(k[|k| - 13..]) && InRange(start, end, k[|k| - 13..])
  {
    if k in keys && |k| >= 13 && IsDateToken(k[|k| - 13..]) {
      assert EndsWith(k, k[|k| - 13..]);
    }
  }

  /** Everything `clear_memory` deletes, or the fault it stops with. */
  function MemoryTargets(values: map<string, Entry>, sets: Sets, ns: string, func: string,
                         param: string, hash: string, start: string, end: string): (r: Result<set<string>>)
    ensures r.Err? <==> ns == "" && func == "" && hash == ""
    ensures r.Ok? ==> r.value <= values.Keys + sets.Keys
  {
    match SearchPattern(ns, func, hash, start, end)
    case None => Err(EmptySearchPattern)
    case Some(pattern) =>
      var all := if param != "" then
        KeysUnderAny(values, sets, ChosenPrefixes(ParamFiltered(MemoryListing(values, sets, ns), param), pattern))
      else KeysMatching(values, sets, pattern);
      Ok(if start != "" && end != "" then InDateRange(all, start, end) else all)
  }

  /** Without a parameter filter, nothing outside the namespace is
      deleted. */
  lemma MemoryTargetsInNamespace(values: map<string, Entry>, sets: Sets, ns: string, func: string,
                                 hash: string, start: string, end: string, k: string)
    requires '*' !in ns
    requires MemoryTargets(values, sets, ns, func, "", hash, start, end).Ok?
    requires k in MemoryTargets(values, sets, ns, func, "", hash, start, end).value
    ensures StartsWith(k, ns)
  {
    PatternStaysInNamespace(ns, func, hash, start, end, k);
  }

  /** With both bounds, exactly the matched keys whose date token lies in
      range are deleted. */
  lemma MemoryTargetsDateRange(values: map<string, Entry>, sets: Sets, ns: string, func: string,
                               hash: string, start: string, end: string, k: string)
    requires start != "" && end != ""
    requires SearchPattern(ns, func, hash, start, end).Some?
    ensures var pattern := SearchPattern(ns, func, hash, start, end).value;
      k in MemoryTargets(values, sets, ns, func, "", hash, start, end).value <==>
        k in KeysMatching(values, sets, pattern) && |k| >= 13 && IsDateToken(k[|k| - 13..])
        && InRange(start, end, k[|k| - 13..])
  {
    var pattern := SearchPattern(ns, func, hash, start, end).value;
    InDateRangeExactly(KeysMatching(values, sets, pattern), start, end, k);
  }

  // ---------------------------------------------------------------------
  // `clear_files`

  /** The bounds `clear_files` uses (lines 513-520): no end means the
      start, or `'99999999_9999'` when there is no start either; no start
      means `'0'`. */
  function FileBounds(start: string, end: string): (r: (string, string))
    ensures r.0 != "" && r.1 != ""
    ensures start != "" ==> r.0 == start
    ensures end != "" ==> r.1 == end
    ensures start != "" && end == "" ==> r.1 == start
  {
    var e := if end == "" then (if start == "" then "99999999_9999" else start) else end;
    var s := if start == "" then "0" else start;
    (s, e)
  }

  /** With no bounds, every date token is in range. */
  lemma NoBoundsCoverEveryToken(t: string)
    requires IsDateToken(t)
    ensures var (s, e) := FileBounds("", "");
      InRange(s, e, t)
  {
    assert IsDigit(t[0]);
    if t[0] == '0' {
      assert "0"[1..] == "" && Less("", t[1..]);
    }
    assert Less("0", t);
    var top := "99999999_9999";
    forall i | 0 <= i < |t| ensures t[i] <= top[i] {
      if i != 8 {
        assert IsDigit(t[i]);
      }
    }
    PointwiseLessEq(t, top);
  }

  /** With a start and no end, exactly the start date is in range. */
  lemma StartOnlyIsExact(start: string, t: string)
    requires start != ""
    ensures var (s, e) := FileBounds(start, "");
      InRange(s, e, t) <==> t == start
  {
    if InRange(start, start, t) {
      LessEqAntisymmetric(start, t);
    }
  }

  /** `glob(d/'*.pkl')` lists the entries whose name ends in `.pkl` and
      does not start with `.`. */
  predicate IsPklName(name: string) {
    EndsWith(name, ".pkl") && !StartsWith(name, ".")
  }

  /** The date string of a pickle name, `name.replace('.pkl', '')`. */
  function PklDate(name: string): string {
    RemoveAll(name, ".pkl")
  }

  /** The pickle `key_to_file` writes for a partition token has that token
      as its date. */
  lemma PklDateOfTokenFile(token: string)
    requires '.' !in token
    ensures PklDate(token + ".pkl") == token
  {
    RemoveAllSuffix(token, ".pkl");
  }

  /** The function name in a definition record: group 1 of the first match
      of `(.*)({.*})`. Without `re.DOTALL`, `.` does not match a newline, so
      the match lies within one line: the first line of `txt` that holds a
      `{` with a `}` after it on that line, group 1 being the line up to its
      last such `{`. With no such line `findall` is empty and `[0]`
      raises (`None`). */
  function ExtractFuncName(txt: string): (r: Option<string>)
    ensures r.Some? ==> '\n' !in r.value
  {
    SplitPartsWithoutSeparator(txt, '\n');
    FirstLineMatch(Split(txt, '\n'))
  }

  /** `findall` is empty exactly when no line holds a `{` with a `}` after
      it on that line. */
  lemma ExtractFuncNameNone(txt: string)
    ensures var lines := Split(txt, '\n');
      ExtractFuncName(txt).None? <==> forall k | 0 <= k < |lines| :: OpenBrace(lines[k], false).None?
  {
  }

  /** The match of `(.*)({.*})` on the first of `lines` where there is one. */
  function FirstLineMatch(lines: seq<string>): (r: Option<string>)
    ensures r.None? <==> forall k | 0 <= k < |lines| :: OpenBrace(lines[k], false).None?
    ensures r.Some? ==> exists k | 0 <= k < |lines| ::
      && (forall j | 0 <= j < k :: OpenBrace(lines[j], false).None?)
      && OpenBrace(lines[k], false).Some?
      && r.value == lines[k][..OpenBrace(lines[k], false).value]
    decreases |lines|
  {
    if |lines| == 0 then None
    else match OpenBrace(lines[0], false)
      case Some(i) => Some(lines[0][..i])
      case None =>
        var r := FirstLineMatch(lines[1..]);
        assert forall k | 0 < k < |lines| :: lines[k] == lines[1..][k - 1];
        if r.Some? then
          var k :| 0 <= k < |lines[1..]| && (forall j | 0 <= j < k :: OpenBrace(lines[1..][j], false).None?)
                   && OpenBrace(lines[1..][k], false).Some? && r.value == lines[1..][k][..OpenBrace(lines[1..][k], false).value];
          assert lines[k + 1] == lines[1..][k];
          assert forall j | 0 < j < k + 1 :: lines[j] == lines[1..][j - 1];
          r
        else r
  }

  /** The last index of a `{` with a `}` after it (`closed`: a `}` follows
      the whole of `s`). */
  function OpenBrace(s: string, closed: bool): (r: Option<nat>)
    ensures r.Some? ==> r.value < |s| && s[r.value] == '{'
    decreases |s|
  {
    if |s| == 0 then None
    else if s[|s| - 1] == '{' && closed then Some(|s| - 1)
    else OpenBrace(s[..|s| - 1], closed || s[|s| - 1] == '}')
  }

  lemma {:induction false} OpenBraceAfter(a: string, b: string)
    requires '{' !in b
    ensures OpenBrace(a + "{" + b, true) == Some(|a|)
    decreases |b|
  {
    var s := a + "{" + b;
    if |b| == 0 {
    } else {
      assert s[..|s| - 1] == a + "{" + b[..|b| - 1];
      OpenBraceAfter(a, b[..|b| - 1]);
    }
  }

  /** A one-line definition record `func{items}` names its function, when
      the function name and the items hold no `{`. */
  lemma ExtractFuncNameOfDefinition(func: string, items: string)
    requires '{' !in items && '{' !in func
    requires '\n' !in items && '\n' !in func
    ensures ExtractFuncName(func + "{" + items + "}") == Some(func)
  {
    var s := func + "{" + items + "}";
    assert s[..|s| - 1] == func + "{" + items;
    assert s[|s| - 1] == '}';
    OpenBraceAfter(func, items);
    assert OpenBrace(s, false) == Some(|func|);
    assert s[..|func|] == func;
    assert forall k | 0 <= k < |s| :: s[k] != '\n';
    SplitWithoutSeparator(s, '\n');
  }

  /** A line with no `}` has no match. */
  lemma {:induction false} OpenBraceUnclosed(s: string)
    requires '}' !in s
    ensures OpenBrace(s, false).None?
    decreases |s|
  {
    if |s| > 0 {
      assert '}' !in s[..|s| - 1];
      OpenBraceUnclosed(s[..|s| - 1]);
    }
  }

  /** A line with no `{` has no match. */
  lemma {:induction false} OpenBraceNoOpen(s: string, closed: bool)
    requires '{' !in s
    ensures OpenBrace(s, closed).None?
    decreases |s|
  {
    if |s| > 0 {
      assert '{' !in s[..|s| - 1];
      OpenBraceNoOpen(s[..|s| - 1], closed || s[|s| - 1] == '}');
    }
  }

  /** A record whose items are broken over two lines, with the `{` and its
      `}` on different lines, has no match: `[0]` raises. */
  lemma ExtractFuncNameSplitItems()
    ensures ExtractFuncName("f{'x': a\nb}").None?
  {
    var a, b := "f{'x': a", "b}";
    assert "f{'x': a\nb}" == a + ['\n'] + b;
    SplitAtFirstSeparator(a, '\n', b);
    SplitWithoutSeparator(b, '\n');
    OpenBraceUnclosed(a);
    OpenBraceNoOpen(b, false);
  }

  /** Only the first line that matches is read. */
  lemma ExtractFuncNameFirstLine()
    ensures ExtractFuncName("f{a}\n{b}") == Some("f")
  {
    var a, b := "f{a}", "{b}";
    assert "f{a}\n{b}" == a + ['\n'] + b;
    SplitAtFirstSeparator(a, '\n', b);
    OpenBraceAfter("f", "a");
    assert a == "f" + "{" + "a" + "}";
    assert OpenBrace(a, false) == OpenBrace("f" + "{" + "a", true);
  }

  /** `key_dir[1:]`. */
  function DropFirst(s: string): string {
    if |s| == 0 then "" else s[1..]
  }

  /** `TextAt(files, p)` is `open(p).read()` over a file map, as
      `read_funcDef` and `clear_files` read definition records. */
  function TextAt(files: map<Path, FileEntry>, p: Path): (r: Result<string>)
    ensures r.Ok? <==> p in files && files[p].Plain?
    ensures r.Ok? ==> r.value == files[p].text
  {
    if p in files && files[p].Plain? then Ok(files[p].text) else Err(Unreadable)
  }

  /** The definition file of a value directory `P<hash>`. */
  function DefinitionFile(defDir: Path, d: Path): Path
    requires |d.parts| > 0
  {
    Child(defDir, Name(d) + ".txt")
  }

  /** What the filters of `clear_files` (lines 538-551) make of one
      directory. */
  datatype Verdict = Clear | Skip | Fail(fault: Fault)

  function DirVerdict(files: map<Path, FileEntry>, defDir: Path, d: Path, func: string, hash: string): (v: Verdict)
    requires |d.parts| > 0
    ensures v.Clear? ==> hash == "" || DropFirst(Name(d)) == hash
    ensures v.Fail? ==> func != ""
  {
    var hashVerdict := if hash != "" && DropFirst(Name(d)) != hash then Skip else Clear;
    if func == "" then hashVerdict
    else match TextAt(files, DefinitionFile(defDir, d))
      case Err(f) => Fail(f)
      case Ok(txt) =>
        match ExtractFuncName(txt)
        case None => Fail(NoParameterBlock)
        case Some(name) => if RegexPrefix(func, name) then hashVerdict else Skip
  }

  /** The pickles of directory `d` that the date range selects; only
      files can be removed (a directory named `*.pkl` stays). */
  function DatedFiles(files: map<Path, FileEntry>, d: Path, start: string, end: string): (r: set<Path>)
    ensures forall f | f in r :: f in files && |f.parts| > 0 && Parent(f) == d
  {
    set f | f in files.Keys && |f.parts| > 0 && Parent(f) == d && IsPklName(Name(f)) && InRange(start, end, PklDate(Name(f)))
  }

  /** The directories of `targets` that pass the filters. */
  function Cleared(files: map<Path, FileEntry>, defDir: Path, targets: set<Path>, func: string, hash: string): set<Path>
    requires forall d | d in targets :: |d.parts| > 0
  {
    set d | d in targets && DirVerdict(files, defDir, d, func, hash).Clear?
  }

  /** The pickles removed from the cleared directories. */
  function RemovedFiles(files: map<Path, FileEntry>, defDir: Path, targets: set<Path>, func: string, hash: string,
                        start: string, end: string): set<Path>
    requires forall d | d in targets :: |d.parts| > 0
  {
    set f | f in files.Keys && |f.parts| > 0 && Parent(f) in Cleared(files, defDir, targets, func, hash)
      && IsPklName(Name(f)) && InRange(start, end, PklDate(Name(f)))
  }

  /** The removal leaves `d` without entries. */
  predicate Emptied(files: map<Path, FileEntry>, dirs: set<Path>, d: Path, start: string, end: string) {
    Entries(files, dirs, d) <= DatedFiles(files, d, start, end)
  }

  /** The cleared directories that the removal leaves empty: they are
      pruned together with their definition files. */
  function Pruned(files: map<Path, FileEntry>, dirs: set<Path>, defDir: Path, targets: set<Path>,
                  func: string, hash: string, start: string, end: string): set<Path>
    requires forall d | d in targets :: |d.parts| > 0
  {
    set d | d in Cleared(files, defDir, targets, func, hash) && Emptied(files, dirs, d, start, end)
  }

  function PrunedDefinitions(defDir: Path, pruned: set<Path>): set<Path>
    requires forall d | d in pruned :: |d.parts| > 0
  {
    set d | d in pruned :: DefinitionFile(defDir, d)
  }

  /** One directory goes through `clear_files` without an exception: its
      definition file is readable when a function filter is given, it is a
      directory when cleared (`os.listdir`), and its definition file exists
      when it is pruned (`os.remove`). */
  predicate DirSucceeds(files: map<Path, FileEntry>, dirs: set<Path>, defDir: Path, d: Path,
                        func: string, hash: string, start: string, end: string)
    requires |d.parts| > 0
  {
    match DirVerdict(files, defDir, d, func, hash)
    case Fail(_) => false
    case Skip => true
    case Clear => d in dirs && (Emptied(files, dirs, d, start, end) ==> DefinitionFile(defDir, d) in files)
  }

  /** The directories `clear_files` visits are `P...` entries of the
      namespace directory, beside `funcDefDir`. */
  predicate ValueDirs(cacheDir: Path, defDir: Path, targets: set<Path>) {
    && defDir == Child(cacheDir, "funcDefDir")
    && forall d | d in targets :: |d.parts| > 0 && Parent(d) == cacheDir && StartsWith(Name(d), "P")
  }

  /** `glob(cacheDir/'P*')`. */
  function GlobValueDirs(files: map<Path, FileEntry>, dirs: set<Path>, cacheDir: Path): (r: set<Path>)
    ensures ValueDirs(cacheDir, Child(cacheDir, "funcDefDir"), r)
  {
    set p | p in Entries(files, dirs, cacheDir) && StartsWith(Name(p), "P")
  }

  /** `read_funcDef`: one line `hash | definition` per `P*` file of the
      definition directory, or the fault of the first unreadable one. */
  function FileListing(files: map<Path, FileEntry>, dirs: set<Path>, defDir: Path): (r: Result<set<string>>)
  {
    var defs := set p | p in Entries(files, dirs, defDir) && StartsWith(Name(p), "P");
    if exists p | p in defs :: TextAt(files, p).Err? then Err(Unreadable)
    else Ok(set p | p in defs :: RemoveAll(RemoveAll(Name(p), "P"), ".txt") + " | " + TextAt(files, p).value)
  }

  /** The directories named by the selected listing lines,
      `os.path.join(cache_dir, 'P' + p)`. */
  function ParamDirs(cacheDir: Path, names: set<string>): (r: set<Path>)
    ensures ValueDirs(cacheDir, Child(cacheDir, "funcDefDir"), r)
  {
    var r := set p | p in names :: Child(cacheDir, "P" + p);
    forall d | d in r ensures |d.parts| > 0 && Parent(d) == cacheDir && StartsWith(Name(d), "P") {
      var p :| p in names && d == Child(cacheDir, "P" + p);
      ChildParts(cacheDir, "P" + p);
    }
    r
  }

  /** The directories `clear_files` visits (lines 521-528): the `P*`
      entries of the namespace directory, or, with a parameter filter, the
      directories named by the listing lines that mention it. */
  function FileTargets(files: map<Path, FileEntry>, dirs: set<Path>, cacheDir: Path, param: string): (r: Result<set<Path>>)
    ensures r.Ok? ==> ValueDirs(cacheDir, Child(cacheDir, "funcDefDir"), r.value)
    ensures r.Err? ==> param != ""
  {
    if param == "" then Ok(GlobValueDirs(files, dirs, cacheDir))
    else match FileListing(files, dirs, Child(cacheDir, "funcDefDir"))
      case Err(f) => Err(f)
      case Ok(lines) => Ok(ParamDirs(cacheDir, ParamFiltered(lines, param)))
  }

  /** Everything removed once the directories `done` have been cleared:
      their selected pickles and the definition files of those pruned. */
  function Swept(files: map<Path, FileEntry>, dirs: set<Path>, defDir: Path, done: set<Path>,
                 func: string, hash: string, start: string, end: string): set<Path>
    requires forall d | d in done :: |d.parts| > 0
  {
    RemovedFiles(files, defDir, done, func, hash, start, end)
      + PrunedDefinitions(defDir, Pruned(files, dirs, defDir, done, func, hash, start, end))
  }

  lemma PathOfParentName(p: Path, q: Path)
    requires |p.parts| > 0 && |q.parts| > 0
    requires Parent(p) == Parent(q) && Name(p) == Name(q)
    ensures p == q
  {
    assert p.parts == Parent(p).parts + [Name(p)];
    assert q.parts == Parent(q).parts + [Name(q)];
  }

  /** Sibling value directories have distinct definition files. */
  lemma DefinitionFilesDistinct(defDir: Path, d1: Path, d2: Path)
    requires |d1.parts| > 0 && |d2.parts| > 0 && Parent(d1) == Parent(d2)
    requires DefinitionFile(defDir, d1) == DefinitionFile(defDir, d2)
    ensures d1 == d2
  {
    ChildParts(defDir, Name(d1) + ".txt");
    ChildParts(defDir, Name(d2) + ".txt");
    AppendCancel(Name(d1), Name(d2), ".txt");
    PathOfParentName(d1, d2);
  }

  /** What the directories already cleared removed lies outside the
      region of a directory `d` still to come: its entries, itself and
      its definition file. */
  lemma SweptAvoids(files: map<Path, FileEntry>, dirs: set<Path>, cacheDir: Path, defDir: Path, targets: set<Path>,
                    done: set<Path>, d: Path, func: string, hash: string, start: string, end: string)
    requires ValueDirs(cacheDir, defDir, targets) && done <= targets && d in targets && d !in done
    ensures forall f | f in Swept(files, dirs, defDir, done, func, hash, start, end) :: |f.parts| > 0 && Parent(f) != d
    ensures DefinitionFile(defDir, d) !in Swept(files, dirs, defDir, done, func, hash, start, end)
    ensures d !in Pruned(files, dirs, defDir, done, func, hash, start, end)
    ensures forall c | c in Pruned(files, dirs, defDir, done, func, hash, start, end) :: |c.parts| > 0 && Parent(c) != d
  {
    ChildParts(cacheDir, "funcDefDir");
    assert "funcDefDir"[..1][0] == 'f';
    assert !StartsWith("funcDefDir", "P");
    assert defDir !in targets;
    assert d != defDir;
    var pruned := Pruned(files, dirs, defDir, done, func, hash, start, end);
    forall q | q in PrunedDefinitions(defDir, pruned) ensures |q.parts| > 0 && Parent(q) != d && q != DefinitionFile(defDir, d) {
      var d' :| d' in pruned && q == DefinitionFile(defDir, d');
      ChildParts(defDir, Name(d') + ".txt");
      if q == DefinitionFile(defDir, d) {
        DefinitionFilesDistinct(defDir, d', d);
      }
    }
    ChildParts(defDir, Name(d) + ".txt");
    forall c | c in pruned ensures |c.parts| > 0 && Parent(c) != d {
      assert |Parent(c).parts| == |d.parts| - 1;
    }
  }

  /** A removal that keeps out of `d`'s region leaves what `clear_files`
      sees of `d` as it was. */
  lemma LocalFacts(files: map<Path, FileEntry>, dirs: set<Path>, sweep: set<Path>, pruned: set<Path>, defDir: Path,
                   d: Path, func: string, hash: string, start: string, end: string)
    requires |d.parts| > 0
    requires forall f | f in sweep :: |f.parts| > 0 && Parent(f) != d
    requires DefinitionFile(defDir, d) !in sweep
    requires d !in pruned && forall c | c in pruned :: |c.parts| > 0 && Parent(c) != d
    ensures DirVerdict(files - sweep, defDir, d, func, hash) == DirVerdict(files, defDir, d, func, hash)
    ensures DatedFiles(files - sweep, d, start, end) == DatedFiles(files, d, start, end)
    ensures Entries(files - sweep, dirs - pruned, d) == Entries(files, dirs, d)
    ensures Emptied(files - sweep, dirs - pruned, d, start, end) == Emptied(files, dirs, d, start, end)
    ensures DirSucceeds(files - sweep, dirs - pruned, defDir, d, func, hash, start, end)
            == DirSucceeds(files, dirs, defDir, d, func, hash, start, end)
  {
    assert TextAt(files - sweep, DefinitionFile(defDir, d)) == TextAt(files, DefinitionFile(defDir, d));
  }

  /** Clearing one more directory `d` extends the removed pickles by its
      selected ones, which no earlier directory held. */
  lemma RemovedStep(files: map<Path, FileEntry>, defDir: Path, done: set<Path>, d: Path,
                    func: string, hash: string, start: string, end: string)
    requires forall x | x in done :: |x.parts| > 0
    requires |d.parts| > 0 && d !in done
    ensures var dated := if DirVerdict(files, defDir, d, func, hash).Clear? then DatedFiles(files, d, start, end) else {};
      && RemovedFiles(files, defDir, done + {d}, func, hash, start, end) == RemovedFiles(files, defDir, done, func, hash, start, end) + dated
      && RemovedFiles(files, defDir, done, func, hash, start, end) * dated == {}
  {
    assert Cleared(files, defDir, done + {d}, func, hash)
      == Cleared(files, defDir, done, func, hash) + (if DirVerdict(files, defDir, d, func, hash).Clear? then {d} else {});
  }

  /** Clearing one more directory `d` prunes it when it is cleared and left
      empty. */
  lemma PrunedStep(files: map<Path, FileEntry>, dirs: set<Path>, defDir: Path, done: set<Path>, d: Path,
                   func: string, hash: string, start: string, end: string)
    requires forall x | x in done :: |x.parts| > 0
    requires |d.parts| > 0 && d !in done
    ensures var emptied := DirVerdict(files, defDir, d, func, hash).Clear? && Emptied(files, dirs, d, start, end);
      && Pruned(files, dirs, defDir, done + {d}, func, hash, start, end)
         == Pruned(files, dirs, defDir, done, func, hash, start, end) + (if emptied then {d} else {})
      && PrunedDefinitions(defDir, Pruned(files, dirs, defDir, done + {d}, func, hash, start, end))
         == PrunedDefinitions(defDir, Pruned(files, dirs, defDir, done, func, hash, start, end))
            + (if emptied then {DefinitionFile(defDir, d)} else {})
  {
    assert Cleared(files, defDir, done + {d}, func, hash)
      == Cleared(files, defDir, done, func, hash) + (if DirVerdict(files, defDir, d, func, hash).Clear? then {d} else {});
  }

  /** What is swept after one more directory `d`: its selected pickles
      when it is cleared, and its definition file when it is also left
      empty. */
  lemma SweptStep(files: map<Path, FileEntry>, dirs: set<Path>, defDir: Path, done: set<Path>, d: Path,
                  func: string, hash: string, start: string, end: string)
    requires forall x | x in done :: |x.parts| > 0
    requires |d.parts| > 0 && d !in done
    ensures var cleared := DirVerdict(files, defDir, d, func, hash).Clear?;
      var emptied := cleared && Emptied(files, dirs, d, start, end);
      Swept(files, dirs, defDir, done + {d}, func, hash, start, end)
        == Swept(files, dirs, defDir, done, func, hash, start, end)
           + (if cleared then DatedFiles(files, d, start, end) else {})
           + (if emptied then {DefinitionFile(defDir, d)} else {})
  {
    RemovedStep(files, defDir, done, d, func, hash, start, end);
    PrunedStep(files, dirs, defDir, done, d, func, hash, start, end);
  }

  /** The tree after one more directory `d`, clearing it as the
      original tree says, is the original tree less what the directories
      `done + {d}` sweep. */
  lemma AfterClearDir(files: map<Path, FileEntry>, dirs: set<Path>, defDir: Path, done: set<Path>, d: Path,
                      func: string, hash: string, start: string, end: string,
                      files2: map<Path, FileEntry>, dirs2: set<Path>, n: nat)
    requires forall x | x in done :: |x.parts| > 0
    requires |d.parts| > 0 && d !in done
    requires var cleared := DirVerdict(files, defDir, d, func, hash).Clear?;
      var emptied := cleared && Emptied(files, dirs, d, start, end);
      && files2 == (if cleared
                    then files - Swept(files, dirs, defDir, done, func, hash, start, end) - DatedFiles(files, d, start, end)
                         - (if emptied then {DefinitionFile(defDir, d)} else {})
                    else files - Swept(files, dirs, defDir, done, func, hash, start, end))
      && dirs2 == dirs - Pruned(files, dirs, defDir, done, func, hash, start, end) - (if emptied then {d} else {})
      && n == if cleared then |DatedFiles(files, d, start, end)| else 0
    ensures files2 == files - Swept(files, dirs, defDir, done + {d}, func, hash, start, end)
    ensures dirs2 == dirs - Pruned(files, dirs, defDir, done + {d}, func, hash, start, end)
    ensures |RemovedFiles(files, defDir, done + {d}, func, hash, start, end)|
            == |RemovedFiles(files, defDir, done, func, hash, start, end)| + n
  {
    assert files2 == files - Swept(files, dirs, defDir, done + {d}, func, hash, start, end) by {
      AfterClearDirFiles(files, dirs, defDir, done, d, func, hash, start, end);
    }
    assert dirs2 == dirs - Pruned(files, dirs, defDir, done + {d}, func, hash, start, end) by {
      PrunedStep(files, dirs, defDir, done, d, func, hash, start, end);
    }
    assert |RemovedFiles(files, defDir, done + {d}, func, hash, start, end)|
           == |RemovedFiles(files, defDir, done, func, hash, start, end)| + n by {
      RemovedStep(files, defDir, done, d, func, hash, start, end);
    }
  }

  lemma AfterClearDirFiles(files: map<Path, FileEntry>, dirs: set<Path>, defDir: Path, done: set<Path>, d: Path,
                           func: string, hash: string, start: string, end: string)
    requires forall x | x in done :: |x.parts| > 0
    requires |d.parts| > 0 && d !in done
    ensures var cleared := DirVerdict(files, defDir, d, func, hash).Clear?;
      var emptied := cleared && Emptied(files, dirs, d, start, end);
      (if cleared
       then files - Swept(files, dirs, defDir, done, func, hash, start, end) - DatedFiles(files, d, start, end)
            - (if emptied then {DefinitionFile(defDir, d)} else {})
       else files - Swept(files, dirs, defDir, done, func, hash, start, end))
      == files - Swept(files, dirs, defDir, done + {d}, func, hash, start, end)
  {
    var cleared := DirVerdict(files, defDir, d, func, hash).Clear?;
    var emptied := cleared && Emptied(files, dirs, d, start, end);
    var sweep := Swept(files, dirs, defDir, done, func, hash, start, end);
    var dated := if cleared then DatedFiles(files, d, start, end) else {};
    var defPart: set<Path> := if emptied then {DefinitionFile(defDir, d)} else {};
    SweptStep(files, dirs, defDir, done, d, func, hash, start, end);
    MinusInTurn(files, sweep, dated, defPart);
  }

  lemma MinusInTurn<K, V>(m: map<K, V>, a: set<K>, b: set<K>, c: set<K>)
    ensures m - a - b - c == m - (a + b + c)
  {
  }

  /** Nothing is removed before the first directory. */
  lemma SweptNone(files: map<Path, FileEntry>, dirs: set<Path>, defDir: Path, func: string, hash: string, start: string, end: string)
    ensures RemovedFiles(files, defDir, {}, func, hash, start, end) == {}
    ensures Pruned(files, dirs, defDir, {}, func, hash, start, end) == {}
    ensures Swept(files, dirs, defDir, {}, func, hash, start, end) == {}
  {
    assert Cleared(files, defDir, {}, func, hash) == {};
  }

  /** The pickle path `clear_files` removes as written (line 557):
      `os.path.join(file_dir, f)` of a path `f` that already starts with
      the cache root. */
  function DeletionPathAsWritten(fileDir: Path, f: Path): Path {
    JoinPath(fileDir, f)
  }

  /** With a relative cache root the path removed as written is not the
      pickle that was listed, so no pickle is removed. */
  lemma DeletionPathMissesRelativeRoot(fileDir: Path, f: Path)
    requires !f.absolute && |fileDir.parts| > 0
    ensures DeletionPathAsWritten(fileDir, f) != f
  {
    JoinRelativeMoves(fileDir, f);
  }

  /** Under a relative cache root, the path removed as written names no
      file at all, unless the tree holds the doubled directory
      `fileDir/fileDir`: the `os.remove` of every listed pickle raises
      `FileNotFoundError`, which is swallowed, so nothing is removed and
      nothing is counted. */
  lemma DeletionAsWrittenFindsNoFile(files: map<Path, FileEntry>, dirs: set<Path>, fileDir: Path, f: Path)
    requires WellFormed(files, dirs)
    requires !fileDir.absolute && |fileDir.parts| > 0
    requires f in files && Parent(f) == fileDir
    requires Path(false, fileDir.parts + fileDir.parts) !in dirs
    ensures DeletionPathAsWritten(fileDir, f) !in files
  {
    var j := DeletionPathAsWritten(fileDir, f);
    assert f.parts == fileDir.parts + [f.parts[|f.parts| - 1]];
    assert j.parts == fileDir.parts + fileDir.parts + [f.parts[|f.parts| - 1]];
    assert Parent(j) == Path(false, fileDir.parts + fileDir.parts);
  }

  /** With an absolute root the path as written is the listed pickle. */
  lemma DeletionPathAbsoluteRoot(fileDir: Path, f: Path)
    requires f.absolute
    ensures DeletionPathAsWritten(fileDir, f) == f
  {
  }
}
