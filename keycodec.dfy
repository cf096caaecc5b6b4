/** Key derivation (`FileMemCache.get_hash` and `get_set_name`): a call's
    bound arguments are sorted by name, the `dateDt` argument is popped
    and formatted as the partition token, and the rest is rendered as a
    Python dict and hashed. The key is `namespace:func:hash:token`; its
    signature (the set that tracks all partitions of one call shape) is
    the key without its last `:` segment. */
module KeyCodec {
  import opened Python
  import opened Strings

  /** One bound argument: its name and its value. */
  type Arg = (string, PyObj)

  /** The argument the cache treats as the as-of date. */
  const DateArgName := "dateDt"

  /** The token used when there is no date or it cannot be formatted. */
  const NoDateToken := "0"

  /** What a bound-argument mapping is: no name twice. */
  predicate DistinctNames(args: seq<Arg>) {
    forall i, j | 0 <= i < |args| && 0 <= j < |args| && i != j :: args[i].0 != args[j].0
  }

  predicate SortedByName(s: seq<Arg>) {
    forall i, j | 0 <= i < j < |s| :: LessEq(s[i].0, s[j].0)
  }

  function InsertByName(x: Arg, s: seq<Arg>): (r: seq<Arg>)
    ensures multiset(r) == multiset(s) + multiset{x}
    decreases |s|
  {
    if |s| == 0 then [x]
    else if LessEq(x.0, s[0].0) then [x] + s
    else
      assert s == [s[0]] + s[1..];
      [s[0]] + InsertByName(x, s[1..])
  }

  /** `sorted(arguments.items(), key=lambda x: x[0])`. */
  function SortByName(args: seq<Arg>): (r: seq<Arg>)
    ensures multiset(r) == multiset(args)
    decreases |args|
  {
    if |args| == 0 then []
    else
      assert args == [args[0]] + args[1..];
      InsertByName(args[0], SortByName(args[1..]))
  }

  lemma {:induction false} InsertByNameSorted(x: Arg, s: seq<Arg>)
    requires SortedByName(s)
    ensures SortedByName(InsertByName(x, s))
    decreases |s|
  {
    var r := InsertByName(x, s);
    if |s| == 0 {
    } else if LessEq(x.0, s[0].0) {
      forall i, j | 0 <= i < j < |r| ensures LessEq(r[i].0, r[j].0) {
        if i == 0 {
          LessEqTransitive(x.0, s[0].0, s[j - 1].0);
        }
      }
    } else {
      LessTotal(x.0, s[0].0);
      InsertByNameSorted(x, s[1..]);
      InsertKeepsLowerBound(x, s[1..], s[0].0);
    }
  }

  /** A name no greater than `x`'s and every name in `s` stays below every
      name after the insertion. */
  lemma {:induction false} InsertKeepsLowerBound(x: Arg, s: seq<Arg>, b: string)
    requires LessEq(b, x.0)
    requires forall k | 0 <= k < |s| :: LessEq(b, s[k].0)
    ensures forall k | 0 <= k < |InsertByName(x, s)| :: LessEq(b, InsertByName(x, s)[k].0)
    decreases |s|
  {
    if |s| > 0 && !LessEq(x.0, s[0].0) {
      InsertKeepsLowerBound(x, s[1..], b);
    }
  }

  lemma {:induction false} SortByNameSorted(args: seq<Arg>)
    ensures SortedByName(SortByName(args))
    decreases |args|
  {
    if |args| > 0 {
      SortByNameSorted(args[1..]);
      InsertByNameSorted(args[0], SortByName(args[1..]));
    }
  }

  lemma HeadIsLeast(x: seq<Arg>, e: Arg)
    requires SortedByName(x) && e in multiset(x)
    ensures |x| > 0 && LessEq(x[0].0, e.0)
  {
    var j :| 0 <= j < |x| && x[j] == e;
    if j > 0 {
      assert LessEq(x[0].0, x[j].0);
    }
  }

  /** Within `m`, an argument is determined by its name. */
  predicate NamesDetermine(m: multiset<Arg>) {
    forall a: Arg, b: Arg | a in m && b in m && a.0 == b.0 :: a == b
  }

  lemma SortedHeadsEqual(x: seq<Arg>, y: seq<Arg>)
    requires SortedByName(x) && SortedByName(y)
    requires multiset(x) == multiset(y) && |x| > 0
    requires NamesDetermine(multiset(x))
    ensures |y| > 0 && x[0] == y[0]
  {
    assert x[0] in multiset(x);
    HeadIsLeast(y, x[0]);
    assert y[0] in multiset(y);
    HeadIsLeast(x, y[0]);
    LessEqAntisymmetric(x[0].0, y[0].0);
  }

  lemma TailsSameElements(x: seq<Arg>, y: seq<Arg>)
    requires multiset(x) == multiset(y) && |x| > 0 && |y| > 0 && x[0] == y[0]
    requires NamesDetermine(multiset(x))
    ensures multiset(x[1..]) == multiset(y[1..])
    ensures NamesDetermine(multiset(x[1..]))
  {
    assert x == [x[0]] + x[1..] && y == [y[0]] + y[1..];
    assert multiset(x) == multiset{x[0]} + multiset(x[1..]);
    assert multiset(y) == multiset{y[0]} + multiset(y[1..]);
    assert multiset(x[1..]) == multiset(x) - multiset{x[0]};
    assert multiset(y[1..]) == multiset(y) - multiset{y[0]};
    NamesDetermineSub(multiset(x[1..]), multiset(x));
  }

  lemma NamesDetermineSub(a: multiset<Arg>, b: multiset<Arg>)
    requires a <= b && NamesDetermine(b)
    ensures NamesDetermine(a)
  {
    forall u: Arg, w: Arg | u in a && w in a && u.0 == w.0 ensures u == w {
      assert u in b && w in b;
    }
  }

  lemma SortedTail(x: seq<Arg>)
    requires SortedByName(x) && |x| > 0
    ensures SortedByName(x[1..])
  {
    forall i, j | 0 <= i < j < |x| - 1 ensures LessEq(x[1..][i].0, x[1..][j].0) {
      assert x[1..][i] == x[i + 1] && x[1..][j] == x[j + 1];
    }
  }

  /** Two name-sorted sequences with the same elements are equal when
      equal names carry equal values. */
  lemma {:induction false} SortedUnique(x: seq<Arg>, y: seq<Arg>)
    requires SortedByName(x) && SortedByName(y)
    requires multiset(x) == multiset(y)
    requires NamesDetermine(multiset(x))
    ensures x == y
    decreases |x|
  {
    assert |x| == |multiset(x)| == |multiset(y)| == |y|;
    if |x| > 0 {
      SortedHeadsEqual(x, y);
      TailsSameElements(x, y);
      SortedTail(x);
      SortedTail(y);
      SortedUnique(x[1..], y[1..]);
      assert x == [x[0]] + x[1..] && y == [y[0]] + y[1..];
    }
  }

  /** The order in which the arguments were bound does not matter. */
  lemma SortByNameCanonical(a: seq<Arg>, b: seq<Arg>)
    requires DistinctNames(a)
    requires multiset(a) == multiset(b)
    ensures SortByName(a) == SortByName(b)
  {
    SortByNameSorted(a);
    SortByNameSorted(b);
    forall u: Arg, v: Arg | u in multiset(SortByName(a)) && v in multiset(SortByName(a)) && u.0 == v.0
      ensures u == v
    {
      assert u in a && v in a;
    }
    SortedUnique(SortByName(a), SortByName(b));
  }

  /** Index of the first argument with the given name. */
  function IndexOfName(s: seq<Arg>, name: string): (r: Option<nat>)
    ensures r.Some? ==> r.value < |s| && s[r.value].0 == name
    ensures r.None? ==> forall k | 0 <= k < |s| :: s[k].0 != name
    decreases |s|
  {
    if |s| == 0 then None
    else if s[0].0 == name then Some(0)
    else match IndexOfName(s[1..], name)
      case None => None
      case Some(i) => Some(i + 1)
  }

  /** The partition token and the arguments left after popping `dateDt`. */
  datatype Popped = Popped(token: string, rest: seq<Arg>)

  /** `sorted_params.pop('dateDt')` followed by `strftime`, inside the
      `try`/`except` of `get_hash`: a missing `dateDt` and a failing
      formatter both give the token `'0'`; a present `dateDt` is removed
      from the arguments in either case. */
  function PopDate(rt: Runtime, sorted: seq<Arg>): (p: Popped)
    ensures |p.rest| <= |sorted|
    ensures multiset(p.rest) <= multiset(sorted)
  {
    match IndexOfName(sorted, DateArgName)
    case None => Popped(NoDateToken, sorted)
    case Some(i) =>
      assert sorted == sorted[..i] + [sorted[i]] + sorted[i + 1..];
      var token := match rt.strftime(sorted[i].1)
        case Some(t) => t
        case None => NoDateToken;
      Popped(token, sorted[..i] + sorted[i + 1..])
  }

  /** `repr` of one dict item whose key is an argument name. */
  function ItemRepr(rt: Runtime, a: Arg): string {
    "'" + a.0 + "': " + rt.repr(a.1)
  }

  function ItemsRepr(rt: Runtime, s: seq<Arg>): string
    decreases |s|
  {
    if |s| == 0 then ""
    else if |s| == 1 then ItemRepr(rt, s[0])
    else ItemRepr(rt, s[0]) + ", " + ItemsRepr(rt, s[1..])
  }

  /** `str(d)` of a dict `d` whose items are `s`, in order. */
  function DictRepr(rt: Runtime, s: seq<Arg>): string {
    "{" + ItemsRepr(rt, s) + "}"
  }

  /** Everything `get_hash` derives from one call. */
  datatype Derived = Derived(
    funcDef: string,     // the pre-hash string, kept as the definition record
    hash: string,        // its SHA-512 hex digest
    signature: string,   // namespace:func:hash, the name of the key's set
    funcDefKey: string,  // namespace:func:hash:funcDef
    token: string,       // the partition token
    cacheKey: string)    // namespace:func:hash:token

  function Derive(rt: Runtime, namespace: string, funcname: string, args: seq<Arg>): Derived {
    var popped := PopDate(rt, SortByName(args));
    var funcDef := funcname + DictRepr(rt, popped.rest);
    var hash := rt.sha512(funcDef);
    var signature := namespace + ":" + funcname + ":" + hash;
    Derived(funcDef, hash, signature, signature + ":funcDef", popped.token,
            signature + ":" + popped.token)
  }

  /** `get_set_name`: the key without its last `:` segment. */
  function SetName(key: string): string {
    BeforeLast(key, ':')
  }

  /** Key derivation is deterministic in the call: binding the same
      arguments in another order gives the same key, signature and
      definition record. */
  lemma DeriveIgnoresArgumentOrder(rt: Runtime, namespace: string, funcname: string, a: seq<Arg>, b: seq<Arg>)
    requires DistinctNames(a)
    requires multiset(a) == multiset(b)
    ensures Derive(rt, namespace, funcname, a) == Derive(rt, namespace, funcname, b)
  {
    SortByNameCanonical(a, b);
  }

  /** The token the date argument `v` gives: its formatted value, or `'0'`. */
  function TokenOf(rt: Runtime, v: PyObj): string {
    match rt.strftime(v)
    case Some(t) => t
    case None => NoDateToken
  }

  lemma RemoveAtMultiset(s: seq<Arg>, i: nat)
    requires i < |s|
    ensures multiset(s[..i] + s[i + 1..]) == multiset(s) - multiset{s[i]}
  {
    assert s == s[..i] + [s[i]] + s[i + 1..];
  }

  lemma SortedAfterRemoval(s: seq<Arg>, i: nat)
    requires i < |s| && SortedByName(s)
    ensures SortedByName(s[..i] + s[i + 1..])
  {
    var r := s[..i] + s[i + 1..];
    forall p, q | 0 <= p < q < |r| ensures LessEq(r[p].0, r[q].0) {
      var p' := if p < i then p else p + 1;
      var q' := if q < i then q else q + 1;
      assert r[p] == s[p'] && r[q] == s[q'];
    }
  }

  lemma SameNameSameArg(a: seq<Arg>, u: Arg, w: Arg)
    requires DistinctNames(a) && u in a && w in a && u.0 == w.0
    ensures u == w
  {
    var i :| 0 <= i < |a| && a[i] == u;
    var j :| 0 <= j < |a| && a[j] == w;
  }

  lemma PopDateAt(rt: Runtime, s: seq<Arg>, x: Arg)
    requires x in multiset(s) && x.0 == DateArgName
    requires NamesDetermine(multiset(s))
    ensures PopDate(rt, s).token == TokenOf(rt, x.1)
    ensures multiset(PopDate(rt, s).rest) == multiset(s) - multiset{x}
    ensures exists i | 0 <= i < |s| :: PopDate(rt, s).rest == s[..i] + s[i + 1..]
  {
    var i := IndexOfName(s, DateArgName).value;
    assert s[i] in multiset(s);
    assert s[i] == x;
    RemoveAtMultiset(s, i);
  }

  /** Popping the date from the sorted arguments removes exactly the date
      entry and leaves the rest sorted. */
  lemma PopDateOfSorted(rt: Runtime, a: seq<Arg>, x: Arg)
    requires DistinctNames(a) && x in a && x.0 == DateArgName
    ensures var p := PopDate(rt, SortByName(a));
      && p.token == TokenOf(rt, x.1)
      && multiset(p.rest) == multiset(a) - multiset{x}
      && SortedByName(p.rest)
  {
    var sa := SortByName(a);
    SortByNameSorted(a);
    forall u: Arg, v: Arg | u in multiset(sa) && v in multiset(sa) && u.0 == v.0
      ensures u == v
    {
      SameNameSameArg(a, u, v);
    }
    PopDateAt(rt, sa, x);
    var i :| 0 <= i < |sa| && PopDate(rt, sa).rest == sa[..i] + sa[i + 1..];
    SortedAfterRemoval(sa, i);
  }

  lemma NameAbsentFromPermutation(s: seq<Arg>, t: seq<Arg>, name: string)
    requires multiset(s) == multiset(t)
    requires forall k | 0 <= k < |s| :: s[k].0 != name
    ensures forall k | 0 <= k < |t| :: t[k].0 != name
  {
    forall k | 0 <= k < |t| ensures t[k].0 != name {
      assert t[k] in multiset(s);
    }
  }

  /** The partition token in terms of the call: the formatted `dateDt`
      when there is one, `'0'` otherwise. */
  lemma PartitionToken(rt: Runtime, namespace: string, funcname: string, args: seq<Arg>)
    requires DistinctNames(args)
    ensures var d := Derive(rt, namespace, funcname, args);
      && ((forall k | 0 <= k < |args| :: args[k].0 != DateArgName) ==> d.token == NoDateToken)
      && forall k | 0 <= k < |args| && args[k].0 == DateArgName :: d.token == TokenOf(rt, args[k].1)
  {
    var sorted := SortByName(args);
    if forall k | 0 <= k < |args| :: args[k].0 != DateArgName {
      NameAbsentFromPermutation(args, sorted, DateArgName);
    }
    forall k | 0 <= k < |args| && args[k].0 == DateArgName
      ensures Derive(rt, namespace, funcname, args).token == TokenOf(rt, args[k].1)
    {
      PopDateOfSorted(rt, args, args[k]);
    }
  }

  /** Two calls that differ only in the value of `dateDt` share their
      signature (and so their set and their file directory); their keys
      differ exactly in the partition token. */
  lemma SignatureIgnoresDate(rt: Runtime, namespace: string, funcname: string,
                             a: seq<Arg>, i: nat, v: PyObj)
    requires DistinctNames(a)
    requires i < |a| && a[i].0 == DateArgName
    ensures var b := a[i := (DateArgName, v)];
      && Derive(rt, namespace, funcname, a).signature == Derive(rt, namespace, funcname, b).signature
      && Derive(rt, namespace, funcname, a).funcDef == Derive(rt, namespace, funcname, b).funcDef
      && Derive(rt, namespace, funcname, a).token == TokenOf(rt, a[i].1)
      && Derive(rt, namespace, funcname, b).token == TokenOf(rt, v)
  {
    var x, y := a[i], (DateArgName, v);
    var b := a[i := y];
    assert forall k | 0 <= k < |a| :: b[k].0 == a[k].0;
    assert DistinctNames(b);
    RemoveAtMultiset(a, i);
    RemoveAtMultiset(b, i);
    assert a[..i] + a[i + 1..] == b[..i] + b[i + 1..];
    PopDateOfSorted(rt, a, x);
    PopDateOfSorted(rt, b, y);
    var ra, rb := PopDate(rt, SortByName(a)).rest, PopDate(rt, SortByName(b)).rest;
    assert multiset(ra) == multiset(rb);
    forall u: Arg, w: Arg | u in multiset(ra) && w in multiset(ra) && u.0 == w.0 ensures u == w {
      SameNameSameArg(a, u, w);
    }
    SortedUnique(ra, rb);
  }

  lemma SetNameOfSignatureKey(signature: string, last: string)
    requires ':' !in last
    ensures SetName(signature + ":" + last) == signature
  {
    assert signature + ":" + last == signature + [':'] + last;
    BeforeLastSeparator(signature, ':', last);
  }

  /** The key's set is its signature: `get_set_name` undoes the
      appending of the partition token. */
  lemma SetNameOfDerivedKey(rt: Runtime, namespace: string, funcname: string, args: seq<Arg>)
    requires ':' !in Derive(rt, namespace, funcname, args).token
    ensures var d := Derive(rt, namespace, funcname, args);
      SetName(d.cacheKey) == d.signature && SetName(d.funcDefKey) == d.signature
  {
    var d := Derive(rt, namespace, funcname, args);
    assert d.cacheKey == d.signature + ":" + d.token;
    assert d.funcDefKey == d.signature + ":" + "funcDef";
    SetNameOfSignatureKey(d.signature, d.token);
    SetNameOfSignatureKey(d.signature, "funcDef");
  }

  /** The four `:`-separated fields of a derived key, when none of them
      holds a `:` (the hash never does, being a hex digest). */
  lemma DerivedKeyFields(rt: Runtime, namespace: string, funcname: string, args: seq<Arg>)
    requires IsHexDigest(Derive(rt, namespace, funcname, args).hash)
    requires ':' !in namespace && ':' !in funcname
    requires ':' !in Derive(rt, namespace, funcname, args).token
    ensures var d := Derive(rt, namespace, funcname, args);
      Split(d.cacheKey, ':') == [namespace, funcname, d.hash, d.token]
  {
    var d := Derive(rt, namespace, funcname, args);
    var parts := [namespace, funcname, d.hash, d.token];
    assert ':' !in d.hash;
    assert parts[1..][1..][1..] == [d.token];
    assert Join(parts[1..][1..], ':') == d.hash + [':'] + d.token;
    assert Join(parts[1..], ':') == funcname + [':'] + d.hash + [':'] + d.token;
    assert Join(parts, ':') == d.cacheKey;
    SplitJoin(parts, ':');
  }
}
