/** The cache engine, `FileMemCache`: a Redis primary tier bounded per
    call shape, a pickle file tier that backs it, the key derivation that
    ties a call to both, and the read, write and invalidation paths. */
module Engine {
  import opened Python
  import opened Strings
  import opened Patterns
  import opened KeyCodec
  import opened Primary
  import opened FileTier
  import opened Invalidation

  /** The expiry `store` uses (lines 195-201), for an int or `None`
      expiry: `None` falls back to the cache's default; `None` or an int
      `<= 0` stores with no expiry, a positive int with that time-to-live. */
  function EffectiveExpiry(expire: Option<int>, default: Option<int>): (e: Expiry)
    ensures expire.Some? && expire.value > 0 ==> e == Ttl(expire.value)
    ensures expire.Some? && expire.value <= 0 ==> e == Persistent
    ensures expire.None? && default.Some? && default.value > 0 ==> e == Ttl(default.value)
    ensures expire.None? && (default.None? || default.value <= 0) ==> e == Persistent
    ensures e.Ttl? ==> e.seconds > 0
  {
    var chosen := if expire.None? then default else expire;
    if chosen.None? || chosen.value <= 0 then Persistent else Ttl(chosen.value)
  }

  /** The effect of `get_hash` on the primary tier (lines 396-401): the
      definition record and its `ns:funcDef` membership are written only
      when `keys(funcDefKey)` finds nothing. */
  function RecordDefinition(values: map<string, Entry>, sets: Sets, ns: string, d: Derived): (map<string, Entry>, Sets) {
    if KeysMatching(values, sets, d.funcDefKey) != {} then (values, sets)
    else (values[d.funcDefKey := Entry(Str(d.funcDef), Persistent)], AddMember(sets, ns + ":funcDef", d.funcDefKey))
  }

  /** A recorded definition is never overwritten. */
  lemma RecordDefinitionKeepsExisting(values: map<string, Entry>, sets: Sets, ns: string, d: Derived)
    requires d.funcDefKey in values
    ensures RecordDefinition(values, sets, ns, d) == (values, sets)
  {
    GlobSelf(d.funcDefKey);
    assert d.funcDefKey in KeysMatching(values, sets, d.funcDefKey);
  }

  /** A second `get_hash` of the same call leaves the primary tier as the
      first left it. */
  lemma RecordDefinitionIdempotent(values: map<string, Entry>, sets: Sets, ns: string, d: Derived)
    ensures var (v1, s1) := RecordDefinition(values, sets, ns, d);
      RecordDefinition(v1, s1, ns, d) == (v1, s1)
  {
    var (v1, s1) := RecordDefinition(values, sets, ns, d);
    if KeysMatching(values, sets, d.funcDefKey) != {} {
    } else {
      RecordDefinitionKeepsExisting(v1, s1, ns, d);
    }
  }

  /** After recording, the definition can be found and is in the
      namespace's definition set. */
  lemma RecordDefinitionRecords(values: map<string, Entry>, sets: Sets, ns: string, d: Derived)
    requires '*' !in d.funcDefKey
    requires d.funcDefKey !in sets
    ensures var (v1, s1) := RecordDefinition(values, sets, ns, d);
      d.funcDefKey in v1
      && (d.funcDefKey !in values ==>
            v1[d.funcDefKey] == Entry(Str(d.funcDef), Persistent) && d.funcDefKey in Members(s1, ns + ":funcDef"))
  {
    KeysOfLiteral(values, sets, d.funcDefKey);
  }

  lemma RemoveInTurn<K, V>(m: map<K, V>, a: set<K>, b: set<K>)
    ensures m - a - b == m - (a + b)
  {
  }

  /** One turn of the eviction loop: popping `m` from the set and
      deleting it as a key extends the evicted members by `m`. */
  lemma EvictionStep(sets0: Sets, name: string, gone: set<string>, m: string)
    requires NoEmptySets(sets0)
    requires name !in gone && m in Members(sets0, name) - gone
    ensures RemoveMember(AfterEviction(sets0, name, gone), name, m) - {m} == AfterEviction(sets0, name, gone + {m})
    ensures |Members(sets0, name) - (gone + {m})| == |Members(sets0, name) - gone| - 1
  {
    var lhs := RemoveMember(AfterEviction(sets0, name, gone), name, m) - {m};
    var rhs := AfterEviction(sets0, name, gone + {m});
    forall n ensures Members(lhs, n) == Members(rhs, n) {
    }
    SetsByMembers(lhs, rhs);
    assert Members(sets0, name) - gone == (Members(sets0, name) - (gone + {m})) + {m};
  }

  /** `glob(d/'*.pkl')`: the entries of `d` with a pickle name. */
  function PklEntries(files: map<Path, FileEntry>, dirs: set<Path>, d: Path): (r: set<Path>)
    ensures forall p | p in r :: |p.parts| > 0 && Parent(p) == d && IsPklName(Name(p))
  {
    set p | p in Entries(files, dirs, d) && IsPklName(Name(p))
  }

  /** Every selected pickle is listed by the glob. */
  lemma DatedListed(files: map<Path, FileEntry>, dirs: set<Path>, d: Path, start: string, end: string)
    ensures DatedFiles(files, d, start, end) <= PklEntries(files, dirs, d)
  {
  }

  /** Membership of the selected pickles, one path at a time. */
  lemma DatedMember(files: map<Path, FileEntry>, d: Path, start: string, end: string, f: Path)
    requires |f.parts| > 0 && Parent(f) == d && IsPklName(Name(f))
    ensures f in DatedFiles(files, d, start, end) <==> f in files && InRange(start, end, PklDate(Name(f)))
  {
  }

  /** Removing files from a tree removes them from the directory
      listings and nothing else. */
  lemma EntriesWithout(files: map<Path, FileEntry>, dirs: set<Path>, d: Path, gone: set<Path>)
    requires WellFormed(files, dirs) && gone <= files.Keys
    ensures Entries(files - gone, dirs, d) == Entries(files, dirs, d) - gone
  {
  }

  /** A definition file `P<hash>.txt` is never a selected pickle. */
  lemma DefinitionFileNotPickle(defDir: Path, d: Path, start: string, end: string, files: map<Path, FileEntry>)
    requires |d.parts| > 0
    ensures DefinitionFile(defDir, d) !in DatedFiles(files, d, start, end)
  {
    var name := Name(d) + ".txt";
    ChildParts(defDir, name);
    assert name[|name| - 4..] == ".txt";
    assert !IsPklName(name);
  }

  /** The loop of lines 425-428: the names of the listing lines that
      mention `param`. */
  method SelectByParam(lines: set<string>, param: string) returns (names: set<string>)
    ensures names == ParamFiltered(lines, param)
  {
    names := {};
    var rest := lines;
    while rest != {}
      invariant rest <= lines
      invariant names == ParamFiltered(lines - rest, param)
      decreases |rest|
    {
      var m :| m in rest;
      if Contains(m, param) {
        names := names + {SplitFirst(m, " | ")};
      }
      rest := rest - {m};
    }
    assert lines - rest == lines;
  }

  /** The loop of lines 454-458: the names the rewritten pattern
      `re.match`es. */
  method MatchPrefixes(names: set<string>, pattern: string) returns (chosen: set<string>)
    ensures chosen == ChosenPrefixes(names, pattern)
  {
    chosen := {};
    var rest := names;
    while rest != {}
      invariant rest <= names
      invariant chosen == ChosenPrefixes(names - rest, pattern)
      decreases |rest|
    {
      var p :| p in rest;
      if RegexPrefix(pattern, p) {
        chosen := chosen + {p};
      }
      rest := rest - {p};
    }
    assert names - rest == names;
  }

  /** The loop of lines 471-477: the keys whose date token lies in
      range. */
  method FilterDateRange(keys: set<string>, start: string, end: string) returns (kept: set<string>)
    ensures kept == InDateRange(keys, start, end)
  {
    kept := {};
    var rest := keys;
    while rest != {}
      invariant rest <= keys
      invariant kept == InDateRange(keys - rest, start, end)
      decreases |rest|
    {
      var k :| k in rest;
      var token := DateSuffix(k);
      if token.Some? && InRange(start, end, token.value) {
        kept := kept + {k};
      }
      rest := rest - {k};
    }
    assert keys - rest == keys;
  }

  /** Progress of a sweep over `listed`: `removed` holds the selected
      paths already handled, and every selected path not yet removed is
      still to be visited in `rest`. */
  ghost predicate Sweeping(dated: set<Path>, removed: set<Path>, rest: set<Path>) {
    && removed <= dated
    && (forall x | x in dated :: x in removed || x in rest)
    && (forall x | x in removed :: x !in rest)
  }

  lemma SweepingStep(dated: set<Path>, removed: set<Path>, rest: set<Path>, f: Path, gone: bool)
    requires Sweeping(dated, removed, rest) && f in rest
    requires gone <==> f in dated
    ensures Sweeping(dated, if gone then removed + {f} else removed, rest - {f})
    ensures gone ==> |removed + {f}| == |removed| + 1
  {
  }

  lemma SweepingDone(dated: set<Path>, removed: set<Path>)
    requires Sweeping(dated, removed, {})
    ensures removed == dated
  {
  }

  /** One pass of the inner loop of `clear_files` (lines 555-564): the
      pickle `f` is removed when its date lies in range and it is still
      there. */
  method RemoveIfDated(disk: Disk, start: string, end: string, f: Path) returns (gone: bool)
    requires disk.Valid() && |f.parts| > 0
    modifies disk
    ensures disk.Valid() && disk.dirs == old(disk.dirs)
    ensures gone <==> f in old(disk.files) && InRange(start, end, PklDate(Name(f)))
    ensures gone ==> disk.files == old(disk.files) - {f}
    ensures !gone ==> disk.files == old(disk.files)
  {
    gone := false;
    if InRange(start, end, PklDate(Name(f))) {
      gone := disk.Remove(f);
    }
  }

  /** The inner loop of `clear_files` (lines 553-565): every `*.pkl`
      entry of `d` whose date lies in range is removed (a directory so
      named cannot be, and is skipped); `n` counts the removals. */
  method RemoveDatedFiles(disk: Disk, d: Path, start: string, end: string) returns (n: nat)
    requires disk.Valid()
    modifies disk
    ensures disk.Valid() && disk.dirs == old(disk.dirs)
    ensures disk.files == old(disk.files) - DatedFiles(old(disk.files), d, start, end)
    ensures n == |DatedFiles(old(disk.files), d, start, end)|
  {
    ghost var files0 := disk.files;
    ghost var dated := DatedFiles(files0, d, start, end);
    ghost var removed: set<Path> := {};
    var listed := PklEntries(disk.files, disk.dirs, d);
    var rest := listed;
    n := 0;
    DatedListed(files0, disk.dirs, d, start, end);
    while rest != {}
      invariant rest <= listed
      invariant Sweeping(dated, removed, rest)
      invariant disk.Valid() && disk.dirs == old(disk.dirs)
      invariant disk.files == files0 - removed
      invariant n == |removed|
      decreases |rest|
    {
      var f :| f in rest;
      DatedMember(files0, d, start, end, f);
      assert f in disk.files <==> f in files0;
      var gone := RemoveIfDated(disk, start, end, f);
      SweepingStep(dated, removed, rest, f, gone);
      if gone {
        RemoveInTurn(files0, removed, {f});
        removed := removed + {f};
        n := n + 1;
      }
      rest := rest - {f};
    }
    SweepingDone(dated, removed);
  }

  /** What `get` reports. */
  datatype GetResult = Found(value: PyObj) | CacheMiss | ExpiredKey | Failed(fault: Fault)

  /** Both tiers at one moment: the primary tier's values and sets and the
      file tier's files and directories. */
  datatype Tiers = Tiers(values: map<string, Entry>, sets: Sets, files: map<Path, FileEntry>, dirs: set<Path>)

  /** The outcome of the decorated function, computed or not. */
  datatype Computation = Returns(value: PyObj) | RaisesDoNotCache(result: PyObj)

  class FileMemCache {
    const limit: int
    const expire: Option<int>
    const namespace: string
    const fileRoot: Option<Path>
    const donotfilecache: bool
    const donotmemcache: bool
    const connection: Redis?
    const disk: Disk
    const rt: Runtime

    ghost predicate Valid()
      reads this, connection, disk
    {
      && (donotmemcache <==> connection == null)
      && (!donotfilecache ==> fileRoot.Some?)
      && (connection != null ==> connection.Valid())
      && disk.Valid()
    }

    /** `__init__` (lines 111-158): the file tier is off when asked or
        when there is no directory; the memory tier is off when asked or
        when the server did not answer (`server == null`). */
    constructor (limit: int, expire: Option<int>, fileRoot: Option<Path>, donotfilecache: bool,
                 donotmemcache: bool, namespace: string, server: Redis?, disk: Disk, rt: Runtime)
      requires server != null ==> server.Valid()
      requires disk.Valid()
      ensures Valid()
      ensures this.limit == limit && this.expire == expire && this.namespace == namespace
      ensures this.fileRoot == fileRoot && this.disk == disk && this.rt == rt
      ensures this.donotfilecache == (donotfilecache || fileRoot.None?)
      ensures this.donotmemcache == (donotmemcache || server == null)
      ensures this.connection == if donotmemcache then null else server
    {
      this.limit := limit;
      this.expire := expire;
      this.namespace := namespace;
      this.fileRoot := fileRoot;
      this.donotfilecache := donotfilecache || fileRoot.None?;
      this.donotmemcache := donotmemcache || server == null;
      this.connection := if donotmemcache then null else server;
      this.disk := disk;
      this.rt := rt;
    }

    /** Both tiers as they stand. */
    ghost function Now(): Tiers
      requires connection != null
      reads connection, disk
    {
      Tiers(connection.values, connection.sets, disk.files, disk.dirs)
    }

    /** `key in cache` (`__contains__`): membership of the key in its
        set. */
    function Contains(key: string): (r: bool)
      requires connection != null
      reads this, connection
      ensures r <==> key in Members(connection.sets, SetName(key))
    {
      connection.SIsMember(SetName(key), key)
    }

    /** The eviction loop of `store` (lines 188-190): while the set holds
        `limit` or more members, pop one and delete it; fails with the set
        empty when `limit <= 0`. */
    method Evict(name: string) returns (ok: bool, ghost evicted: set<string>)
      requires Valid() && connection != null
      modifies connection
      ensures Valid()
      ensures ok <==> limit >= 1
      ensures evicted <= Members(old(connection.sets), name)
      ensures connection.values == old(connection.values) - evicted
      ensures connection.sets == AfterEviction(old(connection.sets), name, evicted)
      ensures ok ==> |Members(connection.sets, name)| < limit
      ensures |Members(old(connection.sets), name)| < limit ==> evicted == {}
      ensures name !in evicted && evicted != {} ==> |Members(old(connection.sets), name) - evicted| >= limit - 1
      ensures !ok ==> Members(connection.sets, name) == {}
    {
      ghost var sets0, values0 := connection.sets, connection.values;
      evicted := {};
      SetsByMembers(sets0, AfterEviction(sets0, name, evicted));
      while connection.SCard(name) >= limit
        invariant connection.Valid() && Valid()
        invariant evicted <= Members(sets0, name)
        invariant connection.values == values0 - evicted
        invariant connection.sets == AfterEviction(sets0, name, evicted)
        invariant evicted != {} ==> |Members(sets0, name)| >= limit
        invariant name !in evicted && evicted != {} ==> |Members(sets0, name) - evicted| >= limit - 1
        decreases |Members(connection.sets, name)|
      {
        var m := connection.SPop(name);
        if m.None? {
          ok := false;
          return;
        }
        EvictionStep(sets0, name, evicted, m.value);
        RemoveInTurn(values0, evicted, {m.value});
        connection.Delete({m.value});
        evicted := evicted + {m.value};
      }
      ok := true;
    }

    /** `store` (lines 178-204): evict, then write the value with the
        chosen expiry and add the key to its set. With `limit <= 0` the set
        is emptied and `delete(None)` raises before anything is written. */
    method Store(key: string, blob: Blob, exp: Option<int>) returns (ok: bool, ghost evicted: set<string>)
      requires Valid() && connection != null
      modifies connection
      ensures Valid()
      ensures ok <==> limit >= 1
      ensures evicted <= Members(old(connection.sets), SetName(key))
      ensures ok ==> connection.values == (old(connection.values) - evicted)[key := Entry(blob, EffectiveExpiry(exp, expire))]
      ensures ok ==> connection.sets == AddMember(AfterEviction(old(connection.sets), SetName(key), evicted), SetName(key), key)
      ensures ok ==> |Members(AfterEviction(old(connection.sets), SetName(key), evicted), SetName(key))| < limit
      ensures ok ==> key in Members(connection.sets, SetName(key)) && |Members(connection.sets, SetName(key))| <= limit
      ensures ok && |Members(old(connection.sets), SetName(key))| < limit ==> evicted == {}
      ensures ok && SetName(key) !in evicted && |Members(old(connection.sets), SetName(key))| >= limit ==>
        |Members(old(connection.sets), SetName(key)) - evicted| == limit - 1
      ensures !ok ==> connection.values == old(connection.values) - evicted
      ensures !ok ==> connection.sets == AfterEviction(old(connection.sets), SetName(key), evicted)
      ensures !ok ==> Members(connection.sets, SetName(key)) == {}
    {
      var name := SetName(key);
      ok, evicted := Evict(name);
      if ok {
        connection.Set(key, blob, EffectiveExpiry(exp, expire));
        connection.SAdd(name, key);
      }
    }

    /** The primary tier after `store_key(key, x, exp)` from `(v0, s0)`,
        the members `evicted` having been popped from the key's set. */
    ghost predicate StoreOutcome(v0: map<string, Entry>, s0: Sets, key: string, x: PyObj, exp: Option<int>,
                                 evicted: set<string>, ok: bool, v1: map<string, Entry>, s1: Sets)
    {
      && evicted <= Members(s0, SetName(key))
      && (ok <==> limit >= 1)
      && (ok ==> v1 == (v0 - evicted)[key := Entry(Pickled(x), EffectiveExpiry(exp, expire))])
      && (ok ==> s1 == AddMember(AfterEviction(s0, SetName(key), evicted), SetName(key), key))
      && (!ok ==> v1 == v0 - evicted && s1 == AfterEviction(s0, SetName(key), evicted))
    }

    /** `store_key`: `store` of the pickled value. */
    method StoreKey(key: string, value: PyObj, exp: Option<int>) returns (ok: bool, ghost evicted: set<string>)
      requires Valid() && connection != null
      modifies connection
      ensures Valid()
      ensures StoreOutcome(old(connection.values), old(connection.sets), key, value, exp, evicted, ok,
                           connection.values, connection.sets)
    {
      ok, evicted := Store(key, Pickled(value), exp);
    }

    /** `key_to_file` (lines 215-225): the key's file, directory and file
        name, the directory made when missing. */
    method KeyToFile(key: string) returns (r: Result<(Path, Path, string)>)
      requires Valid() && fileRoot.Some?
      modifies disk
      ensures Valid() && disk.files == old(disk.files)
      ensures var loc := KeyLocation(fileRoot.value, old(disk.files), old(disk.dirs), key);
        && (r.Err? <==> loc.Err?)
        && (r.Err? ==> r.fault == loc.fault && disk.dirs == old(disk.dirs))
        && (r.Ok? ==> r.value == (loc.value.0, KeyPath(fileRoot.value, key).value.0, KeyPath(fileRoot.value, key).value.1)
                      && disk.dirs == loc.value.1)
    {
      match KeyPath(fileRoot.value, key)
      case None =>
        r := Err(MalformedKey);
      case Some((dir, name)) =>
        var ok := disk.MakeDirs(dir);
        r := if ok then Ok((Child(dir, name), dir, name)) else Err(NotADirectory);
    }

    /** `atomicwrite` (lines 227-250): stores the value sealed with its
        checksum at `destination/filename` when the destination is a
        directory; when the write fails the exception is swallowed and
        nothing changes. */
    method AtomicWrite(destination: Path, filename: string, data: PyObj)
      requires Valid()
      modifies disk
      ensures Valid() && disk.dirs == old(disk.dirs)
      ensures var p := Child(destination, filename);
        disk.files == if old(disk.IsDir(destination)) && p !in old(disk.dirs)
                      then old(disk.files)[p := Seal(rt, data)] else old(disk.files)
    {
      var p := Child(destination, filename);
      ChildParts(destination, filename);
      var _ := disk.Put(p, Seal(rt, data));
    }

    /** `atomicread` (lines 252-265): the stored value when its checksum
        holds; a corrupt file is removed and gives `None`. */
    method AtomicRead(p: Path) returns (r: Result<PyObj>)
      requires Valid()
      modifies disk
      ensures Valid() && disk.dirs == old(disk.dirs)
      ensures p !in old(disk.files) ==> r == Err(Unreadable) && disk.files == old(disk.files)
      ensures p in old(disk.files) ==>
        match Unseal(rt, old(disk.files)[p])
        case Intact(x) => r == Ok(x) && disk.files == old(disk.files)
        case Corrupt => r == Ok(PyNone) && disk.files == old(disk.files) - {p}
        case NotPickled => r == Err(NotAPickle) && disk.files == old(disk.files)
    {
      if p !in disk.files {
        r := Err(Unreadable);
      } else {
        match Unseal(rt, disk.files[p])
        case Intact(x) =>
          r := Ok(x);
        case Corrupt =>
          var _ := disk.Remove(p);
          r := Ok(PyNone);
        case NotPickled =>
          r := Err(NotAPickle);
      }
    }

    /** `store_key_file`: the value's pickle at the key's file. */
    method StoreKeyFile(key: string, value: PyObj) returns (r: Result<()>)
      requires Valid() && fileRoot.Some?
      modifies disk
      ensures Valid()
      ensures var loc := KeyLocation(fileRoot.value, old(disk.files), old(disk.dirs), key);
        && (r.Err? <==> loc.Err?)
        && (r.Err? ==> r.fault == loc.fault && disk.files == old(disk.files) && disk.dirs == old(disk.dirs))
        && (r.Ok? ==> disk.dirs == loc.value.1
                      && disk.files == if loc.value.0 in old(disk.dirs) then old(disk.files)
                                       else old(disk.files)[loc.value.0 := Seal(rt, value)])
    {
      var k := KeyToFile(key);
      match k
      case Err(f) =>
        r := Err(f);
      case Ok((_, dir, name)) =>
        AtomicWrite(dir, name, value);
        r := Ok(());
    }

    /** `get` of a key the primary tier holds (lines 290-297): the value is
        unpickled (a definition record is not a pickle) and, when the file
        tier is on and the key's file EXISTS, the file is rewritten with
        it. */
    method GetHit(key: string) returns (r: GetResult)
      requires Valid() && connection != null && key in connection.values
      modifies disk
      ensures Valid()
      ensures old(connection.values[key].blob).Str? ==>
        r == Failed(NotAPickle) && disk.files == old(disk.files) && disk.dirs == old(disk.dirs)
      ensures old(connection.values[key].blob).Pickled? && donotfilecache ==>
        r == Found(old(connection.values[key].blob.obj)) && disk.files == old(disk.files) && disk.dirs == old(disk.dirs)
      ensures old(connection.values[key].blob).Pickled? && !donotfilecache ==>
        var o := old(connection.values[key].blob.obj);
        var loc := KeyLocation(fileRoot.value, old(disk.files), old(disk.dirs), key);
        && (loc.Err? ==> r == Failed(loc.fault) && disk.files == old(disk.files) && disk.dirs == old(disk.dirs))
        && (loc.Ok? ==> r == Found(o) && disk.dirs == loc.value.1
                        && disk.files == if loc.value.0 in old(disk.files) then old(disk.files)[loc.value.0 := Seal(rt, o)]
                                         else old(disk.files))
    {
      match connection.values[key].blob
      case Str(_) =>
        r := Failed(NotAPickle);
      case Pickled(o) =>
        if donotfilecache {
          r := Found(o);
          return;
        }
        var k := KeyToFile(key);
        if k.Err? {
          r := Failed(k.fault);
          return;
        }
        var file := k.value.0;
        if disk.Exists(file) {
          var _ := StoreKeyFile(key, o);
        }
        r := Found(o);
    }

    /** The promotion of a file the primary tier misses (lines 278-283):
        read it back (a corrupt file is removed and reads as `None`) and
        store what was read. */
    method Promote(key: string, file: Path) returns (r: GetResult, ghost evicted: set<string>)
      requires Valid() && connection != null && file in disk.files
      modifies connection, disk
      ensures Valid() && disk.dirs == old(disk.dirs)
      ensures Unseal(rt, old(disk.files)[file]).NotPickled? ==>
        && r == Failed(NotAPickle) && disk.files == old(disk.files)
        && connection.values == old(connection.values) && connection.sets == old(connection.sets)
      ensures !Unseal(rt, old(disk.files)[file]).NotPickled? ==>
        var x := if Unseal(rt, old(disk.files)[file]).Intact? then old(disk.files)[file].data else PyNone;
        && disk.files == (if Unseal(rt, old(disk.files)[file]).Corrupt? then old(disk.files) - {file} else old(disk.files))
        && (r == if limit >= 1 then Found(x) else Failed(EvictionOnEmptySet))
        && StoreOutcome(old(connection.values), old(connection.sets), key, x, None, evicted, r.Found?,
                        connection.values, connection.sets)
    {
      evicted := {};
      var v := AtomicRead(file);
      if v.Err? {
        r := Failed(v.fault);
        return;
      }
      var ok;
      ok, evicted := StoreKey(key, v.value, None);
      r := if ok then Found(v.value) else Failed(EvictionOnEmptySet);
    }

    /** The outcome of `get(key)` from `t0` to `t1`: the result and the new
        state for an empty key, a primary hit, a promotion from the file
        tier, a miss, an expired key and each failure. */
    ghost predicate GetOutcome(t0: Tiers, key: string, r: GetResult, evicted: set<string>, t1: Tiers)
      requires !donotfilecache ==> fileRoot.Some?
    {
      // `if key:` -- the empty key reads as `None`
      && (key == "" ==>
           && r == Found(PyNone)
           && t1.values == t0.values && t1.sets == t0.sets
           && t1.files == t0.files && t1.dirs == t0.dirs)
      // a primary hit changes nothing in the primary tier
      && (key != "" && key in t0.values ==>
           && t1.values == t0.values && t1.sets == t0.sets
           && (t0.values[key].blob.Str? ==>
                 r == Failed(NotAPickle) && t1.files == t0.files && t1.dirs == t0.dirs)
           && (t0.values[key].blob.Pickled? && donotfilecache ==>
                 r == Found(t0.values[key].blob.obj) && t1.files == t0.files && t1.dirs == t0.dirs))
      && (key != "" && key in t0.values && t0.values[key].blob.Pickled? && !donotfilecache ==>
           var o := t0.values[key].blob.obj;
           var loc := KeyLocation(fileRoot.value, t0.files, t0.dirs, key);
           && (loc.Err? ==> r == Failed(loc.fault) && t1.files == t0.files && t1.dirs == t0.dirs)
           && (loc.Ok? ==> r == Found(o) && t1.dirs == loc.value.1
                           && t1.files == if loc.value.0 in t0.files then t0.files[loc.value.0 := Seal(rt, o)]
                                            else t0.files))
      // a primary miss looks in the file tier first
      && (key != "" && key !in t0.values && !donotfilecache ==>
           var loc := KeyLocation(fileRoot.value, t0.files, t0.dirs, key);
           && (loc.Err? ==>
                 && r == Failed(loc.fault) && t1.files == t0.files && t1.dirs == t0.dirs
                 && t1.values == t0.values && t1.sets == t0.sets)
           && (loc.Ok? ==> t1.dirs == loc.value.1)
           && (loc.Ok? && loc.value.0 in t0.dirs ==>
                 && r == Failed(Unreadable) && t1.files == t0.files
                 && t1.values == t0.values && t1.sets == t0.sets)
           && (loc.Ok? && loc.value.0 in t0.files && Unseal(rt, t0.files[loc.value.0]).NotPickled? ==>
                 && r == Failed(NotAPickle) && t1.files == t0.files
                 && t1.values == t0.values && t1.sets == t0.sets)
           && (loc.Ok? && loc.value.0 in t0.files && !Unseal(rt, t0.files[loc.value.0]).NotPickled? ==>
                 var file := loc.value.0;
                 var x := if Unseal(rt, t0.files[file]).Intact? then t0.files[file].data else PyNone;
                 && t1.files == (if Unseal(rt, t0.files[file]).Corrupt? then t0.files - {file} else t0.files)
                 && (r == if limit >= 1 then Found(x) else Failed(EvictionOnEmptySet))
                 && StoreOutcome(t0.values, t0.sets, key, x, None, evicted, r.Found?,
                                 t1.values, t1.sets)))
      // no value and no file: a miss, or an expired key dropped from its set
      && (key != "" && key !in t0.values &&
                 (donotfilecache || (var loc := KeyLocation(fileRoot.value, t0.files, t0.dirs, key);
                                     loc.Ok? && loc.value.0 !in t0.files && loc.value.0 !in t0.dirs)) ==>
           && t1.files == t0.files && t1.values == t0.values
           && (donotfilecache ==> t1.dirs == t0.dirs)
           && (key in Members(t0.sets, SetName(key)) ==>
                 r == ExpiredKey && t1.sets == RemoveMember(t0.sets, SetName(key), key))
           && (key !in Members(t0.sets, SetName(key)) ==>
                 r == CacheMiss && t1.sets == t0.sets))
    }

    /** A key the primary tier holds as a pickle is found with that value,
        unless its file location cannot be made. */
    lemma GetOutcomeHit(t0: Tiers, key: string, r: GetResult, evicted: set<string>, t1: Tiers)
      requires !donotfilecache ==> fileRoot.Some?
      requires GetOutcome(t0, key, r, evicted, t1)
      requires key != "" && key in t0.values && t0.values[key].blob.Pickled?
      requires donotfilecache || KeyLocation(fileRoot.value, t0.files, t0.dirs, key).Ok?
      ensures r == Found(t0.values[key].blob.obj)
      ensures t1.values == t0.values && t1.sets == t0.sets
    {
    }

    /** `get` (lines 269-297). */
    method Get(key: string) returns (r: GetResult, ghost evicted: set<string>)
      requires Valid() && connection != null
      modifies connection, disk
      ensures Valid()
      ensures GetOutcome(old(Now()), key, r, evicted, Now())
    {
      evicted := {};
      if key == "" {
        r := Found(PyNone);
        return;
      }
      if key in connection.values {
        r := GetHit(key);
        return;
      }
      if !donotfilecache {
        var k := KeyToFile(key);
        if k.Err? {
          r := Failed(k.fault);
          return;
        }
        var file := k.value.0;
        if disk.Exists(file) {
          if file !in disk.files {
            r := Failed(Unreadable);  // `open` of a directory
            return;
          }
          r, evicted := Promote(key, file);
          return;
        }
      }
      if !Contains(key) {
        r := CacheMiss;
        return;
      }
      connection.SRem(SetName(key), key);
      r := ExpiredKey;
    }

    /** The outcome of `get_hash(funcname, args)` from `t0` to `t1`. */
    ghost predicate HashOutcome(t0: Tiers, funcname: string, args: seq<Arg>, r: Result<string>, t1: Tiers)
    {
      && (var d := Derive(rt, namespace, funcname, args);
           (t1.values, t1.sets) == RecordDefinition(t0.values, t0.sets, namespace, d))
      && (fileRoot.None? ==>
           r == Ok(Derive(rt, namespace, funcname, args).cacheKey)
           && t1.files == t0.files && t1.dirs == t0.dirs)
      && (fileRoot.Some? ==>
           var d := Derive(rt, namespace, funcname, args);
           var defFile := DefinitionRecordFile(fileRoot.value, namespace, d.hash);
           match MadeDirs(t0.files, t0.dirs, DefinitionDir(fileRoot.value, namespace))
           case None => r == Err(NotADirectory) && t1.files == t0.files && t1.dirs == t0.dirs
           case Some(made) =>
             && r == Ok(d.cacheKey) && t1.dirs == made
             && t1.files == if defFile in t0.files || defFile in t0.dirs then t0.files
                              else t0.files[defFile := Plain(d.funcDef)])
    }

    /** `get_hash` (lines 379-415): derives the key, records the call's
        definition in the primary tier when `keys(funcDefKey)` finds
        nothing, and, whenever a cache directory is configured, writes
        `funcDefDir/P<hash>.txt` unless that path exists. */
    method GetHash(funcname: string, args: seq<Arg>) returns (r: Result<string>)
      requires Valid() && connection != null
      modifies connection, disk
      ensures Valid()
      ensures HashOutcome(old(Now()), funcname, args, r, Now())
    {
      var d := Derive(rt, namespace, funcname, args);
      if connection.Keys(d.funcDefKey) == {} {
        connection.Set(d.funcDefKey, Str(d.funcDef), Persistent);
        connection.SAdd(namespace + ":funcDef", d.funcDefKey);
      }
      if fileRoot.Some? {
        var defDir := DefinitionDir(fileRoot.value, namespace);
        var ok := disk.MakeDirs(defDir);
        if !ok {
          r := Err(NotADirectory);
          return;
        }
        var defFile := DefinitionRecordFile(fileRoot.value, namespace, d.hash);
        if !disk.Exists(defFile) {
          var _ := disk.Put(defFile, Plain(d.funcDef));
        }
      }
      r := Ok(d.cacheKey);
    }

    /** The primary tier after `clear_memory` from `(v0, s0)`: exactly the
        keys `MemoryTargets` selects are gone. */
    ghost predicate MemoryCleared(v0: map<string, Entry>, s0: Sets, func: string, param: string, start: string,
                                  end: string, hash: string, r: Result<()>, v1: map<string, Entry>, s1: Sets)
    {
      match MemoryTargets(v0, s0, namespace, func, param, hash, start, end)
      case Err(f) => r == Err(f) && v1 == v0 && s1 == s0
      case Ok(targets) => r == Ok(()) && v1 == v0 - targets && s1 == s0 - targets
    }

    /** The tree after `clear_files` from `(f0, d0)`. Over the directories
        `FileTargets` finds, it succeeds exactly when every one passes
        `DirSucceeds`; then it has removed the selected pickles of the
        cleared directories, pruned those left empty with their definition
        files, and counted the pickles removed. A failure only removes. */
    ghost predicate FilesCleared(f0: map<Path, FileEntry>, d0: set<Path>, func: string, param: string, start: string,
                                 end: string, hash: string, r: Result<nat>, f1: map<Path, FileEntry>, d1: set<Path>)
      requires fileRoot.Some?
    {
      var cacheDir := Child(fileRoot.value, namespace);
      var defDir := DefinitionDir(fileRoot.value, namespace);
      var (s, e) := FileBounds(start, end);
      match FileTargets(f0, d0, cacheDir, param)
      case Err(f) => r == Err(f) && f1 == f0 && d1 == d0
      case Ok(targets) =>
        && (r.Ok? <==> forall d | d in targets :: DirSucceeds(f0, d0, defDir, d, func, hash, s, e))
        && (r.Ok? ==>
              && r.value == |RemovedFiles(f0, defDir, targets, func, hash, s, e)|
              && f1 == f0 - RemovedFiles(f0, defDir, targets, func, hash, s, e)
                       - PrunedDefinitions(defDir, Pruned(f0, d0, defDir, targets, func, hash, s, e))
              && d1 == d0 - Pruned(f0, d0, defDir, targets, func, hash, s, e))
        && (r.Err? ==> d1 <= d0 && forall p | p in f1 :: p in f0 && f1[p] == f0[p])
    }

    /** The loop of lines 460-462: the union of `keys(p + '*')` over the
        chosen names. */
    method KeysUnder(prefixes: set<string>) returns (all: set<string>)
      requires connection != null
      ensures all == KeysUnderAny(connection.values, connection.sets, prefixes)
    {
      all := {};
      var rest := prefixes;
      while rest != {}
        invariant rest <= prefixes
        invariant all == KeysUnderAny(connection.values, connection.sets, prefixes - rest)
        decreases |rest|
      {
        var p :| p in rest;
        KeysUnderAnyGrow(connection.values, connection.sets, prefixes - rest, p);
        assert prefixes - (rest - {p}) == (prefixes - rest) + {p};
        all := all + connection.Keys(p + "*");
        rest := rest - {p};
      }
      assert prefixes - rest == prefixes;
    }

    /** The keys `clear_memory` (lines 425-479) selects: by listing and
        parameter when a parameter is given, by pattern otherwise, then by
        date range when both bounds are given. */
    method MemoryKeys(func: string, param: string, start: string, end: string, hash: string) returns (r: Result<set<string>>)
      requires connection != null
      ensures r == MemoryTargets(connection.values, connection.sets, namespace, func, param, hash, start, end)
    {
      var names := {};
      if param != "" {
        names := SelectByParam(MemoryListing(connection.values, connection.sets, namespace), param);
      }
      var pattern := SearchPattern(namespace, func, hash, start, end);
      if pattern.None? {
        r := Err(EmptySearchPattern);
        return;
      }
      var all;
      if param != "" {
        var chosen := MatchPrefixes(names, pattern.value);
        all := KeysUnder(chosen);
      } else {
        all := connection.Keys(pattern.value);
      }
      var keys := all;
      if start != "" && end != "" {
        keys := FilterDateRange(all, start, end);
      }
      r := Ok(keys);
    }

    /** `clear_memory` (lines 417-493): deletes exactly the keys
        `MemoryTargets` selects, in one `DEL`; with the memory tier off it
        does nothing. */
    method ClearMemory(func: string, param: string, start: string, end: string, hash: string) returns (r: Result<()>)
      requires Valid()
      modifies connection
      ensures Valid()
      ensures connection == null ==> r == Ok(())
      ensures connection != null ==>
        MemoryCleared(old(connection.values), old(connection.sets), func, param, start, end, hash,
                      r, connection.values, connection.sets)
    {
      if donotmemcache {
        r := Ok(());
        return;
      }
      var found := MemoryKeys(func, param, start, end, hash);
      if found.Err? {
        r := Err(found.fault);
        return;
      }
      var keys := found.value;
      if keys != {} {
        connection.Delete(keys);
      } else {
        assert connection.values - keys == connection.values && connection.sets - keys == connection.sets;
      }
      r := Ok(());
    }

    /** One directory of `clear_files` (lines 529-571): the filters, the
        removal of its selected pickles and, when that leaves it empty,
        `rmtree` and the removal of its definition file. */
    method ClearDir(defDir: Path, d: Path, func: string, hash: string, start: string, end: string) returns (r: Result<nat>)
      requires Valid() && |d.parts| > 0
      modifies disk
      ensures Valid()
      ensures r.Ok? <==> DirSucceeds(old(disk.files), old(disk.dirs), defDir, d, func, hash, start, end)
      ensures r.Ok? && DirVerdict(old(disk.files), defDir, d, func, hash).Skip? ==>
        r.value == 0 && disk.files == old(disk.files) && disk.dirs == old(disk.dirs)
      ensures r.Ok? && DirVerdict(old(disk.files), defDir, d, func, hash).Clear? ==>
        var dated := DatedFiles(old(disk.files), d, start, end);
        var emptied := Emptied(old(disk.files), old(disk.dirs), d, start, end);
        && r.value == |dated|
        && disk.files == old(disk.files) - dated - (if emptied then {DefinitionFile(defDir, d)} else {})
        && disk.dirs == old(disk.dirs) - (if emptied then {d} else {})
      ensures r.Err? ==> disk.dirs <= old(disk.dirs) && forall p | p in disk.files :: p in old(disk.files) && disk.files[p] == old(disk.files)[p]
    {
      match DirVerdict(disk.files, defDir, d, func, hash)
      case Fail(f) =>
        r := Err(f);
      case Skip =>
        r := Ok(0);
      case Clear =>
        ghost var files0, dirs0 := disk.files, disk.dirs;
        ghost var dated := DatedFiles(files0, d, start, end);
        var n := RemoveDatedFiles(disk, d, start, end);
        if d !in disk.dirs {
          r := Err(NotADirectory);  // `os.listdir` of a missing directory
          return;
        }
        var defFile := DefinitionFile(defDir, d);
        EntriesWithout(files0, dirs0, d, dated);
        DefinitionFileNotPickle(defDir, d, start, end, files0);
        if Entries(disk.files, disk.dirs, d) == {} {
          disk.RemoveEmptyDir(d);
          var ok := disk.Remove(defFile);
          if !ok {
            r := Err(Unreadable);  // `os.remove` of a missing definition file
            return;
          }
        } else {
          assert !Emptied(files0, dirs0, d, start, end);
        }
        r := Ok(n);
    }

    /** One turn of the directory loop of `clear_files`, stated against
        the tree the loop started from: clearing `d` after the directories
        `done` extends what they removed by what `d` removes. */
    method ClearStep(ghost files0: map<Path, FileEntry>, ghost dirs0: set<Path>, cacheDir: Path, defDir: Path,
                     ghost targets: set<Path>, ghost done: set<Path>, d: Path,
                     func: string, hash: string, start: string, end: string) returns (r: Result<nat>)
      requires Valid()
      requires ValueDirs(cacheDir, defDir, targets) && done <= targets && d in targets && d !in done
      requires disk.files == files0 - Swept(files0, dirs0, defDir, done, func, hash, start, end)
      requires disk.dirs == dirs0 - Pruned(files0, dirs0, defDir, done, func, hash, start, end)
      modifies disk
      ensures Valid()
      ensures r.Ok? <==> DirSucceeds(files0, dirs0, defDir, d, func, hash, start, end)
      ensures r.Ok? ==>
        && disk.files == files0 - Swept(files0, dirs0, defDir, done + {d}, func, hash, start, end)
        && disk.dirs == dirs0 - Pruned(files0, dirs0, defDir, done + {d}, func, hash, start, end)
        && |RemovedFiles(files0, defDir, done + {d}, func, hash, start, end)|
           == |RemovedFiles(files0, defDir, done, func, hash, start, end)| + r.value
      ensures r.Err? ==> disk.dirs <= old(disk.dirs) && forall p | p in disk.files :: p in old(disk.files) && disk.files[p] == old(disk.files)[p]
    {
      ghost var sweep := Swept(files0, dirs0, defDir, done, func, hash, start, end);
      ghost var pruned := Pruned(files0, dirs0, defDir, done, func, hash, start, end);
      SweptAvoids(files0, dirs0, cacheDir, defDir, targets, done, d, func, hash, start, end);
      LocalFacts(files0, dirs0, sweep, pruned, defDir, d, func, hash, start, end);
      r := ClearDir(defDir, d, func, hash, start, end);
      if r.Ok? {
        AfterClearDir(files0, dirs0, defDir, done, d, func, hash, start, end, disk.files, disk.dirs, r.value);
      }
    }

    /** The directory loop of `clear_files` (lines 529-571) over the
        directories `targets`. */
    method ClearDirs(cacheDir: Path, defDir: Path, targets: set<Path>,
                     func: string, hash: string, s: string, e: string) returns (r: Result<nat>)
      requires Valid() && ValueDirs(cacheDir, defDir, targets)
      modifies disk
      ensures Valid()
      ensures r.Ok? <==> forall d | d in targets :: DirSucceeds(old(disk.files), old(disk.dirs), defDir, d, func, hash, s, e)
      ensures r.Ok? ==>
        && r.value == |RemovedFiles(old(disk.files), defDir, targets, func, hash, s, e)|
        && disk.files == old(disk.files) - Swept(old(disk.files), old(disk.dirs), defDir, targets, func, hash, s, e)
        && disk.dirs == old(disk.dirs) - Pruned(old(disk.files), old(disk.dirs), defDir, targets, func, hash, s, e)
      ensures r.Err? ==>
        disk.dirs <= old(disk.dirs) && forall p | p in disk.files :: p in old(disk.files) && disk.files[p] == old(disk.files)[p]
    {
      ghost var files0, dirs0 := disk.files, disk.dirs;
      var rest := targets;
      ghost var done: set<Path> := {};
      var count := 0;
      SweptNone(files0, dirs0, defDir, func, hash, s, e);
      while rest != {}
        invariant rest <= targets && done <= targets
        invariant forall x | x in targets :: x in done || x in rest
        invariant forall x | x in done :: x !in rest
        invariant Valid()
        invariant disk.files == files0 - Swept(files0, dirs0, defDir, done, func, hash, s, e)
        invariant disk.dirs == dirs0 - Pruned(files0, dirs0, defDir, done, func, hash, s, e)
        invariant count == |RemovedFiles(files0, defDir, done, func, hash, s, e)|
        invariant forall x | x in done :: DirSucceeds(files0, dirs0, defDir, x, func, hash, s, e)
        decreases |rest|
      {
        var d :| d in rest;
        var step := ClearStep(files0, dirs0, cacheDir, defDir, targets, done, d, func, hash, s, e);
        if step.Err? {
          r := Err(step.fault);
          return;
        }
        count := count + step.value;
        rest := rest - {d};
        done := done + {d};
      }
      assert done == targets;
      r := Ok(count);
    }

    /** `clear_files` (lines 495-575). With the file tier off nothing
        happens. Otherwise, over the directories `FileTargets` finds, it
        succeeds exactly when every one passes `DirSucceeds`, and then it
        has removed the selected pickles of the cleared directories, pruned
        those left empty with their definition files, and counted the
        pickles removed. */
    method ClearFiles(func: string, param: string, start: string, end: string, hash: string) returns (r: Result<nat>)
      requires Valid()
      modifies disk
      ensures Valid()
      ensures donotfilecache ==> r == Ok(0) && disk.files == old(disk.files) && disk.dirs == old(disk.dirs)
      ensures !donotfilecache ==>
        FilesCleared(old(disk.files), old(disk.dirs), func, param, start, end, hash, r, disk.files, disk.dirs)
    {
      if donotfilecache {
        r := Ok(0);
        return;
      }
      ghost var files0, dirs0 := disk.files, disk.dirs;
      var cacheDir := Child(fileRoot.value, namespace);
      var defDir := DefinitionDir(fileRoot.value, namespace);
      var targets;
      if param != "" {
        var listing := FileListing(disk.files, disk.dirs, defDir);
        if listing.Err? {
          r := Err(listing.fault);
          return;
        }
        var names := SelectByParam(listing.value, param);
        targets := ParamDirs(cacheDir, names);
      } else {
        targets := GlobValueDirs(disk.files, disk.dirs, cacheDir);
      }
      assert FileTargets(files0, dirs0, cacheDir, param) == Ok(targets);
      var (s, e) := FileBounds(start, end);
      r := ClearDirs(cacheDir, defDir, targets, func, hash, s, e);
      RemoveInTurn(files0, RemovedFiles(files0, defDir, targets, func, hash, s, e),
                   PrunedDefinitions(defDir, Pruned(files0, dirs0, defDir, targets, func, hash, s, e)));
    }

    /** `clear` (lines 578-614): the bounds formatted, then `clear_memory`
        when `memory` and `clear_files` when `file`; an exception in the
        first stops the second. */
    method Clear(func: string, param: string, start: DateArg, end: DateArg, hash: string,
                 memory: bool, file: bool) returns (r: Result<()>)
      requires Valid()
      modifies connection, disk
      ensures Valid()
      ensures ClearBounds(rt, start, end).Err? ==>
        && r == Err(ClearBounds(rt, start, end).fault)
        && (connection != null ==> connection.values == old(connection.values) && connection.sets == old(connection.sets))
        && disk.files == old(disk.files) && disk.dirs == old(disk.dirs)
      ensures ClearBounds(rt, start, end).Ok? ==>
        var (s, e) := ClearBounds(rt, start, end).value;
        var memoryFails := memory && connection != null && SearchPattern(namespace, func, hash, s, e).None?;
        && (connection != null && !memory ==>
              connection.values == old(connection.values) && connection.sets == old(connection.sets))
        && (connection != null && memory ==>
              MemoryCleared(old(connection.values), old(connection.sets), func, param, s, e, hash,
                            if memoryFails then Err(EmptySearchPattern) else Ok(()), connection.values, connection.sets))
        && (memoryFails ==> r == Err(EmptySearchPattern))
        && (!file || donotfilecache || memoryFails ==> disk.files == old(disk.files) && disk.dirs == old(disk.dirs))
        && (!file || donotfilecache ==> !memoryFails ==> r == Ok(()))
        && (file && !donotfilecache && !memoryFails ==>
              exists fr: Result<nat> ::
                && FilesCleared(old(disk.files), old(disk.dirs), func, param, s, e, hash, fr, disk.files, disk.dirs)
                && (r.Ok? <==> fr.Ok?) && (fr.Err? ==> r == Err(fr.fault)))
    {
      var bounds := ClearBounds(rt, start, end);
      if bounds.Err? {
        r := Err(bounds.fault);
        return;
      }
      var (s, e) := bounds.value;
      if memory {
        var m := ClearMemory(func, param, s, e, hash);
        if m.Err? {
          r := m;
          return;
        }
      }
      if file {
        var f := ClearFiles(func, param, s, e, hash);
        if f.Err? {
          r := Err(f.fault);
          return;
        }
      }
      r := Ok(());
    }

    /** The outcome of the miss branch of `cache_it` (lines 654-666) from
        `t0` to `t1`. A `DoNotCache` result changes nothing. A returned
        value is stored as `store_key` stores it; on success it is then
        written to the key's file unless file caching is off, and it is
        returned exactly when neither step raised. */
    ghost predicate FillOutcome(t0: Tiers, key: string, comp: Computation, exp: Option<int>, r: Result<PyObj>,
                                evicted: set<string>, t1: Tiers)
      requires !donotfilecache ==> fileRoot.Some?
    {
      match comp
      case RaisesDoNotCache(v) => r == Ok(v) && t1 == t0
      case Returns(v) =>
        && StoreOutcome(t0.values, t0.sets, key, v, exp, evicted, limit >= 1, t1.values, t1.sets)
        && (limit < 1 ==> r == Err(EvictionOnEmptySet) && t1.files == t0.files && t1.dirs == t0.dirs)
        && (limit >= 1 && donotfilecache ==> r == Ok(v) && t1.files == t0.files && t1.dirs == t0.dirs)
        && (limit >= 1 && !donotfilecache ==>
              var loc := KeyLocation(fileRoot.value, t0.files, t0.dirs, key);
              && (loc.Err? ==> r == Err(loc.fault) && t1.files == t0.files && t1.dirs == t0.dirs)
              && (loc.Ok? ==> r == Ok(v) && t1.dirs == loc.value.1
                              && t1.files == if loc.value.0 in t0.dirs then t0.files
                                             else t0.files[loc.value.0 := Seal(rt, v)]))
    }

    /** After a successful fill the value is in both tiers: the primary tier
        holds its pickle with the chosen expiry and the key is in its set,
        and the key's file (unless that path is a directory) holds it
        sealed. */
    lemma FillStores(t0: Tiers, key: string, v: PyObj, exp: Option<int>, r: Result<PyObj>, evicted: set<string>, t1: Tiers)
      requires !donotfilecache ==> fileRoot.Some?
      requires FillOutcome(t0, key, Returns(v), exp, r, evicted, t1) && r.Ok?
      ensures r.value == v && limit >= 1
      ensures key in t1.values && t1.values[key] == Entry(Pickled(v), EffectiveExpiry(exp, expire))
      ensures key in Members(t1.sets, SetName(key))
      ensures !donotfilecache ==>
        |Split(key, ':')| == 4
        && (KeyFile(fileRoot.value, key) !in t1.dirs ==>
              KeyFile(fileRoot.value, key) in t1.files && t1.files[KeyFile(fileRoot.value, key)] == Seal(rt, v))
    {
    }

    /** The miss branch of `cache_it` (lines 648-666): the function's own
        result is stored in the primary tier and, unless file caching is
        off, written to the key's file; a `DoNotCache` result is returned
        unstored. */
    method Fill(key: string, comp: Computation, exp: Option<int>) returns (r: Result<PyObj>, ghost evicted: set<string>)
      requires Valid() && connection != null
      modifies connection, disk
      ensures Valid()
      ensures FillOutcome(old(Now()), key, comp, exp, r, evicted, Now())
    {
      evicted := {};
      match comp
      case RaisesDoNotCache(v) =>
        r := Ok(v);
      case Returns(v) =>
        var ok;
        ok, evicted := StoreKey(key, v, exp);
        if !ok {
          r := Err(EvictionOnEmptySet);
          return;
        }
        assert key in connection.values && key in Members(connection.sets, SetName(key));
        if !donotfilecache {
          var w := StoreKeyFile(key, v);
          if w.Err? {
            r := Err(w.fault);
            return;
          }
        }
        r := Ok(v);
    }

    /** The decorated call of `cache_it` (lines 627-666), for the bound
        arguments `args` and the outcome `comp` the wrapped function has
        when it is run. Without a connection the function is simply run.
        Otherwise the key is derived and recorded (`hashed`, leaving the
        tiers as `mid`) and looked up (`lookup`, leaving them as `got`): a
        hit is returned as found, a failed read is reported as the unknown
        cache error, and a miss or an expired key is filled. */
    method CacheIt(funcname: string, args: seq<Arg>, comp: Computation, exp: Option<int>)
      returns (r: Result<PyObj>, ghost hashed: Result<string>, ghost mid: Tiers, ghost lookup: GetResult,
               ghost got: Tiers, ghost promoted: set<string>, ghost evicted: set<string>)
      requires Valid()
      modifies connection, disk
      ensures Valid()
      ensures connection == null ==>
        && r == (if comp.Returns? then Ok(comp.value) else Err(DoNotCacheEscaped))
        && disk.files == old(disk.files) && disk.dirs == old(disk.dirs)
      ensures connection != null ==>
        && HashOutcome(old(Now()), funcname, args, hashed, mid)
        && (hashed.Err? ==> r == Err(NotADirectory) && Now() == mid)
        && (hashed.Ok? ==> GetOutcome(mid, hashed.value, lookup, promoted, got))
        && (hashed.Ok? && lookup.Found? ==> r == Ok(lookup.value) && Now() == got)
        && (hashed.Ok? && lookup.Failed? ==> r == Err(UnknownCacheError) && Now() == got)
        && (hashed.Ok? && (lookup.CacheMiss? || lookup.ExpiredKey?) ==>
              FillOutcome(got, hashed.value, comp, exp, r, evicted, Now()))
    {
      hashed, lookup, promoted, evicted := Err(NotADirectory), CacheMiss, {}, {};
      if connection == null {
        mid, got := Tiers(map[], map[], disk.files, disk.dirs), Tiers(map[], map[], disk.files, disk.dirs);
        r := if comp.Returns? then Ok(comp.value) else Err(DoNotCacheEscaped);
        return;
      }
      var h := GetHash(funcname, args);
      hashed, mid, got := h, Now(), Now();
      if h.Err? {
        r := Err(h.fault);
        return;
      }
      var key := h.value;
      var found;
      found, promoted := Get(key);
      lookup, got := found, Now();
      match found
      case Found(v) =>
        r := Ok(v);
      case Failed(_) =>
        r := Err(UnknownCacheError);
      case _ =>
        r, evicted := Fill(key, comp, exp);
    }
  }
}
