/** The file tier: a directory tree holding one pickle per cached value,
    `<root>/<namespace>/P<hash>/<token>.pkl`, each sealed with the MD5 of
    `str(value)`, and one text file per call shape,
    `<root>/<namespace>/funcDefDir/P<hash>.txt`, holding its definition
    record. Paths are sequences of components; `os.path.join` appends
    components and, given an absolute path, starts over from it. */
module FileTier {
  import opened Python
  import opened Strings
  import opened KeyCodec

  datatype Path = Path(absolute: bool, parts: seq<string>)

  /** `os.path.join(p, name)` for a single component. */
  function Child(p: Path, name: string): (r: Path)
    ensures |r.parts| == |p.parts| + 1 && r.absolute == p.absolute
  {
    Path(p.absolute, p.parts + [name])
  }

  function Parent(p: Path): Path
    requires |p.parts| > 0
  {
    Path(p.absolute, p.parts[..|p.parts| - 1])
  }

  /** `os.path.split(p)[1]`. */
  function Name(p: Path): string
    requires |p.parts| > 0
  {
    p.parts[|p.parts| - 1]
  }

  lemma ChildParts(p: Path, name: string)
    ensures Parent(Child(p, name)) == p && Name(Child(p, name)) == name
  {
    assert (p.parts + [name])[..|p.parts|] == p.parts;
  }

  /** `os.path.join(a, b)` for a whole path `b`. */
  function JoinPath(a: Path, b: Path): Path {
    if b.absolute then b else Path(a.absolute, a.parts + b.parts)
  }

  /** A relative path joined under a non-empty directory names a different
      file. */
  lemma JoinRelativeMoves(a: Path, b: Path)
    requires !b.absolute && |a.parts| > 0
    ensures JoinPath(a, b) != b
  {
    assert |JoinPath(a, b).parts| > |b.parts|;
  }

  /** What a file holds: the pickled dict `{'data': x, 'check_sum': c}`
      written by `atomicwrite`, or plain text. */
  datatype FileEntry = Sealed(data: PyObj, checksum: string) | Plain(text: string)

  /** `hashlib.md5(str(x).encode()).hexdigest()`. */
  function Checksum(rt: Runtime, x: PyObj): string {
    rt.md5(rt.str(x))
  }

  /** The entry `atomicwrite` stores for `x`. */
  function Seal(rt: Runtime, x: PyObj): (e: FileEntry)
    ensures e.Sealed? && e.data == x
  {
    Sealed(x, Checksum(rt, x))
  }

  /** What `atomicread` makes of an entry. */
  datatype Opened = Intact(value: PyObj) | Corrupt | NotPickled

  function Unseal(rt: Runtime, e: FileEntry): (r: Opened)
    ensures r.Intact? ==> e.Sealed? && r.value == e.data
    ensures r.Corrupt? <==> e.Sealed? && e.checksum != Checksum(rt, e.data)
    ensures r.NotPickled? <==> e.Plain?
  {
    match e
    case Sealed(x, c) => if c == Checksum(rt, x) then Intact(x) else Corrupt
    case Plain(_) => NotPickled
  }

  /** What is written is what is read back. */
  lemma UnsealSeal(rt: Runtime, x: PyObj)
    ensures Unseal(rt, Seal(rt, x)) == Intact(x)
  {
  }

  predicate ParentIsDir(dirs: set<Path>, p: Path)
    requires |p.parts| > 0
  {
    |p.parts| == 1 || Parent(p) in dirs
  }

  /** A directory tree: every file and directory hangs from an existing
      directory (a root, `/` or `.`, always exists), and no path is both a
      file and a directory. */
  predicate WellFormed(files: map<Path, FileEntry>, dirs: set<Path>) {
    && (forall p | p in files :: |p.parts| > 0 && ParentIsDir(dirs, p))
    && (forall p | p in dirs :: |p.parts| > 0 && ParentIsDir(dirs, p))
    && (forall p | p in files :: p !in dirs)
  }

  /** The entries `os.listdir(d)` returns, as paths. */
  function Entries(files: map<Path, FileEntry>, dirs: set<Path>, d: Path): (r: set<Path>)
    ensures forall p :: p in r <==> (p in files || p in dirs) && |p.parts| > 0 && Parent(p) == d
  {
    set p | p in files.Keys + dirs && |p.parts| > 0 && Parent(p) == d
  }

  /** `d` and every directory above it, up to the root. */
  function Ancestors(d: Path): set<Path> {
    set k | 1 <= k <= |d.parts| :: Path(d.absolute, d.parts[..k])
  }

  lemma AncestorsNoLonger(d: Path)
    ensures forall a | a in Ancestors(d) :: |a.parts| <= |d.parts|
  {
  }

  lemma AncestorsClosed(d: Path, a: Path)
    requires a in Ancestors(d) && |a.parts| > 1
    ensures Parent(a) in Ancestors(d)
  {
    var k :| 1 <= k <= |d.parts| && a == Path(d.absolute, d.parts[..k]);
    assert Parent(a) == Path(d.absolute, d.parts[..k - 1]);
  }

  /** The directories after `makeDirIfNotExist(d)`, or `None` when
      `os.makedirs` fails because `d` or a directory above it is a file. */
  function MadeDirs(files: map<Path, FileEntry>, dirs: set<Path>, d: Path): (r: Option<set<Path>>)
    ensures r.Some? ==> dirs <= r.value && (|d.parts| == 0 || d in r.value)
    ensures r.Some? ==> forall p | p in r.value - dirs :: p in Ancestors(d)
  {
    if |d.parts| == 0 || d in dirs then Some(dirs)
    else if exists a | a in Ancestors(d) :: a in files then None
    else
      assert Path(d.absolute, d.parts[..|d.parts|]) == d;
      Some(dirs + Ancestors(d))
  }

  /** `makedirs` succeeds exactly when `d` is a directory already or no
      directory it needs is a file; it keeps the tree well formed. */
  lemma MadeDirsWellFormed(files: map<Path, FileEntry>, dirs: set<Path>, d: Path)
    requires WellFormed(files, dirs)
    ensures MadeDirs(files, dirs, d).Some? <==> |d.parts| == 0 || d in dirs || forall a | a in Ancestors(d) :: a !in files
    ensures MadeDirs(files, dirs, d).Some? ==> WellFormed(files, MadeDirs(files, dirs, d).value)
  {
    if |d.parts| != 0 && d !in dirs && forall a | a in Ancestors(d) :: a !in files {
      forall a | a in Ancestors(d) ensures |a.parts| > 0 && ParentIsDir(dirs + Ancestors(d), a) {
        if |a.parts| > 1 {
          AncestorsClosed(d, a);
        }
      }
    }
  }

  class Disk {
    var files: map<Path, FileEntry>
    var dirs: set<Path>

    ghost predicate Valid()
      reads this
    {
      WellFormed(files, dirs)
    }

    constructor ()
      ensures Valid() && files == map[] && dirs == {}
    {
      files := map[];
      dirs := {};
    }

    /** `os.path.isdir(p)`. */
    function IsDir(p: Path): bool
      reads this
    {
      |p.parts| == 0 || p in dirs
    }

    /** `os.path.exists(p)`. */
    function Exists(p: Path): bool
      reads this
    {
      IsDir(p) || p in files
    }

    /** `makeDirIfNotExist(d)`. */
    method MakeDirs(d: Path) returns (ok: bool)
      requires Valid()
      modifies this
      ensures Valid() && files == old(files)
      ensures ok <==> MadeDirs(old(files), old(dirs), d).Some?
      ensures dirs == if ok then MadeDirs(old(files), old(dirs), d).value else old(dirs)
    {
      MadeDirsWellFormed(files, dirs, d);
      var made := MadeDirs(files, dirs, d);
      if made.Some? {
        dirs := made.value;
        ok := true;
      } else {
        ok := false;
      }
    }

    /** Writes a whole file, as `open(p, 'w')` and `shutil.move` onto `p`
        do: it succeeds when the containing directory exists and `p` is
        not a directory, and then replaces whatever was at `p`. */
    method Put(p: Path, e: FileEntry) returns (ok: bool)
      requires Valid() && |p.parts| > 0
      modifies this
      ensures Valid() && dirs == old(dirs)
      ensures ok <==> old(IsDir(Parent(p))) && p !in old(dirs)
      ensures files == if ok then old(files)[p := e] else old(files)
    {
      ok := IsDir(Parent(p)) && p !in dirs;
      if ok {
        files := files[p := e];
      }
    }

    /** `os.remove(p)`: fails unless `p` is a file. */
    method Remove(p: Path) returns (ok: bool)
      requires Valid()
      modifies this
      ensures Valid() && dirs == old(dirs)
      ensures ok <==> p in old(files)
      ensures files == old(files) - {p}
    {
      ok := p in files;
      files := files - {p};
    }

    /** `shutil.rmtree(d)` of a directory that `os.listdir` found empty. */
    method RemoveEmptyDir(d: Path)
      requires Valid() && d in dirs && Entries(files, dirs, d) == {}
      modifies this
      ensures Valid() && files == old(files)
      ensures dirs == old(dirs) - {d}
    {
      dirs := dirs - {d};
    }
  }

  /** The directory and file name `key_to_file` gives a key: the key must
      split on `':'` into exactly four fields `ns:func:hash:token`, which
      give `<root>/<ns>/P<hash>` and `<token>.pkl`. */
  function KeyPath(root: Path, key: string): (r: Option<(Path, string)>)
    ensures r.Some? <==> |Split(key, ':')| == 4
  {
    var f := Split(key, ':');
    if |f| != 4 then None
    else Some((Child(Child(root, f[0]), "P" + f[2]), f[3] + ".pkl"))
  }

  /** `<root>/<ns>/funcDefDir`, where `get_hash` keeps definition
      records. */
  function DefinitionDir(root: Path, ns: string): (r: Path)
    ensures |r.parts| == |root.parts| + 2
  {
    Child(Child(root, ns), "funcDefDir")
  }

  /** `<root>/<ns>/funcDefDir/P<hash>.txt`. */
  function DefinitionRecordFile(root: Path, ns: string, hash: string): (r: Path)
    ensures |r.parts| > 0 && Parent(r) == DefinitionDir(root, ns)
  {
    ChildParts(DefinitionDir(root, ns), "P" + hash + ".txt");
    Child(DefinitionDir(root, ns), "P" + hash + ".txt")
  }

  /** `key_to_file` as a whole: the key's pickle path and the directories
      after its directory is made, or the fault it raises. */
  function KeyLocation(root: Path, files: map<Path, FileEntry>, dirs: set<Path>, key: string): (r: Result<(Path, set<Path>)>)
    ensures r.Err? ==> r.fault == MalformedKey || r.fault == NotADirectory
    ensures r.Err? && r.fault == MalformedKey <==> |Split(key, ':')| != 4
    ensures r.Ok? ==> |Split(key, ':')| == 4 && r.value.0 == KeyFile(root, key)
    ensures r.Ok? ==> KeyFile(root, key) !in Ancestors(KeyPath(root, key).value.0)
    ensures r.Ok? ==> (r.value.0 in r.value.1 <==> r.value.0 in dirs)
  {
    match KeyPath(root, key)
    case None => Err(MalformedKey)
    case Some((dir, name)) =>
      AncestorsNoLonger(dir);
      assert Child(dir, name) !in Ancestors(dir);
      match MadeDirs(files, dirs, dir)
      case None => Err(NotADirectory)
      case Some(made) => Ok((Child(dir, name), made))
  }

  /** `full_file_name`, the first result of `key_to_file`. */
  function KeyFile(root: Path, key: string): Path
    requires |Split(key, ':')| == 4
  {
    var (dir, name) := KeyPath(root, key).value;
    Child(dir, name)
  }

  /** A key made by `get_hash` goes to `<root>/<ns>/P<hash>/<token>.pkl`
      when no field holds a `':'`. */
  lemma KeyPathOfDerivedKey(rt: Runtime, root: Path, namespace: string, funcname: string, args: seq<Arg>)
    requires IsHexDigest(Derive(rt, namespace, funcname, args).hash)
    requires ':' !in namespace && ':' !in funcname
    requires ':' !in Derive(rt, namespace, funcname, args).token
    ensures var d := Derive(rt, namespace, funcname, args);
      KeyPath(root, d.cacheKey) == Some((Child(Child(root, namespace), "P" + d.hash), d.token + ".pkl"))
  {
    DerivedKeyFields(rt, namespace, funcname, args);
  }

  lemma AppendCancel(a: string, b: string, t: string)
    requires a + t == b + t
    ensures a == b
  {
    assert a == (a + t)[..|a|];
    assert b == (b + t)[..|b|];
  }

  /** Two keys share a file only when they agree on the namespace, the
      hash and the token: the function name is not part of the path (it is
      part of the hashed definition). */
  lemma KeyFileFields(root: Path, k1: string, k2: string)
    requires |Split(k1, ':')| == 4 && |Split(k2, ':')| == 4
    requires KeyFile(root, k1) == KeyFile(root, k2)
    ensures var f1, f2 := Split(k1, ':'), Split(k2, ':');
      f1[0] == f2[0] && f1[2] == f2[2] && f1[3] == f2[3]
  {
    var f1, f2 := Split(k1, ':'), Split(k2, ':');
    var d1, d2 := Child(Child(root, f1[0]), "P" + f1[2]), Child(Child(root, f2[0]), "P" + f2[2]);
    ChildParts(d1, f1[3] + ".pkl");
    ChildParts(d2, f2[3] + ".pkl");
    ChildParts(Child(root, f1[0]), "P" + f1[2]);
    ChildParts(Child(root, f2[0]), "P" + f2[2]);
    ChildParts(root, f1[0]);
    ChildParts(root, f2[0]);
    AppendCancel(f1[3], f2[3], ".pkl");
    assert f1[2] == ("P" + f1[2])[1..] && f2[2] == ("P" + f2[2])[1..];
  }

  /** Keys that agree on every field but the function name share a file. */
  lemma KeyFileIgnoresFunction(root: Path, ns: string, f1: string, f2: string, hash: string, token: string)
    requires ':' !in ns && ':' !in f1 && ':' !in f2 && ':' !in hash && ':' !in token
    ensures var k1, k2 := Join([ns, f1, hash, token], ':'), Join([ns, f2, hash, token], ':');
      |Split(k1, ':')| == 4 && |Split(k2, ':')| == 4 && KeyFile(root, k1) == KeyFile(root, k2)
  {
    SplitJoin([ns, f1, hash, token], ':');
    SplitJoin([ns, f2, hash, token], ':');
  }
}
