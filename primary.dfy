/** The primary tier: the Redis server the cache talks to, reduced to the
    commands the cache issues. String values and sets live in one key
    space; a set that loses its last member disappears, as in Redis. A
    value stored with a time-to-live may vanish between two commands; the
    model takes the state as the commands find it. */
module Primary {
  import opened Python
  import opened Patterns

  /** A string value as the cache stores it: a pickled object, or plain
      text (the function-definition records). */
  datatype Blob = Pickled(obj: PyObj) | Str(text: string)

  /** `set` stores without expiry, `setex` with a time-to-live in seconds. */
  datatype Expiry = Persistent | Ttl(seconds: int)

  datatype Entry = Entry(blob: Blob, expiry: Expiry)

  type Sets = map<string, set<string>>

  /** The members of a set; a missing set is empty. */
  function Members(sets: Sets, name: string): set<string> {
    if name in sets then sets[name] else {}
  }

  /** Redis never keeps an empty set. */
  predicate NoEmptySets(sets: Sets) {
    forall n | n in sets :: sets[n] != {}
  }

  /** `SADD name m`. */
  function AddMember(sets: Sets, name: string, m: string): (r: Sets)
    ensures Members(r, name) == Members(sets, name) + {m}
    ensures forall n | n != name :: Members(r, n) == Members(sets, n)
    ensures NoEmptySets(sets) ==> NoEmptySets(r)
  {
    sets[name := Members(sets, name) + {m}]
  }

  /** `SREM name m`, dropping the set once it is empty. */
  function RemoveMember(sets: Sets, name: string, m: string): (r: Sets)
    ensures Members(r, name) == Members(sets, name) - {m}
    ensures forall n | n != name :: Members(r, n) == Members(sets, n)
    ensures NoEmptySets(sets) ==> NoEmptySets(r)
  {
    if Members(sets, name) - {m} == {} then sets - {name}
    else sets[name := Members(sets, name) - {m}]
  }

  /** The sets after the members `gone` were popped from `name` and each
      was then deleted as a key: `name` loses them (all of itself when it
      is among them) and any set named by one of them disappears. */
  function AfterEviction(sets: Sets, name: string, gone: set<string>): (r: Sets)
    ensures Members(r, name) == if name in gone then {} else Members(sets, name) - gone
    ensures forall n | n != name :: Members(r, n) == if n in gone then {} else Members(sets, n)
    ensures NoEmptySets(sets) ==> NoEmptySets(r)
  {
    var base := sets - gone;
    if name in gone || Members(sets, name) - gone == {} then base - {name}
    else base[name := Members(sets, name) - gone]
  }

  /** Without empty sets, the members of every name determine the map. */
  lemma SetsByMembers(a: Sets, b: Sets)
    requires NoEmptySets(a) && NoEmptySets(b)
    requires forall n :: Members(a, n) == Members(b, n)
    ensures a == b
  {
    forall n | n in a ensures n in b && a[n] == b[n] {
      assert Members(a, n) == Members(b, n);
    }
    forall n | n in b ensures n in a {
      assert Members(a, n) == Members(b, n);
    }
  }

  /** `KEYS pattern`: every key, of either kind, that the glob matches. */
  function KeysMatching(values: map<string, Entry>, sets: Sets, pattern: string): (r: set<string>)
    ensures forall k :: k in r <==> (k in values || k in sets) && Glob(pattern, k)
  {
    set k | k in values.Keys + sets.Keys && Glob(pattern, k)
  }

  /** A pattern without `'*'` finds a key exactly when that key exists:
      this is what makes `keys(funcDefKey)` an existence test. */
  lemma KeysOfLiteral(values: map<string, Entry>, sets: Sets, lit: string)
    requires '*' !in lit
    ensures KeysMatching(values, sets, lit) != {} <==> (lit in values || lit in sets)
  {
    if lit in values || lit in sets {
      GlobSelf(lit);
      assert lit in KeysMatching(values, sets, lit);
    }
    forall k | k in KeysMatching(values, sets, lit) ensures k == lit {
      GlobLiteral(lit, k);
    }
  }

  class Redis {
    var values: map<string, Entry>
    var sets: Sets

    ghost predicate Valid()
      reads this
    {
      NoEmptySets(sets)
    }

    constructor ()
      ensures Valid() && values == map[] && sets == map[]
    {
      values := map[];
      sets := map[];
    }

    /** `GET key`. */
    function Get(key: string): (r: Option<Blob>)
      reads this
      ensures r.Some? <==> key in values
      ensures r.Some? ==> r.value == values[key].blob
    {
      if key in values then Some(values[key].blob) else None
    }

    /** `SCARD name`. */
    function SCard(name: string): nat
      reads this
    {
      |Members(sets, name)|
    }

    /** `SISMEMBER name key`. */
    function SIsMember(name: string, key: string): bool
      reads this
    {
      key in Members(sets, name)
    }

    /** `KEYS pattern`. */
    function Keys(pattern: string): set<string>
      reads this
    {
      KeysMatching(values, sets, pattern)
    }

    /** `SET key blob` or `SETEX key seconds blob`. */
    method Set(key: string, blob: Blob, expiry: Expiry)
      requires Valid()
      modifies this
      ensures Valid()
      ensures values == old(values)[key := Entry(blob, expiry)] && sets == old(sets)
    {
      values := values[key := Entry(blob, expiry)];
    }

    /** `SADD name m`. */
    method SAdd(name: string, m: string)
      requires Valid()
      modifies this
      ensures Valid()
      ensures sets == AddMember(old(sets), name, m) && values == old(values)
    {
      sets := AddMember(sets, name, m);
    }

    /** `SREM name m`. */
    method SRem(name: string, m: string)
      requires Valid()
      modifies this
      ensures Valid()
      ensures sets == RemoveMember(old(sets), name, m) && values == old(values)
    {
      sets := RemoveMember(sets, name, m);
    }

    /** `SPOP name`: removes and returns some member, or `None` (nothing
        removed) when the set is empty. Which member is not specified. */
    method SPop(name: string) returns (m: Option<string>)
      requires Valid()
      modifies this
      ensures Valid() && values == old(values)
      ensures m.None? <==> Members(old(sets), name) == {}
      ensures m.None? ==> sets == old(sets)
      ensures m.Some? ==> m.value in Members(old(sets), name) && sets == RemoveMember(old(sets), name, m.value)
    {
      if Members(sets, name) == {} {
        m := None;
      } else {
        var x :| x in Members(sets, name);
        sets := RemoveMember(sets, name, x);
        m := Some(x);
      }
    }

    /** `DEL k1 k2 ...`: removes the keys whatever their kind. */
    method Delete(keys: set<string>)
      requires Valid()
      modifies this
      ensures Valid()
      ensures values == old(values) - keys && sets == old(sets) - keys
    {
      values := values - keys;
      sets := sets - keys;
    }
  }
}
