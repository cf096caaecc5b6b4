/** The pattern languages the cache uses to find keys: the glob patterns
    of the Redis `KEYS` command, the cache's own `re.match` on a glob
    rewritten to a regular expression (`'*'` becomes `'.*'`), and the
    `\d{8}_\d{4}$` date token at the end of a cache key. */
module Patterns {
  import opened Python
  import opened Strings

  /** Redis glob matching, where `'*'` matches any run of characters and
      every other character matches itself. */
  predicate Glob(p: string, s: string)
    decreases |p| + |s|
  {
    if |p| == 0 then |s| == 0
    else if p[0] == '*' then Glob(p[1..], s) || (|s| > 0 && Glob(p, s[1..]))
    else |s| > 0 && s[0] == p[0] && Glob(p[1..], s[1..])
  }

  /** A key used as its own pattern finds itself. */
  lemma {:induction false} GlobSelf(s: string)
    ensures Glob(s, s)
    decreases |s|
  {
    if |s| > 0 {
      GlobSelf(s[1..]);
      if s[0] == '*' {
        assert Glob(s, s[1..]);
      }
    }
  }

  lemma {:induction false} GlobStar(s: string)
    ensures Glob("*", s)
    decreases |s|
  {
    if |s| > 0 {
      GlobStar(s[1..]);
    }
  }

  /** A pattern with no `'*'` matches exactly itself. */
  lemma {:induction false} GlobLiteral(lit: string, s: string)
    requires '*' !in lit
    ensures Glob(lit, s) <==> s == lit
    decreases |lit|
  {
    GlobSelf(lit);
    if |lit| > 0 && |s| > 0 {
      GlobLiteral(lit[1..], s[1..]);
      assert s == [s[0]] + s[1..];
      assert lit == [lit[0]] + lit[1..];
    }
  }

  /** `prefix*` matches exactly the strings that start with `prefix`. */
  lemma {:induction false} GlobPrefixStar(prefix: string, s: string)
    requires '*' !in prefix
    ensures Glob(prefix + "*", s) <==> StartsWith(s, prefix)
    decreases |prefix|
  {
    if |prefix| == 0 {
      assert prefix + "*" == "*";
      GlobStar(s);
    } else {
      var p := prefix + "*";
      assert p[0] == prefix[0] && p[1..] == prefix[1..] + "*";
      if |s| > 0 {
        GlobPrefixStar(prefix[1..], s[1..]);
        assert StartsWith(s, prefix) <==> s[0] == prefix[0] && StartsWith(s[1..], prefix[1..]) by {
          if StartsWith(s, prefix) {
            assert s[1..][..|prefix| - 1] == s[..|prefix|][1..];
          }
          if s[0] == prefix[0] && StartsWith(s[1..], prefix[1..]) {
            assert s[..|prefix|] == [s[0]] + s[1..][..|prefix| - 1];
            assert prefix == [prefix[0]] + prefix[1..];
          }
        }
      }
    }
  }

  /** A pattern that ends in a literal only matches strings with that
      ending. */
  lemma {:induction false} GlobLiteralTail(p: string, lit: string, s: string)
    requires '*' !in lit
    requires Glob(p + lit, s)
    ensures EndsWith(s, lit)
    decreases |p| + |s|
  {
    var q := p + lit;
    if |p| == 0 {
      assert q == lit;
      GlobLiteral(lit, s);
    } else if p[0] == '*' {
      assert q[1..] == p[1..] + lit;
      if Glob(q[1..], s) {
        GlobLiteralTail(p[1..], lit, s);
      } else {
        GlobLiteralTail(p, lit, s[1..]);
        assert s[1..][|s[1..]| - |lit|..] == s[|s| - |lit|..];
      }
    } else {
      assert q[1..] == p[1..] + lit;
      GlobLiteralTail(p[1..], lit, s[1..]);
      assert s[1..][|s[1..]| - |lit|..] == s[|s| - |lit|..];
    }
  }

  /** A pattern that starts with a literal only matches strings with that
      beginning. */
  lemma {:induction false} GlobLiteralPrefix(lit: string, p: string, s: string)
    requires '*' !in lit
    requires Glob(lit + p, s)
    ensures StartsWith(s, lit)
    decreases |lit|
  {
    if |lit| > 0 {
      var q := lit + p;
      assert q[0] == lit[0] && q[1..] == lit[1..] + p;
      GlobLiteralPrefix(lit[1..], p, s[1..]);
      assert s[..|lit|] == [s[0]] + s[1..][..|lit| - 1];
      assert lit == [lit[0]] + lit[1..];
    }
  }

  /** `re.match(p.replace('*', '.*'), s)`: the rewritten pattern matches
      some prefix of `s`. */
  predicate RegexPrefix(p: string, s: string) {
    exists k | 0 <= k <= |s| :: Glob(p, s[..k])
  }

  predicate IsDigit(c: char) {
    '0' <= c <= '9'
  }

  /** The shape `\d{8}_\d{4}` of a partition token made by
      `strftime('%Y%m%d_%H%M')`. */
  predicate IsDateToken(t: string) {
    && |t| == 13
    && (forall i | 0 <= i < 8 :: IsDigit(t[i]))
    && t[8] == '_'
    && (forall i | 9 <= i < 13 :: IsDigit(t[i]))
  }

  /** `re.findall(r'\d{8}_\d{4}$', k)` has exactly one element, and this is
      it. */
  function DateSuffix(k: string): (r: Option<string>)
    ensures r.Some? ==> IsDateToken(r.value) && EndsWith(k, r.value)
    ensures r.None? ==> forall t | EndsWith(k, t) :: !IsDateToken(t)
  {
    if |k| >= 13 && IsDateToken(k[|k| - 13..]) then Some(k[|k| - 13..]) else None
  }
}
