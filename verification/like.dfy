/** The phone filter of the account list: escapeLike (internal/auth/postgres/repository.go) under SQL LIKE. */
module Like {

  const ESCAPE := '\\'
  const ANY := '%'
  const ONE := '_'

  /** `s` LIKE `p` ESCAPE '\', as section 8.5 of ISO/IEC 9075-2 defines it; a lone trailing escape matches nothing. */
  predicate Matches(s: string, p: string)
    decreases |p|, |s|
  {
    if p == "" then s == ""
    else if p[0] == ESCAPE then |p| > 1 && s != "" && s[0] == p[1] && Matches(s[1..], p[2..])
    else if p[0] == ANY then Matches(s, p[1..]) || (s != "" && Matches(s[1..], p))
    else s != "" && (p[0] == ONE || s[0] == p[0]) && Matches(s[1..], p[1..])
  }

  /** The pattern ends inside an escape sequence, which the database reports as an error. */
  predicate Malformed(p: string) {
    if p == "" then false
    else if p[0] == ESCAPE then |p| == 1 || Malformed(p[2..])
    else Malformed(p[1..])
  }

  predicate Contains(s: string, f: string) {
    exists k | 0 <= k <= |s| :: f <= s[k..]
  }

  function EscapeChar(c: char): string {
    if c == ESCAPE || c == ANY || c == ONE then [ESCAPE, c] else [c]
  }

  /** One pass over the filter, as a replacer of single characters does it. */
  function EscapeLike(f: string): string {
    if f == "" then "" else EscapeChar(f[0]) + EscapeLike(f[1..])
  }

  /** Every `c` in `s` replaced by `with`. */
  function ReplaceAll(s: string, c: char, with: string): string {
    if s == "" then "" else (if s[0] == c then with else [s[0]]) + ReplaceAll(s[1..], c, with)
  }

  function ListPattern(f: string): string {
    [ANY] + EscapeLike(f) + [ANY]
  }

  lemma LiteralChar(s: string, c: char, q: string)
    ensures Matches(s, EscapeChar(c) + q) <==> s != "" && s[0] == c && Matches(s[1..], q)
  {
    var p := EscapeChar(c) + q;
    assert p[|EscapeChar(c)|..] == q && p[0] == EscapeChar(c)[0];
  }

  /** An escaped filter at the head of a pattern consumes exactly itself. */
  lemma {:induction false} LiteralPrefix(s: string, f: string, rest: string)
    ensures Matches(s, EscapeLike(f) + rest) <==> f <= s && Matches(s[|f|..], rest)
    decreases |f|
  {
    if f == "" {
      assert EscapeLike(f) + rest == rest && s[0..] == s;
    } else {
      var q := EscapeLike(f[1..]) + rest;
      assert EscapeLike(f) + rest == EscapeChar(f[0]) + q;
      LiteralChar(s, f[0], q);
      if s != "" && s[0] == f[0] {
        LiteralPrefix(s[1..], f[1..], rest);
        assert f[1..] <= s[1..] <==> f <= s by {
          assert s == [s[0]] + s[1..] && f == [f[0]] + f[1..];
        }
        assert f <= s ==> s[1..][|f[1..]|..] == s[|f|..];
      }
    }
  }

  /** A leading '%' tries every suffix. */
  lemma {:induction false} FloatingPrefix(s: string, q: string)
    ensures Matches(s, [ANY] + q) <==> exists k | 0 <= k <= |s| :: Matches(s[k..], q)
    decreases |s|
  {
    var p := [ANY] + q;
    assert p[1..] == q && s[0..] == s;
    if s != "" {
      FloatingPrefix(s[1..], q);
      forall k | 0 <= k <= |s[1..]|
        ensures s[1..][k..] == s[k + 1..]
      {
      }
      if k :| 0 < k <= |s| && Matches(s[k..], q) {
        assert s[1..][k - 1..] == s[k..];
      }
    }
  }

  /** The list filter finds exactly the phones that contain it, whatever wildcards it is made of. */
  lemma FilterIsSubstringSearch(s: string, f: string)
    ensures Matches(s, ListPattern(f)) <==> Contains(s, f)
  {
    var q := EscapeLike(f) + [ANY];
    assert ListPattern(f) == [ANY] + q;
    FloatingPrefix(s, q);
    forall k | 0 <= k <= |s|
      ensures Matches(s[k..], q) <==> f <= s[k..]
    {
      LiteralPrefix(s[k..], f, [ANY]);
      if f <= s[k..] {
        AnyMatchesAll(s[k..][|f|..]);
      }
    }
  }

  lemma {:induction false} AnyMatchesAll(s: string)
    ensures Matches(s, [ANY])
  {
    if s != "" {
      AnyMatchesAll(s[1..]);
    }
  }

  lemma EscapeCharWellFormed(c: char, q: string)
    ensures Malformed(EscapeChar(c) + q) == Malformed(q)
  {
    var p := EscapeChar(c) + q;
    assert p[|EscapeChar(c)|..] == q && p[0] == EscapeChar(c)[0];
  }

  lemma {:induction false} EscapedTailWellFormed(f: string)
    ensures !Malformed(EscapeLike(f) + [ANY])
  {
    if f == "" {
      assert EscapeLike(f) + [ANY] == [ANY];
    } else {
      var q := EscapeLike(f[1..]) + [ANY];
      assert EscapeLike(f) + [ANY] == EscapeChar(f[0]) + q;
      EscapeCharWellFormed(f[0], q);
      EscapedTailWellFormed(f[1..]);
    }
  }

  /** No filter makes the database reject the pattern. */
  lemma EscapedNeverMalformed(f: string)
    ensures !Malformed(ListPattern(f))
  {
    EscapedTailWellFormed(f);
    assert ListPattern(f)[1..] == EscapeLike(f) + [ANY];
  }

  /** Two filters never share an escaped form. */
  lemma {:induction false} EscapeInjective(f: string, g: string)
    requires EscapeLike(f) == EscapeLike(g)
    ensures f == g
  {
    if f != "" && g != "" {
      var a, b := EscapeChar(f[0]), EscapeChar(g[0]);
      assert EscapeLike(f)[0] == a[0] && EscapeLike(g)[0] == b[0];
      assert |a| == 2 ==> EscapeLike(f)[1] == a[1];
      assert |b| == 2 ==> EscapeLike(g)[1] == b[1];
      assert a == b;
      assert EscapeLike(f)[|a|..] == EscapeLike(f[1..]) && EscapeLike(g)[|b|..] == EscapeLike(g[1..]);
      EscapeInjective(f[1..], g[1..]);
    }
  }

  lemma {:induction false} ReplaceConcat(s: string, t: string, c: char, with: string)
    ensures ReplaceAll(s + t, c, with) == ReplaceAll(s, c, with) + ReplaceAll(t, c, with)
  {
    if s == "" {
      assert s + t == t;
    } else {
      assert (s + t)[1..] == s[1..] + t;
      ReplaceConcat(s[1..], t, c, with);
    }
  }

  /** The single pass equals three passes in order, the escape character first. */
  lemma {:induction false} EscapeIsThreeReplacements(f: string)
    ensures EscapeLike(f)
         == ReplaceAll(ReplaceAll(ReplaceAll(f, ESCAPE, [ESCAPE, ESCAPE]), ANY, [ESCAPE, ANY]), ONE, [ESCAPE, ONE])
  {
    if f != "" {
      EscapeIsThreeReplacements(f[1..]);
      var one := if f[0] == ESCAPE then [ESCAPE, ESCAPE] else [f[0]];
      var two := ReplaceAll(one, ANY, [ESCAPE, ANY]);
      var rest := ReplaceAll(f[1..], ESCAPE, [ESCAPE, ESCAPE]);
      ReplaceConcat(one, rest, ANY, [ESCAPE, ANY]);
      ReplaceConcat(two, ReplaceAll(rest, ANY, [ESCAPE, ANY]), ONE, [ESCAPE, ONE]);
      assert ReplaceAll(two, ONE, [ESCAPE, ONE]) == EscapeChar(f[0]) by {
        ReplaceShort(one, ANY, [ESCAPE, ANY]);
        ReplaceShort(two, ONE, [ESCAPE, ONE]);
      }
    }
  }

  /** ReplaceAll spelled out on one or two characters. */
  lemma ReplaceShort(s: string, c: char, with: string)
    requires 1 <= |s| <= 2
    ensures |s| == 1 ==> ReplaceAll(s, c, with) == if s[0] == c then with else s
    ensures |s| == 2 ==> ReplaceAll(s, c, with) == (if s[0] == c then with else [s[0]]) + (if s[1] == c then with else [s[1]])
  {
    var tail := s[1..];
    assert ReplaceAll(s, c, with) == (if s[0] == c then with else [s[0]]) + ReplaceAll(tail, c, with);
    if |s| == 2 {
      assert tail == [s[1]] && tail[1..] == "";
      assert ReplaceAll(tail, c, with) == (if s[1] == c then with else [s[1]]);
    }
  }
}
