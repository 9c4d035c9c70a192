/** Egyptian phone numbers in canonical form (NormalizePhone in internal/auth/domain.go). */
module Phone {
  import opened Domain

  /** The code points Unicode calls White_Space, which the trim strips. */
  const WHITE_SPACE: set<char> := {
    '\t', '\n', '\U{000B}', '\U{000C}', '\r', ' ', '\U{0085}', '\U{00A0}', '\U{1680}', '\U{2000}', '\U{2001}',
    '\U{2002}', '\U{2003}', '\U{2004}', '\U{2005}', '\U{2006}', '\U{2007}', '\U{2008}', '\U{2009}', '\U{200A}',
    '\U{2028}', '\U{2029}', '\U{202F}', '\U{205F}', '\U{3000}' }

  function TrimLeft(s: string): string {
    if s != "" && s[0] in WHITE_SPACE then TrimLeft(s[1..]) else s
  }

  function TrimRight(s: string): string {
    if s != "" && s[|s| - 1] in WHITE_SPACE then TrimRight(s[..|s| - 1]) else s
  }

  function TrimSpace(s: string): string {
    TrimRight(TrimLeft(s))
  }

  /** `s` without any occurrence of `c`. */
  function Without(s: string, c: char): string {
    if s == "" then "" else (if s[0] == c then "" else [s[0]]) + Without(s[1..], c)
  }

  function Stripped(s: string): string {
    Without(Without(s, ' '), '-')
  }

  function Squeezed(raw: string): string {
    Stripped(TrimSpace(raw))
  }

  predicate Digits(s: string) {
    forall i | 0 <= i < |s| :: '0' <= s[i] <= '9'
  }

  predicate Subscriber(d: string) {
    |d| == 10 && Digits(d)
  }

  /** `raw`, trimmed and without spaces and dashes, spells the subscriber number `d`. */
  predicate Spells(raw: string, d: string) {
    && Subscriber(d)
    && var s := Squeezed(raw);
       s == "+20" + d || s == "0" + d || (s == d && d[0] != '0')
  }

  /** What the service makes of a phone number as typed: its canonical form, if it has one. */
  function Canonical(raw: string): Option<string> {
    var s := Squeezed(raw);
    var d := if "+20" <= s then s[3..] else if "0" <= s then s[1..] else s;
    if Subscriber(d) then Some("+20" + d) else None
  }

  method IsAllDigits(s: string) returns (ok: bool)
    ensures ok == (Digits(s) && |s| > 0)
  {
    for i := 0 to |s|
      invariant Digits(s[..i])
    {
      if s[i] < '0' || s[i] > '9' {
        return false;
      }
      assert s[..i + 1] == s[..i] + [s[i]];
    }
    assert s[..|s|] == s;
    return |s| > 0;
  }

  method NormalizePhone(raw: string) returns (phone: Option<string>)
    ensures phone == Canonical(raw)
  {
    var s := TrimSpace(raw);
    s := Without(s, ' ');
    s := Without(s, '-');
    if "+20" <= s {
      s := s[3..];
    } else if "0" <= s {
      s := s[1..];
    }
    if |s| != 10 {
      return None;
    }
    var digits := IsAllDigits(s);
    if !digits {
      return None;
    }
    return Some("+20" + s);
  }

  lemma SpellingIsFound(raw: string, d: string)
    requires Spells(raw, d)
    ensures Canonical(raw) == Some("+20" + d)
  {
    var s := Squeezed(raw);
    if s == "+20" + d {
      assert s[3..] == d;
    } else if s == "0" + d {
      assert s[0] == '0' && s[1..] == d;
    } else {
      assert '0' <= s[0] <= '9';
    }
  }

  lemma FoundIsSpelling(raw: string)
    requires Canonical(raw).Some?
    ensures Spells(raw, Canonical(raw).value[3..])
  {
    var s := Squeezed(raw);
    var d := Canonical(raw).value[3..];
    if "+20" <= s {
      assert s == "+20" + s[3..];
    } else if "0" <= s {
      assert s == "0" + s[1..];
    } else {
      assert s[..1] == [s[0]];
    }
  }

  /** The canonical form is that of the one subscriber the input spells; an input that spells none is refused. */
  lemma CanonicalCharacterised(raw: string, phone: string)
    ensures Canonical(raw) == Some(phone) <==> exists d :: Spells(raw, d) && phone == "+20" + d
    ensures Canonical(raw).None? <==> !exists d :: Spells(raw, d)
  {
    forall d | Spells(raw, d)
      ensures Canonical(raw) == Some("+20" + d)
    {
      SpellingIsFound(raw, d);
    }
    if Canonical(raw).Some? {
      FoundIsSpelling(raw);
      assert Canonical(raw).value == "+20" + Canonical(raw).value[3..];
    }
  }

  lemma {:induction false} WithoutAbsent(s: string, c: char)
    requires c !in s
    ensures Without(s, c) == s
  {
    if s != "" {
      WithoutAbsent(s[1..], c);
    }
  }

  /** Every subscriber number in canonical form is its own canonical form. */
  lemma CanonicalFixed(d: string)
    requires Subscriber(d)
    ensures Canonical("+20" + d) == Some("+20" + d)
  {
    var phone := "+20" + d;
    assert phone[3..] == d;
    assert TrimLeft(phone) == phone;
    assert '0' <= phone[|phone| - 1] <= '9' && ' ' !in phone && '-' !in phone;
    assert TrimSpace(phone) == phone;
    WithoutAbsent(phone, ' ');
    WithoutAbsent(phone, '-');
  }

  /** So normalising twice changes nothing. */
  lemma CanonicalIdempotent(raw: string)
    requires Canonical(raw).Some?
    ensures Canonical(Canonical(raw).value) == Canonical(raw)
  {
    FoundIsSpelling(raw);
    var phone := Canonical(raw).value;
    assert phone == "+20" + phone[3..];
    CanonicalFixed(phone[3..]);
  }

  // --- What is accepted, said of the input itself ---

  predicate AllIn(s: string, chars: set<char>) {
    forall i | 0 <= i < |s| :: s[i] in chars
  }

  predicate NoneIn(s: string, chars: set<char>) {
    forall i | 0 <= i < |s| :: s[i] !in chars
  }

  /** `s` is `t` with characters of `fill` put in anywhere. */
  predicate Interleaves(s: string, t: string, fill: set<char>) {
    if s == "" then t == ""
    else (s[0] in fill && Interleaves(s[1..], t, fill)) || (t != "" && s[0] == t[0] && Interleaves(s[1..], t[1..], fill))
  }

  /** Every occurrence is gone, and everything else stays in its order. */
  lemma {:induction false} WithoutIsRest(s: string, c: char)
    ensures c !in Without(s, c) && Interleaves(s, Without(s, c), {c})
  {
    if s != "" {
      WithoutIsRest(s[1..], c);
      if s[0] != c {
        assert Without(s, c) == [s[0]] + Without(s[1..], c);
        assert Without(s, c)[1..] == Without(s[1..], c);
      } else {
        assert Without(s, c) == Without(s[1..], c);
      }
    }
  }

  /** What is left of a string once characters are taken out of it is determined. */
  lemma {:induction false} RestIsOne(s: string, t: string, u: string, fill: set<char>)
    requires NoneIn(t, fill) && NoneIn(u, fill) && Interleaves(s, t, fill) && Interleaves(s, u, fill)
    ensures t == u
    decreases |s|
  {
    if s != "" {
      if s[0] in fill {
        RestIsOne(s[1..], t, u, fill);
      } else {
        RestIsOne(s[1..], t[1..], u[1..], fill);
        assert t == [t[0]] + t[1..] && u == [u[0]] + u[1..];
      }
    }
  }

  lemma {:induction false} InterleavesTwice(s: string, t: string, u: string, a: set<char>, b: set<char>)
    requires Interleaves(s, t, a) && Interleaves(t, u, b)
    ensures Interleaves(s, u, a + b)
    decreases |s|
  {
    if s != "" {
      if s[0] in a && Interleaves(s[1..], t, a) {
        InterleavesTwice(s[1..], t, u, a, b);
      } else if t[0] in b && Interleaves(t[1..], u, b) {
        InterleavesTwice(s[1..], t[1..], u, a, b);
      } else {
        InterleavesTwice(s[1..], t[1..], u[1..], a, b);
      }
    }
  }

  const SPACE_OR_DASH: set<char> := {' ', '-'}

  lemma {:induction false} WithoutSubset(s: string, c: char, d: char)
    requires d !in s
    ensures d !in Without(s, c)
  {
    if s != "" {
      WithoutSubset(s[1..], c, d);
    }
  }

  /** Taking out every space and dash is what both replacements do. */
  lemma StrippedIsRest(s: string, t: string)
    ensures Stripped(s) == t <==> NoneIn(t, SPACE_OR_DASH) && Interleaves(s, t, SPACE_OR_DASH)
  {
    var u := Without(s, ' ');
    WithoutIsRest(s, ' ');
    WithoutIsRest(u, '-');
    WithoutSubset(u, '-', ' ');
    InterleavesTwice(s, u, Stripped(s), {' '}, {'-'});
    assert {' '} + {'-'} == SPACE_OR_DASH;
    if NoneIn(t, SPACE_OR_DASH) && Interleaves(s, t, SPACE_OR_DASH) {
      RestIsOne(s, t, Stripped(s), SPACE_OR_DASH);
    }
  }

  // --- Trimming ---

  /** The blanks: five controls, the space, two of Latin-1, and those of the ranges Unicode sets aside. */
  lemma WhiteSpaceIs(c: char)
    ensures c in WHITE_SPACE <==>
              || '\t' <= c <= '\r' || c == ' ' || c == '\U{85}' || c == '\U{A0}' || c == '\U{1680}'
              || '\U{2000}' <= c <= '\U{200A}' || '\U{2028}' <= c <= '\U{2029}' || c == '\U{202F}'
              || c == '\U{205F}' || c == '\U{3000}'
  {
    assert '\t' as int == 9 && '\r' as int == 13;
  }

  /** Nothing more can be trimmed. */
  predicate Trimmed(t: string) {
    t != "" ==> t[0] !in WHITE_SPACE && t[|t| - 1] !in WHITE_SPACE
  }

  lemma {:induction false} TrimLeftIs(s: string) returns (l: string)
    ensures s == l + TrimLeft(s) && AllIn(l, WHITE_SPACE)
    ensures TrimLeft(s) != "" ==> TrimLeft(s)[0] !in WHITE_SPACE
  {
    l := "";
    if s != "" && s[0] in WHITE_SPACE {
      var l1 := TrimLeftIs(s[1..]);
      l := [s[0]] + l1;
      assert s == [s[0]] + s[1..];
    }
  }

  lemma {:induction false} TrimRightIs(s: string) returns (r: string)
    ensures s == TrimRight(s) + r && AllIn(r, WHITE_SPACE)
    ensures TrimRight(s) != "" ==> TrimRight(s)[|TrimRight(s)| - 1] !in WHITE_SPACE && TrimRight(s)[0] == s[0]
  {
    r := "";
    if s != "" && s[|s| - 1] in WHITE_SPACE {
      var r1 := TrimRightIs(s[..|s| - 1]);
      r := r1 + [s[|s| - 1]];
      assert s == s[..|s| - 1] + [s[|s| - 1]];
    }
  }

  /** Trimming takes white space off both ends, and all of it. */
  lemma TrimSpaceIs(s: string) returns (l: string, r: string)
    ensures s == l + TrimSpace(s) + r && AllIn(l, WHITE_SPACE) && AllIn(r, WHITE_SPACE) && Trimmed(TrimSpace(s))
  {
    l := TrimLeftIs(s);
    r := TrimRightIs(TrimLeft(s));
  }

  lemma {:induction false} WhiteLeft(l: string, x: string)
    requires AllIn(l, WHITE_SPACE)
    ensures TrimLeft(l + x) == TrimLeft(x)
  {
    if l == "" {
      assert l + x == x;
    } else {
      assert (l + x)[1..] == l[1..] + x;
      WhiteLeft(l[1..], x);
    }
  }

  lemma {:induction false} WhiteRight(x: string, r: string)
    requires AllIn(r, WHITE_SPACE)
    ensures TrimRight(x + r) == TrimRight(x)
    decreases |r|
  {
    if r == "" {
      assert x + r == x;
    } else {
      var n := |r| - 1;
      assert (x + r)[..|x + r| - 1] == x + r[..n];
      WhiteRight(x, r[..n]);
    }
  }

  lemma {:induction false} InkStopsLeft(m: string, r: string)
    requires !AllIn(m, WHITE_SPACE)
    ensures TrimLeft(m + r) == TrimLeft(m) + r
  {
    if m[0] in WHITE_SPACE {
      assert (m + r)[1..] == m[1..] + r;
      InkStopsLeft(m[1..], r);
    }
  }

  lemma {:induction false} WhiteHidesNothing(m: string, t: string, fill: set<char>)
    requires Interleaves(m, t, fill) && AllIn(m, WHITE_SPACE) && NoneIn(t, WHITE_SPACE)
    ensures t == ""
    decreases |m|
  {
    if m != "" {
      WhiteHidesNothing(m[1..], t, fill);
    }
  }

  lemma {:induction false} StillInsideLeft(m: string, t: string, fill: set<char>)
    requires Interleaves(m, t, fill) && NoneIn(t, WHITE_SPACE)
    ensures Interleaves(TrimLeft(m), t, fill)
    decreases |m|
  {
    if m != "" && m[0] in WHITE_SPACE {
      StillInsideLeft(m[1..], t, fill);
    }
  }

  lemma {:induction false} DropLast(m: string, t: string, fill: set<char>)
    requires Interleaves(m, t, fill) && m != "" && m[|m| - 1] !in t
    ensures Interleaves(m[..|m| - 1], t, fill)
    decreases |m|
  {
    var n := |m| - 1;
    if n == 0 {
      assert m[1..] == "";
    } else {
      assert m[1..][..n - 1] == m[..n][1..];
      if m[0] in fill && Interleaves(m[1..], t, fill) {
        DropLast(m[1..], t, fill);
      } else {
        DropLast(m[1..], t[1..], fill);
      }
    }
  }

  lemma {:induction false} StillInsideRight(m: string, t: string, fill: set<char>)
    requires Interleaves(m, t, fill) && NoneIn(t, WHITE_SPACE)
    ensures Interleaves(TrimRight(m), t, fill)
    decreases |m|
  {
    if m != "" && m[|m| - 1] in WHITE_SPACE {
      DropLast(m, t, fill);
      StillInsideRight(m[..|m| - 1], t, fill);
    }
  }

  /** Trimming takes nothing off that counts. */
  lemma TrimmedMiddle(l: string, m: string, r: string, t: string)
    requires AllIn(l, WHITE_SPACE) && AllIn(r, WHITE_SPACE) && Interleaves(m, t, SPACE_OR_DASH)
    requires NoneIn(t, WHITE_SPACE) && t != ""
    ensures Interleaves(TrimSpace(l + m + r), t, SPACE_OR_DASH)
  {
    assert l + m + r == l + (m + r);
    WhiteLeft(l, m + r);
    if AllIn(m, WHITE_SPACE) {
      WhiteHidesNothing(m, t, SPACE_OR_DASH);
    }
    InkStopsLeft(m, r);
    WhiteRight(TrimLeft(m), r);
    StillInsideLeft(m, t, SPACE_OR_DASH);
    StillInsideRight(TrimLeft(m), t, SPACE_OR_DASH);
  }

  // --- The whole rule ---

  /** The ways to write a subscriber number. */
  predicate Form(form: string, d: string) {
    Subscriber(d) && (form == "+20" + d || form == "0" + d || (form == d && d[0] != '0'))
  }

  predicate WrittenAs(raw: string, l: string, m: string, r: string, form: string) {
    raw == l + m + r && AllIn(l, WHITE_SPACE) && AllIn(r, WHITE_SPACE) && Interleaves(m, form, SPACE_OR_DASH)
  }

  /** `raw` is a way to write the number, with spaces and dashes anywhere in it, inside white space. */
  ghost predicate Writes(raw: string, d: string) {
    exists l, m, r, form :: WrittenAs(raw, l, m, r, form) && Form(form, d)
  }

  lemma FormIsInk(form: string, d: string)
    requires Form(form, d)
    ensures form != "" && NoneIn(form, WHITE_SPACE) && NoneIn(form, SPACE_OR_DASH)
  {
    forall i | 0 <= i < |form|
      ensures form[i] == '+' || '0' <= form[i] <= '9'
    {
      if form == "+20" + d {
        assert i < 3 || form[i] == d[i - 3];
      } else if form == "0" + d {
        assert i < 1 || form[i] == d[i - 1];
      }
    }
  }

  lemma WritesIffSpells(raw: string, d: string)
    ensures Writes(raw, d) <==> Spells(raw, d)
  {
    if Spells(raw, d) {
      var form := Squeezed(raw);
      var l, r := TrimSpaceIs(raw);
      StrippedIsRest(TrimSpace(raw), form);
      assert WrittenAs(raw, l, TrimSpace(raw), r, form) && Form(form, d);
    }
    if Writes(raw, d) {
      var l, m, r, form :| WrittenAs(raw, l, m, r, form) && Form(form, d);
      FormIsInk(form, d);
      TrimmedMiddle(l, m, r, form);
      StrippedIsRest(TrimSpace(raw), form);
    }
  }

  /** A number is accepted, as +20 and ten digits, if and only if the input writes those digits after +20, after 0, or
      alone and not starting with 0, with spaces and dashes anywhere and white space around; all else is refused. */
  lemma AcceptedExactly(raw: string, phone: string)
    ensures Canonical(raw) == Some(phone) <==> exists d :: Writes(raw, d) && phone == "+20" + d
    ensures Canonical(raw).None? <==> !exists d :: Writes(raw, d)
  {
    CanonicalCharacterised(raw, phone);
    forall d: string
      ensures Writes(raw, d) <==> Spells(raw, d)
    {
      WritesIffSpells(raw, d);
    }
  }
}
