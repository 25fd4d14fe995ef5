/** The BIC shape check of `setCreditorBic` (classes/DirectDebit.php), a
    case-insensitive regular expression anchored at both ends. */
module Bic {

  /** `[0-9a-z]` under the case-insensitive flag. */
  predicate IsAlphaNum(c: char) {
    '0' <= c <= '9' || 'a' <= c <= 'z' || 'A' <= c <= 'Z'
  }

  /** `[a-z]` under the case-insensitive flag. */
  predicate IsAlpha(c: char) {
    'a' <= c <= 'z' || 'A' <= c <= 'Z'
  }

  /** The accepted shape, position by position: 8 or 11 letters and digits,
      of which the fifth and sixth (the country code) are letters. */
  predicate IsBic(s: string) {
    && (|s| == 8 || |s| == 11)
    && (forall i :: 0 <= i < |s| ==> IsAlphaNum(s[i]))
    && IsAlpha(s[4]) && IsAlpha(s[5])
  }

  // The regular expression as written, with its meaning, as the reference
  // the position-by-position check is proved against.

  datatype CharClass = AlphaNum | Alpha

  datatype Pattern =
    | Repeat(cls: CharClass, count: nat)   // [class]{count}
    | Cat(left: Pattern, right: Pattern)   // left followed by right
    | Optional(body: Pattern)              // (body)?

  predicate InClass(c: CharClass, x: char) {
    match c
    case AlphaNum => IsAlphaNum(x)
    case Alpha => IsAlpha(x)
  }

  /** The whole of `s` matches `p`. */
  ghost predicate Matches(p: Pattern, s: string)
    decreases p
  {
    match p
    case Repeat(c, n) => |s| == n && forall i :: 0 <= i < |s| ==> InClass(c, s[i])
    case Cat(a, b) => exists k :: 0 <= k <= |s| && Matches(a, s[..k]) && Matches(b, s[k..])
    case Optional(a) => s == [] || Matches(a, s)
  }

  /** `^[0-9a-z]{4}[a-z]{2}[0-9a-z]{2}([0-9a-z]{3})?\z` */
  const BicPattern: Pattern :=
    Cat(Repeat(AlphaNum, 4), Cat(Repeat(Alpha, 2), Cat(Repeat(AlphaNum, 2), Optional(Repeat(AlphaNum, 3)))))

  /** The pattern's tail after the bank code, and after the country code. */
  const AfterBank: Pattern := Cat(Repeat(Alpha, 2), AfterCountry)
  const AfterCountry: Pattern := Cat(Repeat(AlphaNum, 2), Optional(Repeat(AlphaNum, 3)))

  /** The check accepts exactly the strings the regular expression matches. */
  lemma IsBicMatchesPattern(s: string)
    ensures IsBic(s) <==> Matches(BicPattern, s)
  {
    if IsBic(s) {
      BicMatches(s);
    }
    if Matches(BicPattern, s) {
      MatchIsBic(s);
    }
  }

  lemma BicMatches(s: string)
    requires IsBic(s)
    ensures Matches(BicPattern, s)
  {
    var t := s[4..];
    var u := t[2..];
    assert Matches(AfterCountry, u) by {
      assert Matches(Repeat(AlphaNum, 2), u[..2]);
      assert Matches(Optional(Repeat(AlphaNum, 3)), u[2..]);
    }
    assert Matches(AfterBank, t) by {
      assert Matches(Repeat(Alpha, 2), t[..2]);
      assert t[2..] == u;
    }
    assert Matches(Repeat(AlphaNum, 4), s[..4]);
    assert s[4..] == t;
  }

  lemma MatchIsBic(s: string)
    requires Matches(BicPattern, s)
    ensures IsBic(s)
  {
    var k :| 0 <= k <= |s| && Matches(Repeat(AlphaNum, 4), s[..k]) && Matches(AfterBank, s[k..]);
    assert k == 4;
    var t := s[4..];
    MatchAfterBank(t);
    forall i | 0 <= i < |s| ensures IsAlphaNum(s[i]) {
      if i < 4 {
        assert s[i] == s[..4][i];
      } else {
        assert s[i] == t[i - 4];
      }
    }
  }

  lemma MatchAfterBank(t: string)
    requires Matches(AfterBank, t)
    ensures |t| == 4 || |t| == 7
    ensures IsAlpha(t[0]) && IsAlpha(t[1])
    ensures forall i :: 0 <= i < |t| ==> IsAlphaNum(t[i])
  {
    var j :| 0 <= j <= |t| && Matches(Repeat(Alpha, 2), t[..j]) && Matches(AfterCountry, t[j..]);
    assert j == 2;
    var u := t[2..];
    MatchAfterCountry(u);
    assert t[0] == t[..2][0] && t[1] == t[..2][1];
    forall i | 0 <= i < |t| ensures IsAlphaNum(t[i]) {
      if i >= 2 {
        assert t[i] == u[i - 2];
      }
    }
  }

  lemma MatchAfterCountry(u: string)
    requires Matches(AfterCountry, u)
    ensures |u| == 2 || |u| == 5
    ensures forall i :: 0 <= i < |u| ==> IsAlphaNum(u[i])
  {
    var m :| 0 <= m <= |u| && Matches(Repeat(AlphaNum, 2), u[..m]) && Matches(Optional(Repeat(AlphaNum, 3)), u[m..]);
    assert m == 2;
    forall i | 0 <= i < |u| ensures IsAlphaNum(u[i]) {
      if i < 2 {
        assert u[i] == u[..2][i];
      } else {
        assert u[i] == u[2..][i - 2];
      }
    }
  }

  lemma BicExamples()
    ensures IsBic("ABCDEFGH")
    ensures IsBic("RABONL2U")
    ensures IsBic("rabonl2uxxx")
    ensures !IsBic("AB12")
    ensures !IsBic("RABO1L2U")
    ensures !IsBic("RABONL2UXX")
  {
  }
}
