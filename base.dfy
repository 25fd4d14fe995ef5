/** The static helpers of `Sepa_Base` (classes/Base.php): amount formatting,
    the currency-code check and the `alphanumeric` text sanitiser. */
module Base {

  import opened Wrappers
  import opened Decimal

  // ---------------------------------------------------------------------
  // intToCurrency
  // ---------------------------------------------------------------------

  /** `intToCurrency`: an amount in cents printed as euros with exactly two
      decimals ("%01.2f" of amount / 100). */
  function IntToCurrency(amount: nat): (r: string)
    ensures |r| >= 4 && r[|r| - 3] == '.'
    ensures IsDigits(r[..|r| - 3]) && IsDigits(r[|r| - 2..])
    ensures |r[..|r| - 3]| > 1 ==> r[0] != '0'
  {
    var whole := NatToDecimal(amount / 100);
    var r := whole + "." + TwoDigits(amount % 100);
    assert r[..|r| - 3] == whole;
    assert r[|r| - 2..] == TwoDigits(amount % 100);
    r
  }

  /** Reads a "<digits>.<two digits>" amount back into cents. */
  function ParseCurrency(s: string): Option<nat>
  {
    if |s| >= 4 && s[|s| - 3] == '.' && IsDigits(s[..|s| - 3]) && IsDigits(s[|s| - 2..])
    then Some(Value(s[..|s| - 3]) * 100 + Value(s[|s| - 2..]))
    else None
  }

  /** The formatted amount always reads back as the same number of cents. */
  lemma CurrencyRoundTrip(amount: nat)
    ensures ParseCurrency(IntToCurrency(amount)) == Some(amount)
  {
    var r := IntToCurrency(amount);
    var whole := NatToDecimal(amount / 100);
    assert r[..|r| - 3] == whole;
    assert r[|r| - 2..] == TwoDigits(amount % 100);
    ValueOfNatToDecimal(amount / 100);
  }

  lemma IntToCurrencyExamples()
    ensures IntToCurrency(12345) == "123.45"
    ensures IntToCurrency(5) == "0.05"
    ensures IntToCurrency(100) == "1.00"
  {
    assert NatToDecimal(123) == "123" by {
      assert NatToDecimal(12) == "12" by { assert NatToDecimal(1) == "1"; }
    }
    assert NatToDecimal(0) == "0";
    assert NatToDecimal(1) == "1";
  }

  // ---------------------------------------------------------------------
  // validateCurrency
  // ---------------------------------------------------------------------

  /** `validateCurrency`: a code of exactly three bytes is returned as it
      is; anything else raises an `Exception`. No list of ISO 4217 codes
      is consulted. */
  function ValidateCurrency(code: string): (r: Result<string>)
    ensures r.Ok? <==> |code| == 3
    ensures r.Ok? ==> r.value == code
    ensures r.Err? ==> r.error == Exception("Invalid ISO currency code: " + code)
  {
    if |code| != 3 then Err(Exception("Invalid ISO currency code: " + code)) else Ok(code)
  }

  lemma ValidateCurrencyExamples()
    ensures ValidateCurrency("EUR") == Ok("EUR")
    ensures ValidateCurrency("EU").Err?
    ensures ValidateCurrency("EURO").Err?
  {
  }

  // ---------------------------------------------------------------------
  // alphanumeric: the entity replacement, then the truncation
  // ---------------------------------------------------------------------

  /** The entity-name endings whose accent or ligature the sanitiser strips,
      in the order the alternation lists them. */
  const EntitySuffixes: seq<string> :=
    ["acute", "cedil", "circ", "grave", "lig", "orn", "ring", "slash", "th", "tilde", "uml"]

  predicate IsAsciiLetter(c: char) {
    'a' <= c <= 'z' || 'A' <= c <= 'Z'
  }

  /** ASCII lower-casing, as the case-insensitive match compares bytes. */
  function Lower(c: char): char {
    if 'A' <= c <= 'Z' then (c as int - 'A' as int + 'a' as int) as char else c
  }

  function Lowered(s: string): (r: string)
    ensures |r| == |s| && forall i :: 0 <= i < |s| ==> r[i] == Lower(s[i])
  {
    if s == [] then [] else [Lower(s[0])] + Lowered(s[1..])
  }

  /** `t` begins with `p`, ignoring the case of `t` (`p` is lower case). */
  predicate StartsWithIgnoringCase(t: string, p: string) {
    |p| <= |t| && forall i :: 0 <= i < |p| ==> Lower(t[i]) == p[i]
  }

  /** The length of the first alternative that, followed by ';', begins `t`. */
  function MatchSuffix(t: string, alternatives: seq<string>): (r: Option<nat>)
    ensures r.Some? ==> r.value < |t| && t[r.value] == ';'
    ensures r.Some? ==> exists k :: 0 <= k < |alternatives| && |alternatives[k]| == r.value
  {
    if alternatives == [] then None
    else if StartsWithIgnoringCase(t, alternatives[0] + ";") then
      assert Lower(t[|alternatives[0]|]) == (alternatives[0] + ";")[|alternatives[0]|];
      Some(|alternatives[0]|)
    else
      var r := MatchSuffix(t, alternatives[1..]);
      assert r.Some? ==> exists k :: 0 <= k < |alternatives| && |alternatives[k]| == r.value by {
        if r.Some? {
          var k :| 0 <= k < |alternatives| - 1 && |alternatives[1..][k]| == r.value;
          assert |alternatives[k + 1]| == r.value;
        }
      }
      r
  }

  /** A match of the sanitiser's pattern at the start of a string: the one
      or two letters that replace it and how many bytes it spans. */
  datatype EntityMatch = EntityMatch(letters: string, length: nat)

  /** Matches `&`, one or two letters, an entity ending and `;` at the start
      of `s`. Two letters are tried first, as the greedy repetition does. */
  function EntityAt(s: string): (m: Option<EntityMatch>)
    ensures m.Some? ==> 1 <= |m.value.letters| <= 2
    ensures m.Some? ==> |m.value.letters| + 2 <= m.value.length <= |s|
    ensures m.Some? ==> m.value.letters == s[1..1 + |m.value.letters|]
    ensures m.Some? ==> s[0] == '&'
  {
    if |s| < 3 || s[0] != '&' || !IsAsciiLetter(s[1]) then None
    else
      var two := if IsAsciiLetter(s[2]) then MatchSuffix(s[3..], EntitySuffixes) else None;
      if two.Some? then Some(EntityMatch(s[1..3], 3 + two.value + 1))
      else match MatchSuffix(s[2..], EntitySuffixes)
        case Some(k) => Some(EntityMatch(s[1..2], 2 + k + 1))
        case None => None
  }

  /** The `preg_replace` of `alphanumeric`: scanning left to right, every
      match is replaced by its letters and the scan resumes after it;
      elsewhere a byte is copied and the scan moves on by one. */
  function ReplaceEntities(s: string): (r: string)
    ensures |r| <= |s|
    decreases |s|
  {
    if s == [] then []
    else match EntityAt(s)
      case Some(m) => m.letters + ReplaceEntities(s[m.length..])
      case None => [s[0]] + ReplaceEntities(s[1..])
  }

  /** `alphanumeric(string, length)`: the entity-replaced text cut to at most
      `length` bytes (`substr($s, 0, $length)`). */
  function Alphanumeric(s: string, length: nat): (r: string)
    ensures |r| <= length
    ensures r <= ReplaceEntities(s)
    ensures |r| == length || r == ReplaceEntities(s)
  {
    var t := ReplaceEntities(s);
    if |t| <= length then t else t[..length]
  }

  /** Text without '&' passes the replacement unchanged, and the rest of the
      string is processed as if the text were not there. */
  lemma {:induction false} PlainPrefixKept(p: string, rest: string)
    requires '&' !in p
    ensures ReplaceEntities(p + rest) == p + ReplaceEntities(rest)
  {
    if p != [] {
      var s := p + rest;
      assert s[0] == p[0];
      assert EntityAt(s).None?;
      assert s[1..] == p[1..] + rest;
      PlainPrefixKept(p[1..], rest);
    } else {
      assert p + rest == rest;
    }
  }

  lemma PlainTextUnchanged(s: string)
    requires '&' !in s
    ensures ReplaceEntities(s) == s
  {
    PlainPrefixKept(s, []);
    assert s + [] == s;
  }

  /** Text without entities is only truncated: a 100-byte name cut to 70
      keeps exactly its first 70 bytes. */
  lemma PlainTextTruncated(s: string, length: nat)
    requires '&' !in s
    ensures Alphanumeric(s, length) == if |s| <= length then s else s[..length]
  {
    PlainTextUnchanged(s);
  }

  /** No alternative, followed by ';', begins the tail of an entity ending
      after its first letter, whatever the case of that ending. */
  lemma NoSuffixInsideSuffix(sfx: string, rest: string)
    requires Lowered(sfx) in EntitySuffixes
    ensures MatchSuffix(sfx[1..] + ";" + rest, EntitySuffixes).None?
  {
    var t := sfx[1..] + ";" + rest;
    SuffixesAreLowerCase();
    SuffixTailsAreNotSuffixes();
    forall k | 0 <= k < |EntitySuffixes|
      ensures !StartsWithIgnoringCase(t, EntitySuffixes[k] + ";")
    {
      TailMismatch(sfx, Lowered(sfx), rest, EntitySuffixes[k]);
    }
    NoAlternativeMatches(t, EntitySuffixes);
  }

  /** No entity ending is another one without its first letter. */
  lemma SuffixTailsAreNotSuffixes()
    ensures forall a, b :: a in EntitySuffixes && b in EntitySuffixes && a != [] ==> b != a[1..]
  {
  }

  /** A lower-case word that is not the tail of `sfx` does not begin that
      tail followed by ';'. */
  lemma TailMismatch(sfx: string, low: string, rest: string, alt: string)
    requires |sfx| >= 1 && |low| == |sfx|
    requires forall i :: 0 <= i < |sfx| ==> low[i] == Lower(sfx[i]) && 'a' <= low[i] <= 'z'
    requires forall i :: 0 <= i < |alt| ==> 'a' <= alt[i] <= 'z'
    requires alt != low[1..]
    ensures !StartsWithIgnoringCase(sfx[1..] + ";" + rest, alt + ";")
  {
    var t := sfx[1..] + ";" + rest;
    var n := |sfx| - 1;
    var p := alt + ";";
    if |alt| < n {
      assert Lower(t[|alt|]) == low[1 + |alt|];
      assert Lower(t[|alt|]) != p[|alt|];
    } else if |alt| == n {
      assert |low[1..]| == n;
      var i :| 0 <= i < n && alt[i] != low[1..][i];
      assert Lower(t[i]) == low[1 + i];
      assert Lower(t[i]) != p[i];
    } else {
      assert t[n] == ';';
      assert Lower(t[n]) != p[n];
    }
  }

  /** An entity ending followed by ';' is matched by exactly that ending. */
  lemma SuffixMatched(sfx: string, rest: string)
    requires Lowered(sfx) in EntitySuffixes
    ensures MatchSuffix(sfx + ";" + rest, EntitySuffixes) == Some(|sfx|)
  {
    var t := sfx + ";" + rest;
    var low := Lowered(sfx);
    var n := |sfx|;
    SuffixesAreLowerCase();
    assert StartsWithIgnoringCase(t, low + ";") by {
      forall i | 0 <= i < n + 1 ensures Lower(t[i]) == (low + ";")[i] {
        if i < n { assert t[i] == sfx[i]; } else { assert t[i] == ';'; }
      }
    }
    forall k | 0 <= k < |EntitySuffixes|
      ensures StartsWithIgnoringCase(t, EntitySuffixes[k] + ";") ==> |EntitySuffixes[k]| == n
    {
      var alt := EntitySuffixes[k];
      var p := alt + ";";
      if |alt| < n {
        assert Lower(t[|alt|]) == low[|alt|];
        assert Lower(t[|alt|]) != p[|alt|];
      } else if |alt| > n {
        assert t[n] == ';';
        assert Lower(t[n]) != p[n];
      }
    }
    FirstMatchingAlternative(t, EntitySuffixes, low);
  }

  lemma {:induction false} FirstMatchingAlternative(t: string, alternatives: seq<string>, sfx: string)
    requires sfx in alternatives && StartsWithIgnoringCase(t, sfx + ";")
    requires forall k :: 0 <= k < |alternatives| && StartsWithIgnoringCase(t, alternatives[k] + ";") ==>
      |alternatives[k]| == |sfx|
    ensures MatchSuffix(t, alternatives) == Some(|sfx|)
  {
    if !StartsWithIgnoringCase(t, alternatives[0] + ";") {
      assert alternatives[0] != sfx;
      assert forall k :: 0 <= k < |alternatives| - 1 ==> alternatives[1..][k] == alternatives[k + 1];
      FirstMatchingAlternative(t, alternatives[1..], sfx);
    }
  }

  /** Every entity the pattern describes is replaced by its one or two
      letters, whatever their case: `&eacute;` becomes `e`, `&aelig;` becomes
      `ae`, `&eth;` becomes `e`, `&thorn;` becomes `th`. */
  lemma EntityReplaced(letters: string, sfx: string, rest: string)
    requires 1 <= |letters| <= 2 && forall i :: 0 <= i < |letters| ==> IsAsciiLetter(letters[i])
    requires Lowered(sfx) in EntitySuffixes
    ensures ReplaceEntities("&" + letters + sfx + ";" + rest) == letters + ReplaceEntities(rest)
  {
    var s := "&" + letters + sfx + ";" + rest;
    var m;
    if |letters| == 2 {
      m := TwoLetterEntity(letters, sfx, rest);
    } else {
      m := OneLetterEntity(letters, sfx, rest);
    }
    assert EntityAt(s) == Some(m);
    assert s[m.length..] == rest;
  }

  /** `&`, two letters and an ending: the match takes both letters. */
  lemma TwoLetterEntity(letters: string, sfx: string, rest: string) returns (m: EntityMatch)
    requires |letters| == 2 && IsAsciiLetter(letters[0]) && IsAsciiLetter(letters[1])
    requires Lowered(sfx) in EntitySuffixes
    ensures EntityAt("&" + letters + sfx + ";" + rest) == Some(m)
    ensures m.letters == letters && m.length == 3 + |sfx| + 1
  {
    var s := "&" + letters + sfx + ";" + rest;
    assert s[0] == '&' && s[1] == letters[0] && s[2] == letters[1];
    assert s[3..] == sfx + ";" + rest;
    SuffixMatched(sfx, rest);
    assert s[1..3] == letters;
    m := EntityMatch(letters, 3 + |sfx| + 1);
  }

  /** `&`, one letter and an ending: the ending's first letter cannot be
      taken as a second letter, since no ending begins the rest of one. */
  lemma OneLetterEntity(letters: string, sfx: string, rest: string) returns (m: EntityMatch)
    requires |letters| == 1 && IsAsciiLetter(letters[0])
    requires Lowered(sfx) in EntitySuffixes
    ensures EntityAt("&" + letters + sfx + ";" + rest) == Some(m)
    ensures m.letters == letters && m.length == 2 + |sfx| + 1
  {
    var s := "&" + letters + sfx + ";" + rest;
    SuffixInitials();
    assert IsAsciiLetter(sfx[0]) by { assert Lowered(sfx)[0] == Lower(sfx[0]); }
    OneLetterShape(letters, sfx, rest);
    NoSuffixInsideSuffix(sfx, rest);
    SuffixMatched(sfx, rest);
    EntityAtOneLetter(s, |sfx|);
    m := EntityMatch(letters, 2 + |sfx| + 1);
  }

  /** The pattern takes one letter when two letters are followed by no
      ending but one letter is. */
  lemma EntityAtOneLetter(s: string, k: nat)
    requires |s| >= 3 && s[0] == '&' && IsAsciiLetter(s[1]) && IsAsciiLetter(s[2])
    requires MatchSuffix(s[3..], EntitySuffixes).None?
    requires MatchSuffix(s[2..], EntitySuffixes) == Some(k)
    ensures EntityAt(s) == Some(EntityMatch(s[1..2], 2 + k + 1))
  {
  }

  /** How `&`, one letter, an ending, ';' and a text split up. */
  lemma OneLetterShape(letters: string, sfx: string, rest: string)
    requires |letters| == 1 && |sfx| >= 1
    ensures var s := "&" + letters + sfx + ";" + rest;
      && |s| >= 3 && s[0] == '&' && s[1] == letters[0] && s[2] == sfx[0]
      && s[3..] == sfx[1..] + ";" + rest && s[2..] == sfx + ";" + rest && s[1..2] == letters
  {
    var s := "&" + letters + sfx + ";" + rest;
    assert s[3..] == sfx[1..] + ";" + rest;
    assert s[2..] == sfx + ";" + rest;
  }

  /** `name` is one or two ASCII letters followed by an entity ending, in
      any case, so that `&name;` matches the sanitiser's pattern. */
  predicate InEntityPattern(name: string) {
    (|name| >= 1 && IsAsciiLetter(name[0]) && Lowered(name[1..]) in EntitySuffixes) ||
    (|name| >= 2 && IsAsciiLetter(name[0]) && IsAsciiLetter(name[1]) && Lowered(name[2..]) in EntitySuffixes)
  }

  /** Every entity outside the pattern, such as `&amp;` or `&lt;`, is copied
      unchanged, and the scan goes on after its ';'. */
  lemma OtherEntityKept(name: string, rest: string)
    requires '&' !in name && ';' !in name
    requires !InEntityPattern(name)
    ensures ReplaceEntities("&" + name + ";" + rest) == "&" + name + ";" + ReplaceEntities(rest)
  {
    NoEntityAtOther(name, rest);
    KeptWithoutMatch("&" + name + ";" + rest, name, rest);
  }

  /** Text starting with '&' where the pattern does not match keeps the
      '&', the '&'-free text after it, and the replacement of the rest. */
  lemma KeptWithoutMatch(s: string, name: string, rest: string)
    requires '&' !in name && s == "&" + name + ";" + rest && EntityAt(s).None?
    ensures ReplaceEntities(s) == "&" + name + ";" + ReplaceEntities(rest)
  {
    var r := ReplaceEntities(rest);
    EntityShape(name, rest, r);
    CopiedWithoutMatch(s);
    PlainPrefixKept(name + ";", rest);
  }

  /** How `&name;` followed by a text splits into its first byte and the rest. */
  lemma EntityShape(name: string, rest: string, r: string)
    ensures ("&" + name + ";" + rest)[0] == '&'
    ensures ("&" + name + ";" + rest)[1..] == (name + ";") + rest
    ensures "&" + name + ";" + r == ['&'] + ((name + ";") + r)
  {
  }

  /** Where the pattern does not match, the first byte is copied. */
  lemma CopiedWithoutMatch(s: string)
    requires s != [] && EntityAt(s).None?
    ensures ReplaceEntities(s) == [s[0]] + ReplaceEntities(s[1..])
  {
  }

  /** The pattern does not match at the `&` of an entity outside it. */
  lemma NoEntityAtOther(name: string, rest: string)
    requires ';' !in name
    requires !InEntityPattern(name)
    ensures EntityAt("&" + name + ";" + rest).None?
  {
    var s := "&" + name + ";" + rest;
    if |name| >= 1 && IsAsciiLetter(name[0]) {
      assert s[1] == name[0];
      assert s[2..] == name[1..] + ";" + rest;
      NoEndingBefore(name[1..], rest);
      if |name| >= 2 && IsAsciiLetter(name[1]) {
        assert s[2] == name[1];
        assert s[3..] == name[2..] + ";" + rest;
        NoEndingBefore(name[2..], rest);
      } else {
        assert !IsAsciiLetter(s[2]);
      }
    } else {
      assert !IsAsciiLetter(s[1]);
    }
  }

  /** A word without ';' that is not an entity ending, followed by ';',
      matches no alternative. */
  lemma NoEndingBefore(w: string, rest: string)
    requires ';' !in w && Lowered(w) !in EntitySuffixes
    ensures MatchSuffix(w + ";" + rest, EntitySuffixes).None?
  {
    var t := w + ";" + rest;
    var n := |w|;
    SuffixesAreLowerCase();
    forall k | 0 <= k < |EntitySuffixes|
      ensures !StartsWithIgnoringCase(t, EntitySuffixes[k] + ";")
    {
      var alt := EntitySuffixes[k];
      var p := alt + ";";
      if |alt| < n {
        assert t[|alt|] == w[|alt|] && t[|alt|] != ';';
        assert Lower(t[|alt|]) != p[|alt|];
      } else if |alt| > n {
        assert t[n] == ';';
        assert Lower(t[n]) != p[n];
      } else {
        assert Lowered(w) != alt;
        var i :| 0 <= i < n && Lowered(w)[i] != alt[i];
        assert Lower(t[i]) != p[i];
      }
    }
    NoAlternativeMatches(t, EntitySuffixes);
  }

  /** Every entity ending is a lower-case word that begins with neither 'm'
      nor 'p'. */
  lemma SuffixInitials()
    ensures forall k :: 0 <= k < |EntitySuffixes| ==>
      |EntitySuffixes[k]| >= 2 && 'a' <= EntitySuffixes[k][0] <= 'z' &&
      EntitySuffixes[k][0] != 'm' && EntitySuffixes[k][0] != 'p'
  {
  }

  lemma SuffixesAreLowerCase()
    ensures forall k, i :: 0 <= k < |EntitySuffixes| && 0 <= i < |EntitySuffixes[k]| ==>
      'a' <= EntitySuffixes[k][i] <= 'z'
  {
  }

  lemma {:induction false} NoAlternativeMatches(t: string, alternatives: seq<string>)
    requires forall k :: 0 <= k < |alternatives| ==> !StartsWithIgnoringCase(t, alternatives[k] + ";")
    ensures MatchSuffix(t, alternatives).None?
  {
    if alternatives != [] {
      assert !StartsWithIgnoringCase(t, alternatives[0] + ";");
      NoAlternativeMatches(t, alternatives[1..]);
    }
  }
}
