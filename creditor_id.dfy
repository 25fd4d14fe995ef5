/** SEPA Creditor Identifiers and `calculateRabobankCreditorId`
    (classes/DirectDebit.php).

    A creditor identifier is a two-letter country code, two check digits, a
    three-character creditor business code and a national identifier. The
    check digits follow ISO 7064 MOD 97-10, as in ISO 13616 (IBAN): the
    national identifier, then the country code and the check digits, with
    every letter written as its number (A = 10, ..., Z = 35), read as one
    decimal number, leaves 1 modulo 97. The creditor business code does not
    take part in the check. For a Dutch creditor the national identifier is
    the eight-digit KvK (Chamber of Commerce) number followed by a four-digit
    location number. */
module CreditorId {

  import opened Decimal

  // ---------------------------------------------------------------------
  // the reference: what a valid identifier is
  // ---------------------------------------------------------------------

  predicate IsUpperAlpha(c: char) {
    'A' <= c <= 'Z'
  }

  predicate IsUpperAlphaNum(c: char) {
    IsDigit(c) || IsUpperAlpha(c)
  }

  predicate IsUpperAlphaNums(s: string) {
    forall i :: 0 <= i < |s| ==> IsUpperAlphaNum(s[i])
  }

  /** A digit stands for itself, a letter for its number 10..35. */
  function CharDigits(c: char): (r: string)
    requires IsUpperAlphaNum(c)
    ensures IsDigits(r) && 1 <= |r| <= 2
    ensures IsDigit(c) <==> |r| == 1
    ensures IsDigit(c) ==> r == [c]
    ensures IsUpperAlpha(c) ==> Value(r) == c as int - 'A' as int + 10
  {
    if IsDigit(c) then [c] else TwoDigits(c as int - 'A' as int + 10)
  }

  /** Every character replaced by its digits. */
  function Digitize(s: string): (r: string)
    requires IsUpperAlphaNums(s)
    ensures IsDigits(r) && |s| <= |r| <= 2 * |s|
  {
    if s == [] then []
    else
      var r := CharDigits(s[0]) + Digitize(s[1..]);
      DigitsConcat(CharDigits(s[0]), Digitize(s[1..]));
      r
  }

  /** The ISO 7064 MOD 97-10 check on a creditor identifier. */
  predicate IsValidCreditorId(id: string) {
    && 8 <= |id| <= 35
    && IsUpperAlpha(id[0]) && IsUpperAlpha(id[1])
    && IsDigit(id[2]) && IsDigit(id[3])
    && IsUpperAlphaNums(id[4..])
    && IsUpperAlphaNums(id[7..] + id[..4])
    && Value(Digitize(id[7..] + id[..4])) % 97 == 1
  }

  lemma {:induction false} DigitizeConcat(a: string, b: string)
    requires IsUpperAlphaNums(a) && IsUpperAlphaNums(b)
    ensures IsUpperAlphaNums(a + b)
    ensures Digitize(a + b) == Digitize(a) + Digitize(b)
  {
    var ab := a + b;
    assert IsUpperAlphaNums(ab) by {
      forall i | 0 <= i < |ab| ensures IsUpperAlphaNum(ab[i]) {
        if i < |a| { assert ab[i] == a[i]; } else { assert ab[i] == b[i - |a|]; }
      }
    }
    if a == [] {
      assert ab == b;
    } else {
      assert ab[0] == a[0];
      assert ab[1..] == a[1..] + b;
      DigitizeConcat(a[1..], b);
    }
  }

  /** A digit string is its own digitized form. */
  lemma {:induction false} DigitizeDigits(s: string)
    requires IsDigits(s)
    ensures IsUpperAlphaNums(s) && Digitize(s) == s
  {
    if s != [] {
      DigitizeDigits(s[1..]);
      assert [s[0]] + s[1..] == s;
    }
  }

  /** A Dutch identifier with two check digits passes the check exactly
      when those digits bring the national identifier followed by "232100"
      to 1 modulo 97. */
  lemma DutchIdValid(id: string, national: string, cd: string)
    requires IsDigits(national) && 1 <= |national| <= 28
    requires IsDigits(cd) && |cd| == 2
    requires id == "NL" + cd + ("ZZZ" + national)
    ensures IsDigits(national + "232100")
    ensures IsUpperAlphaNums(id[7..] + id[..4])
    ensures Value(Digitize(id[7..] + id[..4])) == Value(national + "232100") + Value(cd)
    ensures IsValidCreditorId(id) <==> (Value(national + "232100") + Value(cd)) % 97 == 1
  {
    DutchLayout(national, cd);
    DigitizeDutch(national, cd);
    CheckedValue(national, cd);
    var t := id[7..] + id[..4];
    assert t == national + ("NL" + cd);
    assert 8 <= |id| <= 35;
    assert IsUpperAlpha(id[0]) && IsUpperAlpha(id[1]);
    assert IsDigit(id[2]) && IsDigit(id[3]);
    assert IsUpperAlphaNums(id[4..]);
    assert IsUpperAlphaNums(t);
    assert Digitize(t) == national + ("2321" + cd);
    assert Value(Digitize(t)) == Value(national + "232100") + Value(cd);
  }

  /** With a single character between "NL" and "ZZZ", the fourth character
      is a letter where a check digit belongs. */
  lemma OneCheckDigitInvalid(id: string, d: string, rest: string)
    requires |d| == 1
    requires id == "NL" + d + ("ZZZ" + rest)
    ensures !IsValidCreditorId(id)
  {
    assert id[3] == 'Z';
  }

  /** Where the parts of a Dutch identifier sit. */
  lemma DutchLayout(national: string, cd: string)
    requires IsDigits(national) && 1 <= |national| <= 28
    requires IsDigits(cd) && |cd| == 2
    ensures var id := "NL" + cd + ("ZZZ" + national);
      && 8 <= |id| <= 35
      && id[7..] == national && id[..4] == "NL" + cd && id[4..] == "ZZZ" + national
      && IsUpperAlpha(id[0]) && IsUpperAlpha(id[1]) && IsDigit(id[2]) && IsDigit(id[3])
      && IsUpperAlphaNums(id[4..])
  {
    var id := "NL" + cd + ("ZZZ" + national);
    assert id[7..] == national;
    assert id[..4] == "NL" + cd;
    assert id[4..] == "ZZZ" + national;
    assert id[2] == cd[0] && id[3] == cd[1];
    DigitizeDigits(national);
    assert IsUpperAlphaNums("ZZZ");
    DigitizeConcat("ZZZ", national);
  }

  /** The digits the check reads from a Dutch identifier. */
  lemma DigitizeDutch(national: string, cd: string)
    requires IsDigits(national) && IsDigits(cd)
    ensures IsUpperAlphaNums(national + ("NL" + cd))
    ensures Digitize(national + ("NL" + cd)) == national + ("2321" + cd)
  {
    DigitizeDigits(national);
    DigitizeNL(cd);
    DigitizeConcat(national, "NL" + cd);
  }

  /** The country code and check digits of a Dutch identifier, digitized. */
  lemma DigitizeNL(cd: string)
    requires IsDigits(cd)
    ensures IsUpperAlphaNums("NL" + cd)
    ensures Digitize("NL" + cd) == "2321" + cd
  {
    DigitizeDigits(cd);
    CountryCodeNL();
    DigitizeConcat("NL", cd);
  }

  /** N is 23 and L is 21. */
  lemma CountryCodeNL()
    ensures IsUpperAlphaNums("NL") && Digitize("NL") == "2321"
  {
    assert "NL"[1..] == "L" && "L"[1..] == [];
    assert CharDigits('N') == "23";
    assert CharDigits('L') == "21";
  }

  /** The numbers written by the literals of the check. */
  lemma CheckLiterals()
    ensures IsDigits("2321") && Value("2321") == 2321
    ensures IsDigits("232100") && Value("232100") == 232100
    ensures Pow10(2) == 100 && Pow10(4) == 10000 && Pow10(6) == 1000000
  {
    SuffixValue();
    assert "2321"[..3] == "232";
    assert "232"[..2] == "23";
    assert "23"[..1] == "2";
    assert "2"[..0] == "";
  }

  /** Reading national ++ "2321" ++ cd adds cd to national ++ "232100". */
  lemma CheckedValue(national: string, cd: string)
    requires IsDigits(national) && IsDigits(cd) && |cd| == 2
    ensures IsDigits(national + ("2321" + cd)) && IsDigits(national + "232100")
    ensures Value(national + ("2321" + cd)) == Value(national + "232100") + Value(cd)
  {
    CheckLiterals();
    var v := Value(national);
    assert national + ("2321" + cd) == (national + "2321") + cd;
    ValueConcat(national, "2321");
    assert Value(national + "2321") == v * 10000 + 2321;
    ValueConcat(national + "2321", cd);
    assert Value(national + "2321" + cd) == (v * 10000 + 2321) * 100 + Value(cd);
    ValueConcat(national, "232100");
    assert Value(national + "232100") == v * 1000000 + 232100;
  }

  // ---------------------------------------------------------------------
  // calculateRabobankCreditorId, as written
  // ---------------------------------------------------------------------

  /** The number the source reduces modulo 97: the KvK number, the location
      and "232100" ("NL" as 23 21, then "00" for the check digits) written
      one after the other and read as one integer. */
  function CheckNumber(kvk: nat, location: string): (n: nat)
    requires IsDigits(location)
  {
    DigitsConcat(NatToDecimal(kvk), location);
    DigitsConcat(NatToDecimal(kvk) + location, "232100");
    Value(NatToDecimal(kvk) + location + "232100")
  }

  /** `98 - N % 97`: the value that brings N to 1 modulo 97. */
  function CheckValue(n: nat): (c: nat)
    ensures 2 <= c <= 98
    ensures (n + c) % 97 == 1
  {
    98 - n % 97
  }

  /** CheckNumber as arithmetic on the KvK number and the location. */
  lemma CheckNumberValue(kvk: nat, location: string)
    requires IsDigits(location)
    ensures CheckNumber(kvk, location) == (kvk * Pow10(|location|) + Value(location)) * 1000000 + 232100
  {
    var k := NatToDecimal(kvk);
    ValueOfNatToDecimal(kvk);
    ValueConcat(k, location);
    ValueConcat(k + location, "232100");
    SuffixValue();
    assert Value(k + location + "232100") == Value(k + location) * 1000000 + 232100;
  }

  /** "232100" read as a number, and the shift it causes. */
  lemma SuffixValue()
    ensures IsDigits("232100") && Value("232100") == 232100
    ensures Pow10(|"232100"|) == 1000000
  {
    assert "232100"[..5] == "23210";
    assert "23210"[..4] == "2321";
    assert "2321"[..3] == "232";
    assert "232"[..2] == "23";
    assert "23"[..1] == "2";
    assert "2"[..0] == "";
  }

  /** `calculateRabobankCreditorId` as written: NL, the check value computed
      over the KvK number, the location and 232100 and printed without
      padding, ZZZ, the KvK number and 0000, so the national identifier ends
      in "0000" whatever the location. */
  function RabobankCreditorId(kvk: nat, location: string): (r: string)
    requires IsDigits(location)
    ensures |r| >= 3 + 3 + |NatToDecimal(kvk)| + 4
    ensures r[..2] == "NL"
    ensures var tail := "ZZZ" + NatToDecimal(kvk) + "0000";
      && r[|r| - |tail|..] == tail
      && var check := r[2..|r| - |tail|];
      && 1 <= |check| <= 2 && IsDigits(check)
      && (|check| == 2 ==> check[0] != '0')
      && (|check| == 1 <==> CheckValue(CheckNumber(kvk, location)) < 10)
      && Value(check) == CheckValue(CheckNumber(kvk, location))
      && (CheckNumber(kvk, location) + Value(check)) % 97 == 1
  {
    var c := CheckValue(CheckNumber(kvk, location));
    var check := NatToDecimal(c);
    var tail := "ZZZ" + NatToDecimal(kvk) + "0000";
    var r := "NL" + check + tail;
    ValueOfNatToDecimal(c);
    assert r[2..|r| - |tail|] == check;
    r
  }

  /** Two locations for the same KvK number give identifiers that differ at
      most in their check digits. */
  lemma LocationOnlyAffectsCheckDigits(kvk: nat, location1: string, location2: string)
    requires IsDigits(location1) && IsDigits(location2)
    ensures var r1, r2 := RabobankCreditorId(kvk, location1), RabobankCreditorId(kvk, location2);
      var k := 3 + |NatToDecimal(kvk)| + 4;
      && |r1| >= k + 3 && |r2| >= k + 3
      && r1[..2] == r2[..2]
      && r1[|r1| - k..] == r2[|r2| - k..]
  {
    var tail := "ZZZ" + NatToDecimal(kvk) + "0000";
    assert |tail| == 3 + |NatToDecimal(kvk)| + 4;
  }

  /** When the printed identifier passes the check: its check value must
      have two digits and must also suit the location "0000" that is
      printed. */
  lemma AsWrittenValidity(kvk: nat, location: string)
    requires IsDigits(location)
    requires |NatToDecimal(kvk)| <= 24
    ensures var c := CheckValue(CheckNumber(kvk, location));
      IsValidCreditorId(RabobankCreditorId(kvk, location)) <==>
        c >= 10 && (CheckNumber(kvk, "0000") + c) % 97 == 1
  {
    if CheckValue(CheckNumber(kvk, location)) < 10 {
      ShortCheckValueInvalid(kvk, location);
    } else {
      TwoDigitCheckValidity(kvk, location);
    }
  }

  lemma ShortCheckValueInvalid(kvk: nat, location: string)
    requires IsDigits(location)
    requires CheckValue(CheckNumber(kvk, location)) < 10
    ensures !IsValidCreditorId(RabobankCreditorId(kvk, location))
  {
    var r := RabobankCreditorId(kvk, location);
    AsWrittenLayout(kvk, location);
    OneCheckDigitInvalid(r, NatToDecimal(CheckValue(CheckNumber(kvk, location))), NatToDecimal(kvk) + "0000");
  }

  lemma TwoDigitCheckValidity(kvk: nat, location: string)
    requires IsDigits(location)
    requires |NatToDecimal(kvk)| <= 24
    requires CheckValue(CheckNumber(kvk, location)) >= 10
    ensures var c := CheckValue(CheckNumber(kvk, location));
      IsValidCreditorId(RabobankCreditorId(kvk, location)) <==> (CheckNumber(kvk, "0000") + c) % 97 == 1
  {
    var c := CheckValue(CheckNumber(kvk, location));
    var r := RabobankCreditorId(kvk, location);
    var cd := NatToDecimal(c);
    var national := NatToDecimal(kvk) + "0000";
    AsWrittenLayout(kvk, location);
    assert r == "NL" + cd + ("ZZZ" + national);
    ZerosValue();
    DigitsConcat(NatToDecimal(kvk), "0000");
    ValueOfNatToDecimal(c);
    assert |cd| == 2 && Value(cd) == c;
    DutchIdValid(r, national, cd);
    CheckNumberUnfolded(kvk, "0000");
    assert Value(national + "232100") == CheckNumber(kvk, "0000");
  }

  /** The printed identifier, grouped as country code, check value, and
      business code followed by the national identifier. */
  lemma AsWrittenLayout(kvk: nat, location: string)
    requires IsDigits(location)
    ensures RabobankCreditorId(kvk, location) ==
      "NL" + NatToDecimal(CheckValue(CheckNumber(kvk, location))) + ("ZZZ" + (NatToDecimal(kvk) + "0000"))
  {
  }

  lemma CheckNumberUnfolded(kvk: nat, location: string)
    requires IsDigits(location)
    ensures IsDigits(NatToDecimal(kvk) + location + "232100")
    ensures CheckNumber(kvk, location) == Value(NatToDecimal(kvk) + location + "232100")
  {
  }

  /** Finding 1: a check value below 10 is printed as one digit, so the
      identifier is one character short and the creditor business code
      slides into the check-digit field. For KvK 30000000 and location 0000
      the check value is 5. */
  lemma UnpaddedCheckValue()
    ensures CheckValue(CheckNumber(30000000, "0000")) == 5
    ensures !IsValidCreditorId(RabobankCreditorId(30000000, "0000"))
  {
    ExampleCheckNumbers();
    AsWrittenValidity(30000000, "0000");
  }

  /** Finding 2: the check value is computed over the location, but the
      identifier carries "0000" in its place. For KvK 12345678 and location
      0001 the source prints check value 42; the identifier it prints would
      need 69. */
  lemma DroppedLocation()
    ensures CheckValue(CheckNumber(12345678, "0001")) == 42
    ensures CheckValue(CheckNumber(12345678, "0000")) == 69
    ensures !IsValidCreditorId(RabobankCreditorId(12345678, "0001"))
  {
    ExampleCheckNumbers();
    AsWrittenValidity(12345678, "0001");
  }

  /** The numbers behind the two examples above. */
  lemma ExampleCheckNumbers()
    ensures CheckNumber(30000000, "0000") == 300000000000232100
    ensures CheckNumber(12345678, "0000") == 123456780000232100
    ensures CheckNumber(12345678, "0001") == 123456780001232100
    ensures |NatToDecimal(30000000)| == 8 && |NatToDecimal(12345678)| == 8
  {
    ZerosValue();
    CheckNumberValue(30000000, "0000");
    CheckNumberValue(12345678, "0000");
    CheckNumberValue(12345678, "0001");
  }

  lemma ZerosValue()
    ensures IsDigits("0000") && Value("0000") == 0
    ensures IsDigits("0001") && Value("0001") == 1
    ensures Pow10(4) == 10000
  {
    ValueOfZeros("0000");
    LeadingZeros("000", "1");
    assert "000" + "1" == "0001";
  }

  // ---------------------------------------------------------------------
  // the identifier the source evidently means
  // ---------------------------------------------------------------------

  /** The Dutch creditor identifier: two check digits, zero-padded, and the
      location number after the KvK number. */
  function CreditorIdentifier(kvk: nat, location: string): (r: string)
    requires IsDigits(location)
    requires |NatToDecimal(kvk)| + |location| <= 28
    ensures |r| == 7 + |NatToDecimal(kvk)| + |location|
    ensures r[..2] == "NL" && IsDigits(r[2..4])
    ensures Value(r[2..4]) == CheckValue(CheckNumber(kvk, location))
    ensures r[4..] == "ZZZ" + NatToDecimal(kvk) + location
  {
    var cd := TwoDigits(CheckValue(CheckNumber(kvk, location)));
    var r := "NL" + cd + ("ZZZ" + (NatToDecimal(kvk) + location));
    assert r[2..4] == cd;
    assert r[4..] == "ZZZ" + NatToDecimal(kvk) + location;
    r
  }

  /** Every identifier the corrected computation produces passes the
      MOD 97-10 check. */
  lemma CreditorIdentifierIsValid(kvk: nat, location: string)
    requires IsDigits(location)
    requires |NatToDecimal(kvk)| + |location| <= 28
    ensures IsValidCreditorId(CreditorIdentifier(kvk, location))
  {
    var n := CheckNumber(kvk, location);
    var cd := TwoDigits(CheckValue(n));
    DigitsConcat(NatToDecimal(kvk), location);
    CheckNumberUnfolded(kvk, location);
    CheckValueBalances(n);
    SameRemainder(n + Value(cd), n + CheckValue(n));
    DutchIdChecked(NatToDecimal(kvk) + location, n, cd);
  }

  lemma CheckValueBalances(n: nat)
    ensures CheckValue(n) < 100 && (n + CheckValue(n)) % 97 == 1
  {
  }

  lemma SameRemainder(x: int, y: int)
    requires x == y && y % 97 == 1
    ensures x % 97 == 1
  {
  }

  /** A Dutch identifier whose check digits balance the number the check
      reads is valid. */
  lemma DutchIdChecked(national: string, n: nat, cd: string)
    requires IsDigits(national) && 1 <= |national| <= 28
    requires IsDigits(national + "232100") && n == Value(national + "232100")
    requires IsDigits(cd) && |cd| == 2 && (n + Value(cd)) % 97 == 1
    ensures IsValidCreditorId("NL" + cd + ("ZZZ" + national))
  {
    var id := "NL" + cd + ("ZZZ" + national);
    DutchIdValid(id, national, cd);
    SameRemainder(Value(Digitize(id[7..] + id[..4])), n + Value(cd));
  }

  /** Where the source's output is right: with location "0000" and a check
      value of two digits it is the corrected identifier. */
  lemma AsWrittenAgreesWhenLocationIsZero(kvk: nat)
    requires CheckValue(CheckNumber(kvk, "0000")) >= 10
    requires |NatToDecimal(kvk)| <= 24
    ensures RabobankCreditorId(kvk, "0000") == CreditorIdentifier(kvk, "0000")
  {
    NatToDecimalTwoDigits(CheckValue(CheckNumber(kvk, "0000")));
  }
}
