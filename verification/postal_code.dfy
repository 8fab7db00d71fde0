/** `postalCodeChecker`: the code, upper-cased, must be one match of the
    country's pattern, repeated, and nothing else. */
module PostalCode {

  import opened Wrappers
  import opened Text

  /** The anchored Canadian and U.K. patterns
      `^(first)([0-9A-Z]){1,3}([\s])([0-9])(last){2}`, differing only in the
      letters refused in the first and the last two positions. */
  datatype PostcodeShape = PostcodeShape(firstBanned: set<char>, lastBanned: set<char>)

  /** `(?![DFIOQUWZ])[A-Z]` first, `(?![DFIOQU])[0-9A-Z]` last. */
  const Canadian := PostcodeShape({'D', 'F', 'I', 'O', 'Q', 'U', 'W', 'Z'},
                                  {'D', 'F', 'I', 'O', 'Q', 'U'})
  /** `[A-Z]` first, `[0-9A-Z]` last. */
  const British := PostcodeShape({}, {})

  /** The pattern matches the first `k + 5` characters, with `k` characters in
      the `{1,3}` group. */
  predicate ShapeAt(s: seq<char>, shape: PostcodeShape, k: int)
  {
    && 1 <= k <= 3 && k + 5 <= |s|
    && IsUpperLetter(s[0]) && s[0] !in shape.firstBanned
    && (forall i :: 1 <= i <= k ==> IsUpperAlnum(s[i]))
    && IsRegexSpace(s[k + 1])
    && IsDigit(s[k + 2])
    && IsUpperAlnum(s[k + 3]) && s[k + 3] !in shape.lastBanned
    && IsUpperAlnum(s[k + 4]) && s[k + 4] !in shape.lastBanned
  }

  /** The number of `[0-9A-Z]` characters from position `i` on. */
  function AlnumRun(s: seq<char>, i: nat): (n: nat)
    requires i <= |s|
    ensures i + n <= |s|
    ensures forall j :: i <= j < i + n ==> IsUpperAlnum(s[j])
    ensures i + n < |s| ==> !IsUpperAlnum(s[i + n])
    decreases |s| - i
  {
    if i < |s| && IsUpperAlnum(s[i]) then 1 + AlnumRun(s, i + 1) else 0
  }

  /** `matcher.find() ? matcher.group() : null` for an anchored shape. The
      whitespace cannot be matched by `[0-9A-Z]`, so at most one `k` fits. */
  function MatchShape(s: seq<char>, shape: PostcodeShape): (r: Option<seq<char>>)
    ensures r.Some? ==> 6 <= |r.value| <= 8 && ShapeAt(s, shape, |r.value| - 5)
                        && r.value == s[..|r.value|]
    ensures r.None? <==> forall k :: !ShapeAt(s, shape, k)
  {
    if |s| == 0 then None
    else
      var k := AlnumRun(s, 1);
      assert forall j :: ShapeAt(s, shape, j) ==> j == k;
      if ShapeAt(s, shape, k) then Some(s[..k + 5]) else None
  }

  /** The U.S. pattern: `([0-9]){5}([-])([0-9]){4}` for a ten-character code,
      `([0-9]){5}` otherwise. */
  function ZipPattern(upper: seq<char>): (p: BlockPattern)
    ensures |upper| == 10 <==> p == ZipPlusFour
    ensures |upper| != 10 <==> p == Digits(5)
  {
    if |upper| == 10 then ZipPlusFour else Digits(5)
  }

  /** The group the country's pattern finds in the upper-cased code; `None`
      for no match and for a country without a pattern. */
  function CountryMatch(upper: seq<char>, country: seq<char>): (r: Option<seq<char>>)
    ensures country != "U.S" && country != "Canada" && country != "UK" ==> r.None?
    ensures r.Some? ==> |r.value| > 0
  {
    if country == "U.S" then FindGroup(upper, ZipPattern(upper))
    else if country == "Canada" then MatchShape(upper, Canadian)
    else if country == "UK" then MatchShape(upper, British)
    else None
  }

  /** `postalCodeChecker`. */
  function PostalCodeCheck(postalCode: seq<char>, country: seq<char>): (ok: bool)
    ensures postalCode == [] ==> !ok
    ensures country != "U.S" && country != "Canada" && country != "UK" ==> !ok
    ensures ok <==>
              && postalCode != []
              && CountryMatch(ToUpper(postalCode), country).Some?
              && exists k: nat :: ToUpper(postalCode)
                                  == Repeat(CountryMatch(ToUpper(postalCode), country).value, k)
  {
    if postalCode == [] then false
    else
      var upper := ToUpper(postalCode);
      match CountryMatch(upper, country)
      case None => false
      case Some(group) =>
        ReplaceAllEmptyIff(upper, group);
        ReplaceAll(upper, group) == []
  }

  /** Letter case never matters: the code is upper-cased before any check. */
  lemma CaseNeverMatters(postalCode: seq<char>, country: seq<char>)
    ensures PostalCodeCheck(postalCode, country) == PostalCodeCheck(ToUpper(postalCode), country)
  {
    ToUpperIdempotent(postalCode);
  }

  /** A code that is exactly one match is accepted. */
  lemma {:induction false} SingleMatchAccepted(postalCode: seq<char>, country: seq<char>)
    requires postalCode != []
    requires CountryMatch(ToUpper(postalCode), country) == Some(ToUpper(postalCode))
    ensures PostalCodeCheck(postalCode, country)
  {
    var upper := ToUpper(postalCode);
    assert upper == Repeat(upper, 1);
  }

  /** The documented U.S. forms: five digits, and ZIP+4. */
  lemma ZipExamples()
    ensures PostalCodeCheck("12345", "U.S")
    ensures PostalCodeCheck("12345-1234", "U.S")
  {
    ToUpperNoLower("12345");
    assert AllDigits("12345");
    assert FindWindowFrom("12345", Digits(5), 0) == Some(0);
    assert "12345"[0..5] == "12345";
    assert ZipPattern("12345") == Digits(5);
    assert FindGroup("12345", Digits(5)) == Some("12345");
    SingleMatchAccepted("12345", "U.S");
    ToUpperNoLower("12345-1234");
    assert ZipPlusFour.Accepts("12345-1234");
    assert FindWindowFrom("12345-1234", ZipPlusFour, 0) == Some(0);
    assert "12345-1234"[0..10] == "12345-1234";
    assert FindGroup("12345-1234", ZipPlusFour) == Some("12345-1234");
    SingleMatchAccepted("12345-1234", "U.S");
  }

  /** A ten-character U.S. code must be ZIP+4, so ten digits are refused. */
  lemma TenDigitsRejected()
    ensures !PostalCodeCheck("1234567890", "U.S")
  {
    ToUpperNoLower("1234567890");
    assert !ZipPlusFour.Accepts("1234567890");
    assert FindWindowFrom("1234567890", ZipPlusFour, 0) == None;
  }

  /** A character left over after deleting the match makes the code invalid. */
  lemma ExtraCharacterRejected()
    ensures !PostalCodeCheck("12345$", "U.S")
  {
    ToUpperNoLower("12345$");
    assert "12345$"[0..5] == "12345";
    assert AllDigits("12345");
    assert FindWindowFrom("12345$", Digits(5), 0) == Some(0);
    assert FindGroup("12345$", Digits(5)) == Some("12345");
    assert "12345$"[5..] == "$";
    assert ReplaceAll("12345$", "12345") == "$";
  }

  /** Deleting every occurrence of the match also deletes repeats of it, so
      the same ZIP code written three times over passes. */
  lemma RepeatedZipAccepted()
    ensures PostalCodeCheck("123451234512345", "U.S")
  {
    var s := "123451234512345";
    RepeatedZipFacts();
    assert CountryMatch(ToUpper(s), "U.S") == Some("12345");
    assert ToUpper(s) == Repeat("12345", 3);
  }

  lemma RepeatedZipFacts()
    ensures ToUpper("123451234512345") == "123451234512345"
    ensures FindGroup("123451234512345", Digits(5)) == Some("12345")
    ensures "123451234512345" == Repeat("12345", 3)
  {
    RepeatedZipUpper();
    RepeatedZipGroup();
    RepeatedZipRepeat();
  }

  lemma RepeatedZipUpper()
    ensures ToUpper("123451234512345") == "123451234512345"
  {
    var s := "123451234512345";
    assert forall i :: 0 <= i < |s| ==> '0' <= s[i] <= '9';
    ToUpperNoLower(s);
  }

  lemma RepeatedZipGroup()
    ensures FindGroup("123451234512345", Digits(5)) == Some("12345")
  {
    var s := "123451234512345";
    assert s[0..5] == "12345";
    assert AllDigits("12345");
    assert FindWindowFrom(s, Digits(5), 0) == Some(0);
  }

  lemma RepeatedZipRepeat()
    ensures "123451234512345" == Repeat("12345", 3)
  {
    assert Repeat("12345", 3) == "12345" + "12345" + "12345";
  }

  /** The documented Canadian example. */
  lemma CanadianExample()
    ensures PostalCodeCheck("A1A 1A1", "Canada")
  {
    var s := "A1A 1A1";
    ToUpperNoLower(s);
    CanadianExampleShape();
    assert s[..7] == s;
    SingleMatchAccepted(s, "Canada");
  }

  lemma CanadianExampleShape()
    ensures AlnumRun("A1A 1A1", 1) == 2
    ensures ShapeAt("A1A 1A1", Canadian, 2)
  {
    var s := "A1A 1A1";
    assert AlnumRun(s, 3) == 0;
    assert AlnumRun(s, 2) == 1;
  }

  /** The same code typed in lower case. */
  lemma CanadianLowerCaseExample()
    ensures PostalCodeCheck("a1a 1a1", "Canada")
  {
    CanadianExample();
    assert ToUpper("a1a 1a1") == "A1A 1A1";
    CaseNeverMatters("a1a 1a1", "Canada");
  }

  /** The documented U.K. example. */
  lemma BritishExample()
    ensures PostalCodeCheck("SW1A 1AA", "UK")
  {
    var s := "SW1A 1AA";
    ToUpperNoLower(s);
    assert AlnumRun(s, 1) == 3;
    assert ShapeAt(s, British, 3);
    assert s[..8] == s;
    SingleMatchAccepted(s, "UK");
  }

  /** A Canadian code may not begin with W, though a British one may. */
  lemma CanadaRefusesLeadingW()
    ensures !PostalCodeCheck("W1A 1A1", "Canada")
    ensures PostalCodeCheck("W1A 1A1", "UK")
  {
    var s := "W1A 1A1";
    ToUpperNoLower(s);
    assert AlnumRun(s, 1) == 2;
    assert !ShapeAt(s, Canadian, 2);
    assert ShapeAt(s, British, 2);
    assert s[..7] == s;
    SingleMatchAccepted(s, "UK");
  }
}
