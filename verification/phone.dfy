/** `phoneNumberCheck`: separators are stripped as the code's loops strip
    them, then the digits must be one block of the country's length, repeated,
    and nothing else. */
module Phone {

  import opened Wrappers
  import opened Text

  /** Deleting every occurrence of a one-character string removes that character. */
  lemma {:induction false} ReplaceCharIsRemove(s: seq<char>, c: char)
    ensures ReplaceAll(s, [c]) == RemoveChars(s, {c})
    decreases |s|
  {
    if |s| > 0 {
      ReplaceCharIsRemove(s[1..], c);
      if s[0] == c {
        assert StartsWith(s, [c]);
      } else {
        assert !StartsWith(s, [c]);
      }
    }
  }

  /** Removing two sets of characters one after the other removes their union. */
  lemma {:induction false} RemoveCharsTwice(s: seq<char>, a: set<char>, b: set<char>)
    ensures RemoveChars(RemoveChars(s, a), b) == RemoveChars(s, a + b)
    decreases |s|
  {
    if |s| > 0 {
      RemoveCharsTwice(s[1..], a, b);
      var t := RemoveChars(s, a);
      if s[0] in a {
        assert t == RemoveChars(s[1..], a);
      } else {
        assert t == [s[0]] + RemoveChars(s[1..], a);
        assert t[0] == s[0] && t[1..] == RemoveChars(s[1..], a);
        assert RemoveChars(t, b) == (if s[0] in b then [] else [s[0]]) + RemoveChars(t[1..], b);
      }
    }
  }

  /** Removing characters that do not occur changes nothing. */
  lemma {:induction false} RemoveAbsentChars(s: seq<char>, a: set<char>)
    requires forall i :: 0 <= i < |s| ==> s[i] !in a
    ensures RemoveChars(s, a) == s
    decreases |s|
  {
    if |s| > 0 {
      RemoveAbsentChars(s[1..], a);
    }
  }

  predicate IsSeparator(c: char)
  {
    c == '-' || c == ' '
  }

  /** The U.S./Canada loop from index `i` on: a '-' or ' ' at index `i` of the
      current string deletes every occurrence of that character, and the
      index moves on by three either way. Returns the stripped string and the
      characters it deleted. */
  function StripFrom(s: seq<char>, i: nat): (r: (seq<char>, set<char>))
    ensures r.1 <= {'-', ' '}
    ensures r.0 == RemoveChars(s, r.1)
    decreases |s| - i
  {
    if i >= |s| then
      RemoveAbsentChars(s, {});
      (s, {})
    else if IsSeparator(s[i]) then
      var t := ReplaceAll(s, [s[i]]);
      ReplaceCharIsRemove(s, s[i]);
      var rest := StripFrom(t, i + 3);
      RemoveCharsTwice(s, {s[i]}, rest.1);
      (rest.0, {s[i]} + rest.1)
    else
      StripFrom(s, i + 3)
  }

  /** The separators the U.S./Canada loop deletes from `s`, and what is left. */
  function StripSeparators(s: seq<char>): (r: (seq<char>, set<char>))
    ensures r.1 <= {'-', ' '}
    ensures r.0 == RemoveChars(s, r.1)
  {
    StripFrom(s, 0)
  }

  /** The loop at lines 45-50 as written, on a shrinking string. */
  method StripLoop(s: seq<char>) returns (t: seq<char>)
    ensures t == StripSeparators(s).0
    ensures forall c :: c in t ==> c in s
  {
    t := s;
    var i := 0;
    while i < |t|
      invariant StripFrom(t, i).0 == StripFrom(s, 0).0
      invariant forall c :: c in t ==> c in s
      decreases |t| - i
    {
      if IsSeparator(t[i]) {
        ReplaceCharIsRemove(t, t[i]);
        RemoveCharsMembers(t, {t[i]});
        t := ReplaceAll(t, [t[i]]);
      }
      i := i + 3;
    }
  }

  /** The UK loop at lines 82-86: the first space found deletes every space. */
  method RemoveSpacesLoop(s: seq<char>) returns (t: seq<char>)
    ensures t == RemoveChars(s, {' '})
  {
    t := s;
    var i := 0;
    while i < |t|
      invariant RemoveChars(t, {' '}) == RemoveChars(s, {' '})
      invariant forall k :: 0 <= k < i && k < |t| ==> t[k] != ' '
    {
      if t[i] == ' ' {
        ReplaceCharIsRemove(t, ' ');
        RemoveCharsTwice(t, {' '}, {' '});
        assert {' '} + {' '} == {' '};
        RemoveCharsMembers(t, {' '});
        t := ReplaceAll(t, " ");
        assert forall k :: 0 <= k < |t| ==> t[k] != ' ';
      }
      i := i + 1;
    }
    RemoveAbsentChars(t, {' '});
  }

  /** The block lengths the checks search for: nine and eleven (U.K.), ten
      (U.S. and Canada). */
  predicate BlockLength(n: nat)
  {
    n == 9 || n == 10 || n == 11
  }

  /** The rule the leftover check enforces: the digits are the first `n`-digit
      match written out one or more times, and nothing else. */
  ghost predicate RepeatedFirstBlock(digits: seq<char>, n: nat)
  {
    match FindGroup(digits, Digits(n))
    case None => false
    case Some(g) => exists k: nat :: k >= 1 && digits == Repeat(g, k)
  }

  /** `find` of `([0-9]){n}`, then the digits must vanish once every copy of the
      match is deleted. The match is all digits, so `Long.valueOf` of it
      always succeeds. */
  function BlockCheck(digits: seq<char>, n: nat): (ok: bool)
    requires BlockLength(n)
    ensures ok <==> RepeatedFirstBlock(digits, n)
    ensures ok ==> |digits| > 0 && |digits| % n == 0 && AllDigits(digits)
    ensures |digits| == n && AllDigits(digits) ==> ok
  {
    ExactBlockFound(digits, n);
    match FindGroup(digits, Digits(n))
    case None => false
    case Some(g) =>
      ReplaceAllEmptyIff(digits, g);
      assert |digits| > 0 by {
        assert MatchesAt(digits, Digits(n), FindWindow(digits, Digits(n)).value);
      }
      if ReplaceAll(digits, g) == [] then
        AcceptedShape(digits, g, n);
        assert RepeatedFirstBlock(digits, n) by {
          var k: nat :| digits == Repeat(g, k);
          assert k != 0;
        }
        true
      else
        assert !RepeatedFirstBlock(digits, n) by {
          if k: nat :| k >= 1 && digits == Repeat(g, k) {
            RepeatIsDeleted(g, k);
          }
        }
        false
  }

  /** A string of exactly `n` digits is its own match, and deleting it leaves nothing. */
  lemma ExactBlockFound(digits: seq<char>, n: nat)
    requires n > 0
    ensures |digits| == n && AllDigits(digits) ==>
              FindGroup(digits, Digits(n)) == Some(digits) && ReplaceAll(digits, digits) == []
  {
    if |digits| == n && AllDigits(digits) {
      assert digits[0..n] == digits;
      assert MatchesAt(digits, Digits(n), 0);
      assert Repeat(digits, 1) == digits;
      RepeatIsDeleted(digits, 1);
    }
  }

  /** What deleting every copy of an `n`-digit match leaves empty: whole copies of it. */
  lemma AcceptedShape(digits: seq<char>, g: seq<char>, n: nat)
    requires BlockLength(n)
    requires FindGroup(digits, Digits(n)) == Some(g)
    requires ReplaceAll(digits, g) == []
    ensures |digits| > 0 && |digits| % n == 0 && AllDigits(digits)
  {
    ReplaceAllEmptyIff(digits, g);
    var k: nat :| digits == Repeat(g, k);
    RepeatOfDigits(g, k);
    assert |g| == n;
    assert |digits| == k * n;
    assert k > 0 by {
      assert MatchesAt(digits, Digits(n), FindWindow(digits, Digits(n)).value);
    }
    MultipleMod(k, n);
  }

  lemma MultipleMod(k: nat, n: nat)
    requires BlockLength(n)
    ensures (k * n) % n == 0
  {
  }

  lemma {:induction false} RepeatOfDigits(g: seq<char>, k: nat)
    requires AllDigits(g)
    ensures AllDigits(Repeat(g, k))
  {
    if k > 0 {
      RepeatOfDigits(g, k - 1);
    }
  }

  /** The U.S. and Canadian rule: ten digits once the separators are stripped. */
  predicate NanpCheck(phone: seq<char>)
  {
    BlockCheck(StripSeparators(phone).0, 10)
  }

  /** A leading "+44" is deleted wherever it occurs and leaves nine digits to
      find; otherwise eleven. Spaces are removed either way. */
  function BritishDigits(phone: seq<char>): (r: (seq<char>, nat))
    ensures r.1 == 9 || r.1 == 11
    ensures r.1 == 9 <==> StartsWith(phone, "+44")
    ensures ' ' !in r.0
    ensures r.0 == RemoveChars(if StartsWith(phone, "+44") then ReplaceAll(phone, "+44") else phone, {' '})
  {
    if StartsWith(phone, "+44") then
      RemoveCharsMembers(ReplaceAll(phone, "+44"), {' '});
      (RemoveChars(ReplaceAll(phone, "+44"), {' '}), 9)
    else
      RemoveCharsMembers(phone, {' '});
      (RemoveChars(phone, {' '}), 11)
  }

  predicate BritishCheck(phone: seq<char>)
  {
    BlockCheck(BritishDigits(phone).0, BritishDigits(phone).1)
  }

  /** `phoneNumberCheck`. */
  function PhoneNumberCheck(phone: seq<char>, country: seq<char>): (ok: bool)
    ensures phone == [] ==> !ok
    ensures country != "U.S" && country != "Canada" && country != "UK" ==> !ok
    ensures ok && (country == "U.S" || country == "Canada") ==>
              var digits := StripSeparators(phone).0;
              AllDigits(digits) && |digits| % 10 == 0 && |digits| > 0
    ensures ok && country == "UK" ==>
              var (digits, n) := BritishDigits(phone);
              AllDigits(digits) && |digits| % n == 0 && |digits| > 0
    ensures country == "U.S" || country == "Canada" ==>
              (ok <==> phone != [] && RepeatedFirstBlock(StripSeparators(phone).0, 10))
    ensures country == "UK" ==>
              (ok <==> phone != [] && RepeatedFirstBlock(BritishDigits(phone).0, BritishDigits(phone).1))
  {
    if phone == [] then false
    else if country == "U.S" || country == "Canada" then NanpCheck(phone)
    else if country == "UK" then BritishCheck(phone)
    else false
  }

  /** Between ten and twenty digits is never a North American number: the
      digits left must be whole copies of one ten-digit block. */
  lemma ElevenToNineteenDigitsRejected(phone: seq<char>, country: seq<char>)
    requires country == "U.S" || country == "Canada"
    requires 10 < |StripSeparators(phone).0| < 20
    ensures !PhoneNumberCheck(phone, country)
  {
  }

  /** Ten digits and nothing else, after stripping, always pass. */
  lemma TenDigitsAccepted(phone: seq<char>, country: seq<char>)
    requires country == "U.S" || country == "Canada"
    requires |StripSeparators(phone).0| == 10 && AllDigits(StripSeparators(phone).0)
    ensures PhoneNumberCheck(phone, country)
  {
  }

  /** The first ten digits of a repeated block are the block itself. */
  lemma RepeatedBlockFound(block: seq<char>, k: nat)
    requires |block| == 10 && AllDigits(block) && k >= 1
    ensures FindGroup(Repeat(block, k), Digits(10)) == Some(block)
  {
    var s := Repeat(block, k);
    assert s == block + Repeat(block, k - 1);
    assert s[0..10] == block;
    assert MatchesAt(s, Digits(10), 0);
  }

  /** One ten-digit block written out any number of times passes as a North
      American number: every copy is deleted with the match. */
  lemma RepeatedBlockAccepted(block: seq<char>, k: nat, country: seq<char>)
    requires country == "U.S" || country == "Canada"
    requires |block| == 10 && AllDigits(block) && k >= 1
    ensures PhoneNumberCheck(Repeat(block, k), country)
  {
    var s := Repeat(block, k);
    RepeatOfDigits(block, k);
    StripDigits(s, 0);
    RepeatedBlockFound(block, k);
    assert RepeatedFirstBlock(s, 10);
  }

  /** Twenty digits that are not one block twice are refused, although they
      are a whole number of ten-digit blocks. */
  lemma DifferentBlocksRejected()
    ensures !PhoneNumberCheck("12345678901234567891", "U.S")
  {
    DifferentBlocksFound();
    DifferentBlocksNotRepeated();
  }

  lemma DifferentBlocksFound()
    ensures StripSeparators("12345678901234567891").0 == "12345678901234567891"
    ensures FindGroup("12345678901234567891", Digits(10)) == Some("1234567890")
  {
    var s := "12345678901234567891";
    DifferentBlocksDigits(s);
    StripDigits(s, 0);
    DifferentBlocksFirstMatch(s);
  }

  lemma DifferentBlocksDigits(s: seq<char>)
    requires s == "12345678901234567891"
    ensures AllDigits(s)
  {
    assert forall i :: 0 <= i < |s| ==> '0' <= s[i] <= '9';
  }

  lemma DifferentBlocksFirstMatch(s: seq<char>)
    requires s == "12345678901234567891"
    ensures FindGroup(s, Digits(10)) == Some("1234567890")
  {
    var g := s[0..10];
    assert g == "1234567890";
    assert forall i :: 0 <= i < |g| ==> '0' <= g[i] <= '9';
    assert MatchesAt(s, Digits(10), 0);
  }

  lemma DifferentBlocksNotRepeated()
    ensures forall k: nat :: "12345678901234567891" != Repeat("1234567890", k)
  {
    var s := "12345678901234567891";
    var g := "1234567890";
    forall k: nat
      ensures s != Repeat(g, k)
    {
      if k == 2 {
        assert Repeat(g, 2) == g + Repeat(g, 1);
        assert Repeat(g, 1) == g + Repeat(g, 0);
        assert Repeat(g, 2)[19] == '0';
      } else {
        assert |Repeat(g, k)| == k * 10;
      }
    }
  }

  /** Removing characters from a concatenation removes them from each part. */
  lemma {:induction false} RemoveCharsConcat(a: seq<char>, b: seq<char>, cs: set<char>)
    ensures RemoveChars(a + b, cs) == RemoveChars(a, cs) + RemoveChars(b, cs)
    decreases |a|
  {
    if |a| == 0 {
      assert a + b == b;
    } else {
      RemoveCharsConcat(a[1..], b, cs);
      var h := if a[0] in cs then [] else [a[0]];
      assert (a + b)[0] == a[0];
      assert (a + b)[1..] == a[1..] + b;
      assert RemoveChars(a + b, cs) == h + RemoveChars(a[1..] + b, cs);
      assert RemoveChars(a, cs) == h + RemoveChars(a[1..], cs);
    }
  }

  /** Digits alone give the loop nothing to strip. */
  lemma {:induction false} StripDigits(t: seq<char>, i: nat)
    requires AllDigits(t)
    ensures StripFrom(t, i) == (t, {})
    decreases |t| - i
  {
    if i < |t| {
      StripDigits(t, i + 3);
    }
  }

  /** Three separator-free groups joined by a separator, with the separator removed. */
  lemma JoinedRemoved(first: seq<char>, second: seq<char>, third: seq<char>, sep: char)
    requires AllDigits(first) && AllDigits(second) && AllDigits(third) && !IsDigit(sep)
    ensures RemoveChars(first + [sep] + second + [sep] + third, {sep}) == first + second + third
  {
    var p1 := first + [sep];
    var p2 := p1 + second;
    var p3 := p2 + [sep];
    assert RemoveChars([sep], {sep}) == [];
    RemoveAbsentChars(first, {sep});
    RemoveAbsentChars(second, {sep});
    RemoveAbsentChars(third, {sep});
    RemoveCharsConcat(first, [sep], {sep});
    assert RemoveChars(p1, {sep}) == first;
    RemoveCharsConcat(p1, second, {sep});
    assert RemoveChars(p2, {sep}) == first + second;
    RemoveCharsConcat(p2, [sep], {sep});
    assert RemoveChars(p3, {sep}) == first + second;
    RemoveCharsConcat(p3, third, {sep});
  }

  /** A number written `ddd-ddd-dddd` loses both dashes at index 3 and keeps its ten digits. */
  lemma {:induction false} DashedNumberStripped(area: seq<char>, exchange: seq<char>, line: seq<char>)
    requires |area| == 3 && |exchange| == 3 && |line| == 4
    requires AllDigits(area) && AllDigits(exchange) && AllDigits(line)
    ensures StripSeparators(area + "-" + exchange + "-" + line).0 == area + exchange + line
  {
    var s := area + "-" + exchange + "-" + line;
    var t := area + exchange + line;
    assert s[0] == area[0] && s[3] == '-';
    ReplaceCharIsRemove(s, '-');
    JoinedRemoved(area, exchange, line, '-');
    assert s == area + ['-'] + exchange + ['-'] + line;
    assert AllDigits(t) by {
      assert forall i :: 0 <= i < |t| ==> t[i] in area || t[i] in exchange || t[i] in line;
    }
    StripDigits(t, 6);
    assert [s[3]] == "-";
    assert ReplaceAll(s, [s[3]]) == t;
    assert StripFrom(s, 3).0 == StripFrom(t, 6).0;
  }

  /** The documented U.S. example. */
  lemma DallasExample()
    ensures PhoneNumberCheck("817-555-5555", "U.S")
  {
    DashedNumberStripped("817", "555", "5555");
    assert "817" + "-" + "555" + "-" + "5555" == "817-555-5555";
    assert AllDigits("8175555555");
    assert "817" + "555" + "5555" == "8175555555";
  }

  /** The documented Canadian example. */
  lemma TorontoExample()
    ensures PhoneNumberCheck("416-555-5555", "Canada")
  {
    DashedNumberStripped("416", "555", "5555");
    assert "416" + "-" + "555" + "-" + "5555" == "416-555-5555";
    assert AllDigits("4165555555");
    assert "416" + "555" + "5555" == "4165555555";
  }

  /** Separators only at indices the loop steps over are never stripped. */
  lemma {:induction false} SeparatorsSkipped(s: seq<char>, i: nat)
    requires forall j :: i <= j < |s| && IsSeparator(s[j]) ==> (j - i) % 3 != 0
    ensures StripFrom(s, i) == (s, {})
    decreases |s| - i
  {
    if i < |s| {
      assert !IsSeparator(s[i]);
      SeparatorsSkipped(s, i + 3);
    } else {
      RemoveAbsentChars(s, {});
    }
  }

  /** Dashes that never sit at index 0, 3, 6 or 9 are not stripped, and the
      number is refused although it holds ten digits. */
  lemma MisplacedDashesRejected()
    ensures !PhoneNumberCheck("8175-55-5555", "U.S")
  {
    MisplacedStripped();
    MisplacedNotDigits();
  }

  lemma MisplacedStripped()
    ensures StripSeparators("8175-55-5555").0 == "8175-55-5555"
  {
    var s := "8175-55-5555";
    assert forall j :: 0 <= j < |s| && IsSeparator(s[j]) ==> j == 4 || j == 7;
    SeparatorsSkipped(s, 0);
  }

  lemma MisplacedNotDigits()
    ensures !AllDigits("8175-55-5555")
  {
    assert "8175-55-5555"[4] == '-';
  }

  /** Deleting a target whose first character never occurs changes nothing. */
  lemma {:induction false} ReplaceAbsent(s: seq<char>, target: seq<char>)
    requires |target| > 0 && forall i :: 0 <= i < |s| ==> s[i] != target[0]
    ensures ReplaceAll(s, target) == s
    decreases |s|
  {
    if |s| > 0 {
      assert !StartsWith(s, target) by {
        if |target| <= |s| { assert s[..|target|][0] == s[0]; }
      }
      ReplaceAbsent(s[1..], target);
    }
  }

  /** A London number in the national format: three groups, eleven digits. */
  lemma LondonExample()
    ensures PhoneNumberCheck("020 7183 8750", "UK")
  {
    LondonParts();
    LondonDigits("020 7183 8750", "8750", "02071838750");
    LondonDigitsAreDigits();
  }

  lemma LondonParts()
    ensures "020 7183 8750" == "020" + " " + "7183" + " " + "8750"
    ensures AllDigits("8750")
  {
  }

  lemma LondonDigitsAreDigits()
    ensures AllDigits("02071838750") && |"02071838750"| == 11
  {
  }

  /** The two documented U.K. examples are refused: the first leaves twelve
      digits, the second ten after "+44", and neither is a whole number of
      blocks. */
  lemma DocumentedBritishExamplesRejected()
    ensures !PhoneNumberCheck("020 7183 87500", "UK")
    ensures !PhoneNumberCheck("+442071838750", "UK")
  {
    NationalTwelveDigits();
    InternationalTenDigits();
  }

  lemma NationalTwelveDigits()
    ensures !PhoneNumberCheck("020 7183 87500", "UK")
  {
    NationalTwelveParts();
    LondonDigits("020 7183 87500", "87500", "020718387500");
    assert |"020718387500"| == 12;
  }

  lemma NationalTwelveParts()
    ensures "020 7183 87500" == "020" + " " + "7183" + " " + "87500"
    ensures AllDigits("87500")
  {
  }

  lemma InternationalTenDigits()
    ensures !PhoneNumberCheck("+442071838750", "UK")
  {
    InternationalDigits();
    assert |"2071838750"| == 10;
  }

  lemma LondonDigits(phone: seq<char>, last: seq<char>, digits: seq<char>)
    requires AllDigits(last)
    requires phone == "020" + " " + "7183" + " " + last
    requires digits == "0207183" + last
    ensures BritishDigits(phone) == (digits, 11)
  {
    assert phone[0] == '0';
    assert !StartsWith(phone, "+44");
    assert AllDigits("020") && AllDigits("7183");
    JoinedRemoved("020", "7183", last, ' ');
    assert phone == "020" + [' '] + "7183" + [' '] + last;
    assert "020" + "7183" == "0207183";
  }

  lemma InternationalDigits()
    ensures BritishDigits("+442071838750") == ("2071838750", 9)
  {
    InternationalPrefix();
    InternationalReplaced();
    InternationalNoSpace();
  }

  lemma InternationalReplaced()
    ensures ReplaceAll("+442071838750", "+44") == "2071838750"
  {
    var s := "+442071838750";
    InternationalPrefix();
    assert s[3..] == "2071838750";
    InternationalRest();
  }

  lemma InternationalNoSpace()
    ensures RemoveChars("2071838750", {' '}) == "2071838750"
  {
    var t := "2071838750";
    assert forall i :: 0 <= i < |t| ==> '0' <= t[i] <= '9';
    RemoveAbsentChars(t, {' '});
  }

  lemma InternationalPrefix()
    ensures StartsWith("+442071838750", "+44")
  {
    assert "+442071838750"[..3] == "+44";
  }

  lemma InternationalRest()
    ensures AllDigits("2071838750")
    ensures ReplaceAll("2071838750", "+44") == "2071838750"
  {
    assert AllDigits("2071838750");
    ReplaceAbsent("2071838750", "+44");
  }
}
