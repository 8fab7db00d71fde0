/** `addressCheck` and `fieldCheck`: a street number followed by a given number
    of comma-separated fields. */
module Address {

  import opened Wrappers
  import opened Text

  /** `^([\S]+[0-9])` matches the first `k` characters: at least two, none of
      them whitespace, the last a digit. */
  predicate StreetNumberAt(s: seq<char>, k: int)
  {
    2 <= k <= |s|
    && (forall i :: 0 <= i < k ==> !IsRegexSpace(s[i]))
    && IsDigit(s[k - 1])
  }

  /** The number of characters that are not `\s` from position `i` on. */
  function NonSpaceRun(s: seq<char>, i: nat): (n: nat)
    requires i <= |s|
    ensures i + n <= |s|
    ensures forall k :: i <= k < i + n ==> !IsRegexSpace(s[k])
    ensures i + n < |s| ==> IsRegexSpace(s[i + n])
    decreases |s| - i
  {
    if i < |s| && !IsRegexSpace(s[i]) then 1 + NonSpaceRun(s, i + 1) else 0
  }

  /** The largest `j` in 2..k with `s[j - 1]` a digit. */
  function LastDigitEnd(s: seq<char>, k: nat): (r: Option<nat>)
    requires k <= |s|
    ensures r.Some? ==> 2 <= r.value <= k && IsDigit(s[r.value - 1])
    ensures r.Some? ==> forall i :: r.value <= i < k ==> !IsDigit(s[i])
    ensures r.None? ==> forall i :: 1 <= i < k ==> !IsDigit(s[i])
  {
    if k < 2 then None
    else if IsDigit(s[k - 1]) then Some(k)
    else LastDigitEnd(s, k - 1)
  }

  /** The length of the street number the anchored, greedy pattern finds: the
      longest match, or none. */
  function StreetNumberLength(s: seq<char>): (r: Option<nat>)
    ensures r.Some? ==> StreetNumberAt(s, r.value)
    ensures r.Some? ==> forall j :: r.value < j && StreetNumberAt(s, j) ==> false
    ensures r.None? ==> forall j :: !StreetNumberAt(s, j)
  {
    var run := NonSpaceRun(s, 0);
    var r := LastDigitEnd(s, run);
    assert forall j :: StreetNumberAt(s, j) ==> j <= run;
    r
  }

  /** The number of non-empty comma-separated segments of `s`: a segment
      begins at every character other than a comma that is first or follows a
      comma. */
  function FieldCount(s: seq<char>): (n: nat)
    ensures n <= |s|
  {
    SegmentsIn(s, |s|)
  }

  /** Segments beginning in the first `k` characters. */
  function SegmentsIn(s: seq<char>, k: nat): (n: nat)
    requires k <= |s|
    ensures n <= k
  {
    if k == 0 then 0
    else if s[k - 1] != ',' && (k == 1 || s[k - 2] == ',') then SegmentsIn(s, k - 1) + 1
    else SegmentsIn(s, k - 1)
  }

  /** What `fieldCheck` returns: 0 for the empty string, -1 when anything (a
      comma) is left after the last non-empty segment, the segment count
      otherwise. */
  function FieldCheck(s: seq<char>): (r: int)
    ensures r == -1 <==> |s| > 0 && s[|s| - 1] == ','
    ensures r >= 0 ==> r == FieldCount(s)
  {
    if |s| == 0 then 0
    else if s[|s| - 1] == ',' then -1
    else FieldCount(s)
  }

  /** `addressCheck`: a street number, then a trimmed remainder with exactly
      `fieldCount` fields and nothing after the last. */
  function AddressCheck(address: seq<char>, fieldCount: int): (ok: bool)
    ensures address == [] ==> !ok
    ensures (forall j :: !StreetNumberAt(address, j)) ==> !ok
    ensures ok <==>
              && StreetNumberLength(address).Some?
              && var rest := Trim(address[StreetNumberLength(address).value..]);
              && (|rest| == 0 || rest[|rest| - 1] != ',')
              && FieldCount(rest) == fieldCount
  {
    if address == [] then false
    else match StreetNumberLength(address)
      case None => false
      case Some(k) =>
        var v := FieldCheck(Trim(address[k..]));
        if v == -1 then false else v == fieldCount
  }

  /** The number of characters other than commas starting at `from`. */
  function RunLength(s: seq<char>, from: nat): (n: nat)
    requires from <= |s|
    ensures from + n <= |s|
    ensures forall i :: from <= i < from + n ==> s[i] != ','
    ensures from + n == |s| || s[from + n] == ','
    decreases |s| - from
  {
    if from == |s| || s[from] == ',' then 0 else 1 + RunLength(s, from + 1)
  }

  /** A whole segment beginning at `from` adds one to the count. */
  lemma {:induction false} SegmentsInRun(s: seq<char>, from: nat, n: nat)
    requires 0 < n && from + n <= |s|
    requires forall i :: from <= i < from + n ==> s[i] != ','
    requires from == 0 || s[from - 1] == ','
    ensures SegmentsIn(s, from + n) == SegmentsIn(s, from) + 1
  {
    if n > 1 {
      SegmentsInRun(s, from, n - 1);
    }
  }

  /** `fieldCheck` as written: `Matcher.find` with `[^,]*` from the last match
      end, moving one further after an empty match, counting the non-empty
      matches and remembering where the last one ended. */
  method FieldCheckScan(s: seq<char>) returns (counter: int)
    ensures counter == FieldCheck(s)
  {
    counter := 0;
    if |s| > 0 {
      var endIndex := 0;
      var from := 0;
      while from <= |s|
        invariant 0 <= endIndex <= from <= |s| + 1
        invariant endIndex <= |s|
        invariant endIndex > 0 ==> s[endIndex - 1] != ','
        invariant forall k :: endIndex <= k < from && k < |s| ==> s[k] == ','
        invariant 0 < from <= |s| && s[from - 1] != ',' ==> from == |s| || s[from] == ','
        invariant from <= |s| ==> counter == SegmentsIn(s, from)
        invariant from > |s| ==> counter == FieldCount(s)
        decreases |s| + 1 - from
      {
        var n := RunLength(s, from);
        if n > 0 {
          SegmentsInRun(s, from, n);
          endIndex := from + n;
          counter := counter + 1;
          from := from + n;
        } else {
          from := from + 1;
        }
      }
      if endIndex < |s| {
        counter := -1;
      }
    }
  }

  /** The count up to `k` looks at nothing past `k`. */
  lemma {:induction false} SegmentsInPrefix(s: seq<char>, t: seq<char>, k: nat)
    requires k <= |s| && k <= |t| && s[..k] == t[..k]
    ensures SegmentsIn(s, k) == SegmentsIn(t, k)
  {
    if k > 0 {
      assert s[k - 1] == s[..k][k - 1] && t[k - 1] == t[..k][k - 1];
      if k > 1 {
        assert s[k - 2] == s[..k][k - 2] && t[k - 2] == t[..k][k - 2];
      }
      assert s[..k - 1] == s[..k][..k - 1] && t[..k - 1] == t[..k][..k - 1];
      SegmentsInPrefix(s, t, k - 1);
    }
  }

  /** Counting across a comma: the segments before it and after it. */
  lemma {:induction false} SegmentsAcrossComma(a: seq<char>, b: seq<char>, j: nat)
    requires j <= |b|
    ensures SegmentsIn(a + "," + b, |a| + 1 + j) == FieldCount(a) + SegmentsIn(b, j)
  {
    var s := a + "," + b;
    if j == 0 {
      assert s[..|a|] == a[..|a|];
      SegmentsInPrefix(s, a, |a|);
    } else {
      SegmentsAcrossComma(a, b, j - 1);
      assert s[|a| + j] == b[j - 1];
      if j > 1 {
        assert s[|a| + j - 1] == b[j - 2];
      }
    }
  }

  /** A comma splits the count: the fields are those before it plus those after it. */
  lemma FieldCountSplit(a: seq<char>, b: seq<char>)
    ensures FieldCount(a + "," + b) == FieldCount(a) + FieldCount(b)
  {
    SegmentsAcrossComma(a, b, |b|);
  }

  /** A string without commas is one field, or none when empty. With
      `FieldCountSplit` this pins the count down to the non-empty
      comma-separated segments. */
  lemma FieldCountNoComma(s: seq<char>)
    requires ',' !in s
    ensures FieldCount(s) == if s == [] then 0 else 1
  {
    SegmentsInNoComma(s, |s|);
  }

  lemma {:induction false} SegmentsInNoComma(s: seq<char>, k: nat)
    requires k <= |s| && ',' !in s
    ensures SegmentsIn(s, k) == if k == 0 then 0 else 1
  {
    if k > 0 {
      SegmentsInNoComma(s, k - 1);
      assert s[k - 1] in s;
      if k > 1 {
        assert s[k - 2] in s;
      }
    }
  }

  /** Doubling a comma never changes the count. */
  lemma RepeatedCommaAddsNothing(a: seq<char>, b: seq<char>)
    ensures FieldCount(a + "," + b) == FieldCount(a + ",," + b)
  {
    FieldCountSplit(a, b);
    FieldCountSplit(a, "," + b);
    FieldCountSplit([], b);
    assert a + ",," + b == a + "," + ("," + b);
    assert [] + "," + b == "," + b;
  }

  /** The check once the street number and the trimmed remainder are known. */
  lemma AddressCheckVia(address: seq<char>, k: nat, rest: seq<char>, fieldCount: int)
    requires StreetNumberLength(address) == Some(k)
    requires Trim(address[k..]) == rest
    ensures AddressCheck(address, fieldCount) == (FieldCheck(rest) != -1 && FieldCheck(rest) == fieldCount)
  {
  }

  lemma StreetNumberOf123(s: seq<char>)
    requires |s| >= 4 && s[..4] == "123 "
    ensures StreetNumberLength(s) == Some(3)
  {
    assert s[0] == '1' && s[1] == '2' && s[2] == '3' && s[3] == ' ';
    assert NonSpaceRun(s, 3) == 0;
  }

  /** The documented U.S. example has two fields after the street number. */
  lemma TwoFieldExample()
    ensures AddressCheck("123 ABC Street, White Plains", 2)
    ensures !AddressCheck("123 ABC Street, White Plains", 3)
  {
    var s := "123 ABC Street, White Plains";
    var rest := "ABC Street, White Plains";
    StreetNumberOf123(s);
    TwoFieldRest();
    AddressCheckVia(s, 3, rest, 2);
    AddressCheckVia(s, 3, rest, 3);
  }

  lemma TwoFieldRest()
    ensures "123 ABC Street, White Plains"[3..] == " ABC Street, White Plains"
    ensures Trim(" ABC Street, White Plains") == "ABC Street, White Plains"
    ensures FieldCheck("ABC Street, White Plains") == 2
  {
    TwoFieldSuffix();
    TwoFieldTrim();
    TwoFieldCount();
  }

  lemma TwoFieldSuffix()
    ensures "123 ABC Street, White Plains"[3..] == " ABC Street, White Plains"
  {
  }

  lemma TwoFieldTrim()
    ensures Trim(" ABC Street, White Plains") == "ABC Street, White Plains"
  {
  }

  lemma TwoFieldCount()
    ensures FieldCheck("ABC Street, White Plains") == 2
  {
    var rest := "ABC Street, White Plains";
    assert SegmentsIn(rest, 8) == 1;
    assert SegmentsIn(rest, 16) == 2;
    assert SegmentsIn(rest, 24) == 2;
    assert |rest| == 24 && rest[23] == 's';
  }

  /** The documented U.K. example has three. */
  lemma ThreeFieldExample()
    ensures AddressCheck("123 ABC Street, Greenwich, London", 3)
  {
    var s := "123 ABC Street, Greenwich, London";
    StreetNumberOf123(s);
    ThreeFieldRest();
    AddressCheckVia(s, 3, "ABC Street, Greenwich, London", 3);
  }

  lemma ThreeFieldRest()
    ensures "123 ABC Street, Greenwich, London"[3..] == " ABC Street, Greenwich, London"
    ensures Trim(" ABC Street, Greenwich, London") == "ABC Street, Greenwich, London"
    ensures FieldCheck("ABC Street, Greenwich, London") == 3
  {
    ThreeFieldSuffix();
    ThreeFieldTrim();
    ThreeFieldCount();
  }

  lemma ThreeFieldSuffix()
    ensures "123 ABC Street, Greenwich, London"[3..] == " ABC Street, Greenwich, London"
  {
  }

  lemma ThreeFieldTrim()
    ensures Trim(" ABC Street, Greenwich, London") == "ABC Street, Greenwich, London"
  {
  }

  lemma ThreeFieldCount()
    ensures FieldCheck("ABC Street, Greenwich, London") == 3
  {
    var rest := "ABC Street, Greenwich, London";
    ThreeFieldCountMiddle();
    assert SegmentsIn(rest, 26) == 3;
    assert SegmentsIn(rest, 29) == 3;
    assert |rest| == 29 && rest[28] == 'n';
  }

  lemma ThreeFieldCountMiddle()
    ensures SegmentsIn("ABC Street, Greenwich, London", 23) == 3
  {
    var rest := "ABC Street, Greenwich, London";
    ThreeFieldCountHead();
    assert SegmentsIn(rest, 20) == 2;
    assert SegmentsIn(rest, 23) == 3;
  }

  lemma ThreeFieldCountHead()
    ensures SegmentsIn("ABC Street, Greenwich, London", 16) == 2
  {
    var rest := "ABC Street, Greenwich, London";
    assert SegmentsIn(rest, 4) == 1;
    assert SegmentsIn(rest, 8) == 1;
    assert SegmentsIn(rest, 12) == 2;
  }

  /** A one-digit street number is not matched: the pattern needs two characters. */
  lemma SingleDigitNumberRejected()
    ensures !AddressCheck("1 Main St, X", 2)
  {
    assert NonSpaceRun("1 Main St, X", 0) == 1;
  }

  /** A trailing comma leaves text after the last field, whatever the count. */
  lemma TrailingCommaRejected(address: seq<char>, fieldCount: int)
    requires |address| > 0 && address[|address| - 1] == ','
    ensures !AddressCheck(address, fieldCount)
  {
    match StreetNumberLength(address)
    case None =>
    case Some(k) =>
      var rest := address[k..];
      var t := Trim(rest);
      assert rest[|rest| - 1] == ',';
      assert TrailingBlanks(rest) == 0;
      if |t| > 0 {
        assert t[|t| - 1] == ',';
      }
  }
}
