/** Character classes and string operations of java.lang.String and
    java.util.regex that the validators rely on, written out for the exact
    patterns the application uses. Strings are sequences of characters. */
module Text {

  import opened Wrappers

  /** `[0-9]` in a Java regex: ASCII digits only. */
  predicate IsDigit(c: char)
  {
    '0' <= c <= '9'
  }

  /** `[A-Z]` in a Java regex. */
  predicate IsUpperLetter(c: char)
  {
    'A' <= c <= 'Z'
  }

  /** `[0-9A-Z]` in a Java regex. */
  predicate IsUpperAlnum(c: char)
  {
    IsDigit(c) || IsUpperLetter(c)
  }

  /** `\s` in a Java regex (no UNICODE_CHARACTER_CLASS flag): [ \t\n\x0B\f\r]. */
  predicate IsRegexSpace(c: char)
  {
    c == ' ' || c == '\t' || c == '\n' || c == '\U{000B}' || c == '\U{000C}' || c == '\r'
  }

  /** Every character is `[0-9]`; written recursively so that it evaluates on literals. */
  predicate AllDigits(s: seq<char>)
    ensures AllDigits(s) <==> forall i :: 0 <= i < |s| ==> IsDigit(s[i])
  {
    |s| == 0 || (IsDigit(s[0]) && AllDigits(s[1..]))
  }

  /** String.toUpperCase on the ASCII range. */
  function UpperChar(c: char): (u: char)
    ensures IsUpperLetter(u) || u == c
    ensures !IsUpperLetter(c) && !('a' <= c <= 'z') ==> u == c
  {
    if 'a' <= c <= 'z' then (c as int - 'a' as int + 'A' as int) as char else c
  }

  function ToUpper(s: seq<char>): (u: seq<char>)
    ensures |u| == |s|
    ensures forall i :: 0 <= i < |s| ==> u[i] == UpperChar(s[i])
  {
    seq(|s|, i requires 0 <= i < |s| => UpperChar(s[i]))
  }

  /** Upper-casing twice is upper-casing once. */
  lemma ToUpperIdempotent(s: seq<char>)
    ensures ToUpper(ToUpper(s)) == ToUpper(s)
  {
  }

  /** A string with no lower-case ASCII letter is its own upper case. */
  lemma ToUpperNoLower(s: seq<char>)
    requires forall i :: 0 <= i < |s| ==> !('a' <= s[i] <= 'z')
    ensures ToUpper(s) == s
  {
  }

  /** String.startsWith. */
  predicate StartsWith(s: seq<char>, prefix: seq<char>)
  {
    |prefix| <= |s| && s[..|prefix|] == prefix
  }

  /** `s.replace(target, "")`: scans left to right and deletes every
      non-overlapping occurrence of `target`; an empty target changes nothing. */
  function ReplaceAll(s: seq<char>, target: seq<char>): (r: seq<char>)
    ensures |r| <= |s|
    decreases |s|
  {
    if |target| == 0 then s
    else if |s| == 0 then []
    else if StartsWith(s, target) then ReplaceAll(s[|target|..], target)
    else [s[0]] + ReplaceAll(s[1..], target)
  }

  /** `k` copies of `t` written one after another. */
  function Repeat(t: seq<char>, k: nat): (r: seq<char>)
    ensures |r| == k * |t|
  {
    if k == 0 then [] else t + Repeat(t, k - 1)
  }

  /** Deleting every occurrence of a non-empty target leaves nothing exactly
      when the string is the target repeated some number of times. */
  lemma {:induction false} ReplaceAllEmptyIff(s: seq<char>, target: seq<char>)
    requires |target| > 0
    ensures ReplaceAll(s, target) == [] <==> exists k: nat :: s == Repeat(target, k)
    decreases |s|
  {
    if ReplaceAll(s, target) == [] {
      var k := RepeatCount(s, target);
      assert s == Repeat(target, k);
    } else {
      forall k: nat | s == Repeat(target, k)
        ensures false
      {
        RepeatIsDeleted(target, k);
      }
    }
  }

  /** The number of copies of `target` that make up `s`, when deleting them
      leaves nothing. */
  lemma {:induction false} RepeatCount(s: seq<char>, target: seq<char>) returns (k: nat)
    requires |target| > 0
    requires ReplaceAll(s, target) == []
    ensures s == Repeat(target, k)
    decreases |s|
  {
    if |s| == 0 {
      k := 0;
    } else {
      assert StartsWith(s, target);
      var k' := RepeatCount(s[|target|..], target);
      k := k' + 1;
      calc {
        s;
        s[..|target|] + s[|target|..];
        target + Repeat(target, k');
      }
    }
  }

  lemma {:induction false} RepeatIsDeleted(target: seq<char>, k: nat)
    requires |target| > 0
    ensures ReplaceAll(Repeat(target, k), target) == []
  {
    if k > 0 {
      var s := Repeat(target, k);
      assert s[..|target|] == target;
      assert s[|target|..] == Repeat(target, k - 1);
      RepeatIsDeleted(target, k - 1);
    }
  }

  /** The number of leading characters at or below U+0020. */
  function LeadingBlanks(s: seq<char>): (n: nat)
    ensures n <= |s|
    ensures forall i :: 0 <= i < n ==> s[i] <= ' '
    ensures n < |s| ==> s[n] > ' '
  {
    if |s| > 0 && s[0] <= ' ' then 1 + LeadingBlanks(s[1..]) else 0
  }

  /** The number of trailing characters at or below U+0020. */
  function TrailingBlanks(s: seq<char>): (n: nat)
    ensures n <= |s|
    ensures forall i :: |s| - n <= i < |s| ==> s[i] <= ' '
    ensures n < |s| ==> s[|s| - n - 1] > ' '
  {
    if |s| > 0 && s[|s| - 1] <= ' ' then 1 + TrailingBlanks(s[..|s| - 1]) else 0
  }

  /** String.trim: removes every leading and trailing character at or below U+0020. */
  function Trim(s: seq<char>): (r: seq<char>)
    ensures |r| <= |s|
    ensures |r| > 0 ==> r[0] > ' ' && r[|r| - 1] > ' '
    ensures LeadingBlanks(s) + |r| <= |s| && r == s[LeadingBlanks(s)..LeadingBlanks(s) + |r|]
    ensures forall i :: LeadingBlanks(s) + |r| <= i < |s| ==> s[i] <= ' '
  {
    var lead := LeadingBlanks(s);
    var trail := TrailingBlanks(s[lead..]);
    assert lead + trail < |s| ==> s[lead..][|s| - lead - trail - 1] == s[|s| - trail - 1];
    TrimSlice(s, lead, trail);
    s[lead..|s| - trail]
  }

  /** Cutting `lead` characters off the front and `trail` off the back, when
      the characters next to both cuts are visible. */
  lemma TrimSlice(s: seq<char>, lead: nat, trail: nat)
    requires lead + trail <= |s|
    requires lead < |s| ==> s[lead] > ' '
    requires lead + trail < |s| ==> s[|s| - trail - 1] > ' '
    ensures var r := s[lead..|s| - trail];
            && (|r| > 0 ==> r[0] > ' ' && r[|r| - 1] > ' ')
            && r == s[lead..lead + |r|]
  {
  }

  /** Every occurrence of the characters in `cs` deleted, everything else kept in order. */
  function RemoveChars(s: seq<char>, cs: set<char>): (r: seq<char>)
    ensures |r| <= |s|
  {
    if |s| == 0 then []
    else (if s[0] in cs then [] else [s[0]]) + RemoveChars(s[1..], cs)
  }

  /** What survives the removal: exactly the characters of `s` outside `cs`. */
  lemma {:induction false} RemoveCharsMembers(s: seq<char>, cs: set<char>)
    ensures forall c :: c in RemoveChars(s, cs) <==> c in s && c !in cs
    decreases |s|
  {
    if |s| > 0 {
      RemoveCharsMembers(s[1..], cs);
      assert forall c :: c in s <==> c == s[0] || c in s[1..];
    }
  }

  /** The unanchored fixed-width patterns the validators search for:
      `([0-9]){n}` and `([0-9]){5}([-])([0-9]){4}`. */
  datatype BlockPattern = Digits(n: nat) | ZipPlusFour {

    function Width(): nat
    {
      match this
      case Digits(n) => n
      case ZipPlusFour => 10
    }

    predicate Accepts(w: seq<char>)
    {
      match this
      case Digits(n) => |w| == n && AllDigits(w)
      case ZipPlusFour => |w| == 10 && AllDigits(w[..5]) && w[5] == '-' && AllDigits(w[6..])
    }
  }

  /** The pattern matches the characters starting at `i`. */
  predicate MatchesAt(s: seq<char>, p: BlockPattern, i: int)
  {
    0 <= i && i + p.Width() <= |s| && p.Accepts(s[i..i + p.Width()])
  }

  /** `Matcher.find()` for a fixed-width pattern: the leftmost position where it matches. */
  function FindWindow(s: seq<char>, p: BlockPattern): (r: Option<nat>)
    ensures r.Some? ==> MatchesAt(s, p, r.value)
    ensures r.Some? ==> forall i :: 0 <= i < r.value ==> !MatchesAt(s, p, i)
    ensures r.None? ==> forall i :: !MatchesAt(s, p, i)
  {
    FindWindowFrom(s, p, 0)
  }

  function FindWindowFrom(s: seq<char>, p: BlockPattern, from: nat): (r: Option<nat>)
    requires forall i :: 0 <= i < from ==> !MatchesAt(s, p, i)
    ensures r.Some? ==> from <= r.value && MatchesAt(s, p, r.value)
    ensures r.Some? ==> forall i :: 0 <= i < r.value ==> !MatchesAt(s, p, i)
    ensures r.None? ==> forall i :: !MatchesAt(s, p, i)
    decreases |s| + 1 - from
  {
    if from + p.Width() > |s| then None
    else if p.Accepts(s[from..from + p.Width()]) then Some(from)
    else FindWindowFrom(s, p, from + 1)
  }

  /** `matcher.find() ? matcher.group() : null` for a fixed-width pattern. */
  function FindGroup(s: seq<char>, p: BlockPattern): (r: Option<seq<char>>)
    ensures r.Some? ==> |r.value| == p.Width() && p.Accepts(r.value)
    ensures r.None? <==> forall i :: !MatchesAt(s, p, i)
  {
    match FindWindow(s, p)
    case None => None
    case Some(i) => Some(s[i..i + p.Width()])
  }
}
