/** Release version order: numeric parts, missing parts read as zero, no version below any version. */
module Versions {
  import opened Options
  import opened DottedText

  predicate IsDigit(c: char) {
    '0' <= c <= '9'
  }

  /** The number written by the digits of a token, skipping everything else; zero when it has none. */
  function NumberIn(token: string): nat {
    if token == "" then 0
    else
      var last := token[|token| - 1];
      if IsDigit(last) then NumberIn(token[..|token| - 1]) * 10 + (last as int - '0' as int) else NumberIn(token[..|token| - 1])
  }

  function DashesToDots(text: string): string {
    seq(|text|, i requires 0 <= i < |text| => if text[i] == '-' then '.' else text[i])
  }

  function Numbers(tokens: seq<string>): seq<nat> {
    if tokens == [] then [] else Numbers(tokens[..|tokens| - 1]) + [NumberIn(tokens[|tokens| - 1])]
  }

  /** No text and an empty text are both no version. */
  predicate IsVersion(text: Option<string>) {
    text.Some? && text.value != ""
  }

  function Parts(text: Option<string>): seq<nat> {
    if !IsVersion(text) then [] else Numbers(Split(DashesToDots(text.value)))
  }

  method ParseVersionParts(text: Option<string>) returns (parts: seq<nat>)
    ensures parts == Parts(text)
  {
    parts := [];
    if !IsVersion(text) {
      return;
    }
    var tokens := Split(DashesToDots(text.value));
    for i := 0 to |tokens|
      invariant parts == Numbers(tokens[..i])
    {
      var digits := 0;
      for j := 0 to |tokens[i]|
        invariant digits == NumberIn(tokens[i][..j])
      {
        assert tokens[i][..j + 1][..j] == tokens[i][..j];
        if IsDigit(tokens[i][j]) {
          digits := digits * 10 + (tokens[i][j] as int - '0' as int);
        }
      }
      assert tokens[i][..|tokens[i]|] == tokens[i] && tokens[..i + 1][..i] == tokens[..i];
      parts := parts + [digits];
    }
    assert tokens[..|tokens|] == tokens;
  }

  function PartAt(parts: seq<nat>, i: nat): nat {
    if i < |parts| then parts[i] else 0
  }

  /** Compares parts `i` to `n`, the first difference deciding. */
  function CompareFrom(left: seq<nat>, right: seq<nat>, i: nat, n: nat): int
    decreases n - i
  {
    if i >= n then 0
    else if PartAt(left, i) != PartAt(right, i) then (if PartAt(left, i) > PartAt(right, i) then 1 else -1)
    else CompareFrom(left, right, i + 1, n)
  }

  function Longer(left: seq<nat>, right: seq<nat>): nat {
    if |left| >= |right| then |left| else |right|
  }

  function Compare(left: Option<string>, right: Option<string>): int {
    if !IsVersion(left) && !IsVersion(right) then 0
    else if !IsVersion(right) then 1
    else if !IsVersion(left) then -1
    else CompareFrom(Parts(left), Parts(right), 0, Longer(Parts(left), Parts(right)))
  }

  /** The lists padded to one length, compared as lists. */
  method CompareVersions(left: Option<string>, right: Option<string>) returns (order: int)
    ensures order == Compare(left, right)
  {
    if !IsVersion(left) && !IsVersion(right) {
      return 0;
    }
    if !IsVersion(right) {
      return 1;
    }
    if !IsVersion(left) {
      return -1;
    }
    var l := ParseVersionParts(left);
    var r := ParseVersionParts(right);
    ghost var l0, r0, n := l, r, Longer(l, r);
    while |l| < |r|
      invariant |r| == |r0| && |l| <= n && forall i :: 0 <= i < |l| ==> l[i] == PartAt(l0, i)
    {
      l := l + [0];
    }
    while |r| < |l|
      invariant |l| == n && |r| <= n && forall i :: 0 <= i < |r| ==> r[i] == PartAt(r0, i)
    {
      r := r + [0];
    }
    var i := 0;
    while i < |l| && l[i] == r[i]
      invariant i <= |l|
      invariant CompareFrom(l0, r0, 0, n) == CompareFrom(l0, r0, i, n)
    {
      i := i + 1;
    }
    order := if i == |l| then 0 else if l[i] > r[i] then 1 else -1;
  }

  lemma {:induction false} PaddingIsHarmless(left: seq<nat>, right: seq<nat>, i: nat, n: nat, m: nat)
    requires Longer(left, right) <= n <= m
    ensures CompareFrom(left, right, i, n) == CompareFrom(left, right, i, m)
    decreases m - i
  {
    if i < m {
      PaddingIsHarmless(left, right, i + 1, n, m);
    }
  }

  lemma {:induction false} CompareFromIsPreorder(x: seq<nat>, y: seq<nat>, z: seq<nat>, i: nat, n: nat)
    ensures CompareFrom(x, x, i, n) == 0 && CompareFrom(x, y, i, n) == -CompareFrom(y, x, i, n)
    ensures CompareFrom(x, y, i, n) <= 0 && CompareFrom(y, z, i, n) <= 0 ==> CompareFrom(x, z, i, n) <= 0
    ensures CompareFrom(x, y, i, n) <= 0 && CompareFrom(y, z, i, n) <= 0 && CompareFrom(x, z, i, n) == 0 ==>
      CompareFrom(x, y, i, n) == 0 && CompareFrom(y, z, i, n) == 0
    decreases n - i
  {
    if i < n {
      CompareFromIsPreorder(x, y, z, i + 1, n);
    }
  }

  /** A total preorder, although each comparison pads its own pair of lists. */
  lemma CompareIsTotalPreorder(x: Option<string>, y: Option<string>, z: Option<string>)
    ensures Compare(x, x) == 0 && Compare(x, y) == -Compare(y, x)
    ensures Compare(x, y) <= 0 && Compare(y, z) <= 0 ==> Compare(x, z) <= 0
    ensures Compare(x, y) <= 0 && Compare(y, z) < 0 ==> Compare(x, z) < 0
    ensures Compare(x, y) < 0 && Compare(y, z) <= 0 ==> Compare(x, z) < 0
  {
    var a, b, c := Parts(x), Parts(y), Parts(z);
    var n := |a| + |b| + |c|;
    PaddingIsHarmless(a, b, 0, Longer(a, b), n);
    PaddingIsHarmless(b, a, 0, Longer(b, a), n);
    PaddingIsHarmless(b, c, 0, Longer(b, c), n);
    PaddingIsHarmless(a, c, 0, Longer(a, c), n);
    PaddingIsHarmless(a, a, 0, Longer(a, a), n);
    CompareFromIsPreorder(a, b, c, 0, n);
  }

  // ----- What the numbers mean -----

  function DigitCount(token: string): nat {
    if token == "" then 0 else DigitCount(token[1..]) + if IsDigit(token[0]) then 1 else 0
  }

  function PowerOfTen(n: nat): nat {
    if n == 0 then 1 else 10 * PowerOfTen(n - 1)
  }

  lemma {:induction false} LastDigit(token: string, last: char)
    ensures DigitCount(token + [last]) == DigitCount(token) + if IsDigit(last) then 1 else 0
  {
    if token != "" {
      LastDigit(token[1..], last);
      assert (token + [last])[1..] == token[1..] + [last];
    }
  }

  lemma TenTimes(digit: nat, n: nat)
    ensures 10 * (digit * PowerOfTen(n)) == digit * PowerOfTen(n + 1)
  {
  }

  /** A number is read in decimal: its first digit weighs ten to the number of digits after it; other characters weigh
      nothing. */
  lemma {:induction false} FirstDigitWeighsMost(first: char, rest: string)
    ensures NumberIn([first] + rest) ==
      NumberIn(rest) + if IsDigit(first) then (first as int - '0' as int) * PowerOfTen(DigitCount(rest)) else 0
    decreases |rest|
  {
    var token := [first] + rest;
    if rest == "" {
      assert token[..0] == "";
    } else {
      var head, last := rest[..|rest| - 1], rest[|rest| - 1];
      assert token[..|token| - 1] == [first] + head && rest == head + [last];
      FirstDigitWeighsMost(first, head);
      LastDigit(head, last);
      if IsDigit(first) {
        TenTimes(first as int - '0' as int, DigitCount(head));
      }
    }
  }

  /** The part at `i` of a version, missing parts being zero. */
  function PartOf(text: Option<string>, i: nat): nat {
    if i < |Parts(text)| then Parts(text)[i] else 0
  }

  predicate DecidesAt(left: Option<string>, right: Option<string>, i: nat) {
    PartOf(left, i) > PartOf(right, i) && forall j :: 0 <= j < i ==> PartOf(left, j) == PartOf(right, j)
  }

  lemma {:induction false} FirstDifferenceDecides(left: Option<string>, right: Option<string>, i: nat, n: nat)
    requires i <= n && n >= |Parts(left)| && n >= |Parts(right)|
    requires forall j :: 0 <= j < i ==> PartOf(left, j) == PartOf(right, j)
    ensures CompareFrom(Parts(left), Parts(right), i, n) > 0 <==> exists k: nat :: DecidesAt(left, right, k)
    decreases n - i
  {
    if i == n {
      assert forall k: nat :: PartOf(left, k) == PartOf(right, k);
    } else if PartOf(left, i) == PartOf(right, i) {
      FirstDifferenceDecides(left, right, i + 1, n);
    } else if PartOf(left, i) > PartOf(right, i) {
      assert DecidesAt(left, right, i);
    } else {
      forall k: nat
        ensures !DecidesAt(left, right, k)
      {
      }
    }
  }

  /** One version is above another exactly when it has a greater part where they first differ; any version is above none. */
  lemma AboveAtFirstDifference(left: Option<string>, right: Option<string>)
    ensures Compare(left, right) > 0 <==>
      (left.Some? && left.value != "" && (right.None? || right.value == "" || exists k: nat :: DecidesAt(left, right, k)))
  {
    FirstDifferenceDecides(left, right, 0, Longer(Parts(left), Parts(right)));
  }

  predicate IsSeparator(c: char) {
    c == '.' || c == '-'
  }

  predicate HasSeparator(text: string) {
    exists i :: 0 <= i < |text| && IsSeparator(text[i])
  }

  lemma {:induction false} NumbersOf(first: string, rest: seq<string>)
    ensures Numbers([first] + rest) == [NumberIn(first)] + Numbers(rest)
    decreases |rest|
  {
    var tokens := [first] + rest;
    if rest == [] {
      assert tokens[..0] == [] && tokens == [first];
    } else {
      NumbersOf(first, rest[..|rest| - 1]);
      assert tokens[..|tokens| - 1] == [first] + rest[..|rest| - 1];
    }
  }

  lemma UndashedIsSame(text: string)
    requires !HasSeparator(text)
    ensures DashesToDots(text) == text && '.' !in text
  {
    assert forall i :: 0 <= i < |text| ==> !IsSeparator(text[i]);
  }

  lemma SplitAtSeparator(first: string, separator: char, rest: string)
    requires !HasSeparator(first) && IsSeparator(separator)
    ensures Split(DashesToDots(first + [separator] + rest)) == [first] + Split(DashesToDots(rest))
  {
    UndashedIsSame(first);
    assert DashesToDots(first + [separator] + rest) == DashesToDots(first) + "." + DashesToDots(rest);
    SplitHead(first, DashesToDots(rest));
  }

  /** A version without a separator is one part. */
  lemma OnePart(text: string)
    requires !HasSeparator(text) && text != ""
    ensures Parts(Some(text)) == [NumberIn(text)]
  {
    UndashedIsSame(text);
    SplitUndotted(text);
    NumbersOf(text, []);
  }

  /** A dot or a dash ends the first part, and an empty end is a zero part. */
  lemma PartsAreSeparated(first: string, separator: char, rest: string)
    requires !HasSeparator(first) && IsSeparator(separator)
    ensures Parts(Some(first + [separator] + rest)) == [NumberIn(first)] + if rest == "" then [0] else Parts(Some(rest))
  {
    SplitAtSeparator(first, separator, rest);
    NumbersOf(first, Split(DashesToDots(rest)));
    if rest == "" {
      NumbersOf("", []);
      assert DashesToDots("") == "";
    }
  }
}
