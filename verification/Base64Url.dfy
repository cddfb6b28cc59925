/** Unpadded canonical base64url (RFC 4648, sections 3.5 and 5). */
module Base64Url {
  import opened Options

  type Byte = b: int | 0 <= b < 256

  type Digit = d: int | 0 <= d < 64

  function DigitChar(d: Digit): char {
    if d < 26 then (d + 'A' as int) as char
    else if d < 52 then (d - 26 + 'a' as int) as char
    else if d < 62 then (d - 52 + '0' as int) as char
    else if d == 62 then '-'
    else '_'
  }

  function CharDigit(c: char): Option<Digit> {
    if 'A' <= c <= 'Z' then Some(c as int - 'A' as int)
    else if 'a' <= c <= 'z' then Some(c as int - 'a' as int + 26)
    else if '0' <= c <= '9' then Some(c as int - '0' as int + 52)
    else if c == '-' then Some(62)
    else if c == '_' then Some(63)
    else None
  }

  lemma DigitsAreChars(d: Digit, c: char)
    ensures CharDigit(DigitChar(d)) == Some(d)
    ensures CharDigit(c).Some? ==> DigitChar(CharDigit(c).value) == c
  {
  }

  function Digits(bytes: seq<Byte>): seq<Digit> {
    if bytes == [] then []
    else if |bytes| == 1 then [Digit0(bytes[0]), Digit1(bytes[0], 0)]
    else if |bytes| == 2 then [Digit0(bytes[0]), Digit1(bytes[0], bytes[1]), Digit2(bytes[1], 0)]
    else [Digit0(bytes[0]), Digit1(bytes[0], bytes[1]), Digit2(bytes[1], bytes[2]), Digit3(bytes[2])] + Digits(bytes[3..])
  }

  function Digit0(p: Byte): Digit {
    p / 4
  }

  function Digit1(p: Byte, q: Byte): Digit {
    p % 4 * 16 + q / 16
  }

  function Digit2(q: Byte, r: Byte): Digit {
    q % 16 * 4 + r / 64
  }

  function Digit3(r: Byte): Digit {
    r % 64
  }

  /** The bytes of a run of digits; bits after the last whole byte are dropped. */
  function Bytes(digits: seq<Digit>): Option<seq<Byte>> {
    if digits == [] then Some([])
    else if |digits| == 1 then None
    else if |digits| == 2 then Some([Byte0(digits[0], digits[1])])
    else if |digits| == 3 then Some([Byte0(digits[0], digits[1]), Byte1(digits[1], digits[2])])
    else
      var rest := Bytes(digits[4..]);
      if rest.None? then None
      else Some([Byte0(digits[0], digits[1]), Byte1(digits[1], digits[2]), Byte2(digits[2], digits[3])] + rest.value)
  }

  function Byte0(w: Digit, x: Digit): Byte {
    w as int * 4 + x / 16
  }

  function Byte1(x: Digit, y: Digit): Byte {
    (x % 16) as int * 16 + y / 4
  }

  function Byte2(y: Digit, z: Digit): Byte {
    (y % 4) as int * 64 + z
  }

  function Text(digits: seq<Digit>): string {
    seq(|digits|, i requires 0 <= i < |digits| => DigitChar(digits[i]))
  }

  predicate InAlphabet(text: string) {
    forall i :: 0 <= i < |text| ==> CharDigit(text[i]).Some?
  }

  function Values(text: string): seq<Digit>
    requires InAlphabet(text)
  {
    seq(|text|, i requires 0 <= i < |text| => CharDigit(text[i]).value)
  }

  function Encode(bytes: seq<Byte>): string {
    Text(Digits(bytes))
  }

  /** Decoding before the canonical check. */
  function DecodeLoosely(text: string): Option<seq<Byte>> {
    if InAlphabet(text) then Bytes(Values(text)) else None
  }

  function Decode(text: string): Option<seq<Byte>> {
    if text == "" || !InAlphabet(text) then None
    else
      var decoded := DecodeLoosely(text);
      if decoded.None? || Encode(decoded.value) != text then None else decoded
  }

  // ----- Round trips -----

  lemma TextAndValues(digits: seq<Digit>, text: string)
    ensures InAlphabet(Text(digits)) && Values(Text(digits)) == digits
    ensures InAlphabet(text) ==> Text(Values(text)) == text
  {
    forall i | 0 <= i < |digits| {
      DigitsAreChars(digits[i], 'A');
    }
    forall i | 0 <= i < |text| {
      DigitsAreChars(0, text[i]);
    }
  }

  lemma BytesOfGroupDigits(p: Byte, q: Byte, r: Byte)
    ensures Byte0(Digit0(p), Digit1(p, q)) == p
    ensures Byte1(Digit1(p, q), Digit2(q, r)) == q
    ensures Byte2(Digit2(q, r), Digit3(r)) == r
  {
  }

  lemma BytesOfGroup(p: Byte, q: Byte, r: Byte, rest: seq<Digit>)
    requires Bytes(rest).Some?
    ensures Bytes([Digit0(p), Digit1(p, q), Digit2(q, r), Digit3(r)] + rest) == Some([p, q, r] + Bytes(rest).value)
  {
    BytesOfGroupDigits(p, q, r);
    var digits := [Digit0(p), Digit1(p, q), Digit2(q, r), Digit3(r)] + rest;
    assert digits[4..] == rest;
  }

  lemma BytesOfTwo(w: Digit, x: Digit, p: Byte)
    requires Byte0(w, x) == p
    ensures Bytes([w, x]) == Some([p])
  {
  }

  lemma BytesOfThree(w: Digit, x: Digit, y: Digit, p: Byte, q: Byte)
    requires Byte0(w, x) == p && Byte1(x, y) == q
    ensures Bytes([w, x, y]) == Some([p, q])
  {
  }

  lemma BytesOfOneByte(p: Byte)
    ensures Bytes(Digits([p])) == Some([p])
  {
    BytesOfGroupDigits(p, 0, 0);
    BytesOfTwo(Digit0(p), Digit1(p, 0), p);
  }

  lemma BytesOfTwoBytes(p: Byte, q: Byte)
    ensures Bytes(Digits([p, q])) == Some([p, q])
  {
    BytesOfGroupDigits(p, q, 0);
    BytesOfThree(Digit0(p), Digit1(p, q), Digit2(q, 0), p, q);
  }

  lemma {:induction false} BytesOfDigits(bytes: seq<Byte>)
    ensures Bytes(Digits(bytes)) == Some(bytes)
  {
    if |bytes| >= 3 {
      BytesOfDigits(bytes[3..]);
      BytesOfGroup(bytes[0], bytes[1], bytes[2], Digits(bytes[3..]));
      assert bytes == [bytes[0], bytes[1], bytes[2]] + bytes[3..];
    } else if |bytes| == 2 {
      BytesOfTwoBytes(bytes[0], bytes[1]);
      assert bytes == [bytes[0], bytes[1]];
    } else if |bytes| == 1 {
      BytesOfOneByte(bytes[0]);
      assert bytes == [bytes[0]];
    }
  }

  /** No stray last digit, and no bits left over after the last byte. */
  predicate NoLeftover(digits: seq<Digit>) {
    && |digits| % 4 != 1
    && (|digits| % 4 == 2 ==> digits[|digits| - 1] % 16 == 0)
    && (|digits| % 4 == 3 ==> digits[|digits| - 1] % 4 == 0)
  }

  lemma DigitsOfGroupBytes(w: Digit, x: Digit, y: Digit, z: Digit)
    ensures Digit0(Byte0(w, x)) == w
    ensures Digit1(Byte0(w, x), Byte1(x, y)) == x
    ensures Digit2(Byte1(x, y), Byte2(y, z)) == y
    ensures Digit3(Byte2(y, z)) == z
  {
  }

  /** Four digits survive packing into three bytes. */
  lemma DigitsOfGroup(w: Digit, x: Digit, y: Digit, z: Digit, rest: seq<Byte>)
    ensures Digits([Byte0(w, x), Byte1(x, y), Byte2(y, z)] + rest) == [w, x, y, z] + Digits(rest)
  {
    DigitsOfGroupBytes(w, x, y, z);
    var bytes := [Byte0(w, x), Byte1(x, y), Byte2(y, z)] + rest;
    assert bytes[3..] == rest;
  }

  /** What is left of a number after dropping its remainder is the number itself only if there was none. */
  lemma RoundedDown(n: nat, unit: nat)
    requires unit > 0
    ensures n / unit * unit == n <==> n % unit == 0
  {
    assert n == n / unit * unit + n % unit;
  }

  lemma LastOfTwo(w: Digit, x: Digit)
    ensures Digit1(Byte0(w, x), 0) == x <==> x % 16 == 0
  {
    var high: nat := x / 16;
    assert high < 4;
    assert (w as int * 4 + high) % 4 == high;
    RoundedDown(x, 16);
  }

  lemma LastOfThree(x: Digit, y: Digit)
    ensures Digit2(Byte1(x, y), 0) == y <==> y % 4 == 0
  {
    var low: nat, high: nat := x % 16, y / 4;
    assert high < 16;
    assert (low * 16 + high) % 16 == high;
    RoundedDown(y, 4);
  }

  lemma DigitsOfTwo(digits: seq<Digit>)
    requires |digits| == 2
    ensures Bytes(digits) == Some([Byte0(digits[0], digits[1])])
    ensures Digits([Byte0(digits[0], digits[1])]) == digits <==> digits[1] % 16 == 0
  {
    var w, x := digits[0], digits[1];
    DigitsOfGroupBytes(w, x, 0, 0);
    LastOfTwo(w, x);
    var back := Digits([Byte0(w, x)]);
    assert back == [w, Digit1(Byte0(w, x), 0)];
    assert back[1] == digits[1] ==> back == digits;
  }

  lemma DigitsOfThree(digits: seq<Digit>)
    requires |digits| == 3
    ensures Bytes(digits) == Some([Byte0(digits[0], digits[1]), Byte1(digits[1], digits[2])])
    ensures Digits([Byte0(digits[0], digits[1]), Byte1(digits[1], digits[2])]) == digits <==> digits[2] % 4 == 0
  {
    var w, x, y := digits[0], digits[1], digits[2];
    DigitsOfGroupBytes(w, x, y, 0);
    LastOfThree(x, y);
    var back := Digits([Byte0(w, x), Byte1(x, y)]);
    assert back == [w, x, Digit2(Byte1(x, y), 0)];
    assert back[2] == digits[2] ==> back == digits;
  }

  lemma NoLeftoverStep(digits: seq<Digit>)
    requires |digits| >= 4
    ensures NoLeftover(digits) <==> NoLeftover(digits[4..])
    ensures |digits| % 4 == |digits[4..]| % 4
  {
  }

  lemma SameAfterHead(digits: seq<Digit>, tail: seq<Digit>)
    requires |digits| >= 4
    ensures [digits[0], digits[1], digits[2], digits[3]] + tail == digits <==> tail == digits[4..]
  {
    var head := [digits[0], digits[1], digits[2], digits[3]];
    assert digits == head + digits[4..];
    assert (head + tail)[4..] == tail;
  }

  lemma {:induction false} DigitsOfBytes(digits: seq<Digit>)
    ensures Bytes(digits).Some? <==> |digits| % 4 != 1
    ensures Bytes(digits).Some? ==> (Digits(Bytes(digits).value) == digits <==> NoLeftover(digits))
    ensures Bytes(digits).Some? ==> (Bytes(digits).value == [] <==> digits == [])
  {
    if |digits| == 2 {
      DigitsOfTwo(digits);
    } else if |digits| == 3 {
      DigitsOfThree(digits);
    } else if |digits| >= 4 {
      var tail := digits[4..];
      DigitsOfBytes(tail);
      NoLeftoverStep(digits);
      if Bytes(tail).Some? {
        DigitsOfGroup(digits[0], digits[1], digits[2], digits[3], Bytes(tail).value);
        SameAfterHead(digits, Digits(Bytes(tail).value));
      }
    }
  }

  lemma EncodeIsLooselyDecoded(bytes: seq<Byte>)
    ensures DecodeLoosely(Encode(bytes)) == Some(bytes)
  {
    TextAndValues(Digits(bytes), "");
    BytesOfDigits(bytes);
  }

  /** Decoding inverts encoding on every byte string but the empty one, whose text is refused. */
  lemma DecodeInvertsEncode(bytes: seq<Byte>)
    ensures Decode(Encode(bytes)) == if bytes == [] then None else Some(bytes)
  {
    TextAndValues(Digits(bytes), "");
    BytesOfDigits(bytes);
  }

  /** A text is accepted exactly when it is non-empty, in the alphabet, and leaves no digit or bit over. */
  lemma AcceptedTexts(text: string)
    ensures Decode(text).Some? <==> text != "" && InAlphabet(text) && NoLeftover(Values(text))
    ensures Decode(text).Some? ==> Encode(Decode(text).value) == text && Decode(text).value != []
  {
    if InAlphabet(text) {
      var digits := Values(text);
      TextAndValues(digits, text);
      DigitsOfBytes(digits);
      if Bytes(digits).Some? {
        var back := Digits(Bytes(digits).value);
        TextAndValues(back, "");
      }
    }
  }

  /** Two accepted texts with the same bytes are the same text. */
  lemma DecodeIsInjective(left: string, right: string)
    requires Decode(left).Some? && Decode(left) == Decode(right)
    ensures left == right
  {
    AcceptedTexts(left);
    AcceptedTexts(right);
  }

  lemma EncodeHasNoDot(bytes: seq<Byte>)
    ensures '.' !in Encode(bytes)
  {
    TextAndValues(Digits(bytes), "");
    var text := Encode(bytes);
    assert forall i :: 0 <= i < |text| ==> CharDigit(text[i]).Some?;
  }

  // ----- The alphabet and the bits -----

  const UPPER := "ABCDEFGHIJKLMNOPQRSTUVWXYZ"
  const LOWER := "abcdefghijklmnopqrstuvwxyz"
  const DECIMAL := "0123456789"

  /** Table 2 of RFC 4648, section 5. */
  const ALPHABET := UPPER + LOWER + DECIMAL + "-_"

  lemma DigitsFollowAlphabet(d: Digit)
    ensures |ALPHABET| == 64 && DigitChar(d) == ALPHABET[d]
  {
    if d < 26 {
      assert ALPHABET[d] == UPPER[d];
    } else if d < 52 {
      assert ALPHABET[d] == LOWER[d - 26];
    } else if d < 62 {
      assert ALPHABET[d] == DECIMAL[d - 52];
    }
  }

  /** Three bytes and their four digits are one 24-bit number, the first of each weighing most. */
  lemma GroupIsOneNumber(p: Byte, q: Byte, r: Byte)
    ensures 65_536 * p + 256 * q + r
         == 262_144 * Digit0(p) as int + 4_096 * Digit1(p, q) as int + 64 * Digit2(q, r) as int + Digit3(r) as int
  {
  }

  /** Three bytes give four digits; a last group of one or two bytes gives two or three. */
  lemma {:induction false} DigitsSize(bytes: seq<Byte>)
    ensures |Digits(bytes)| == |bytes| / 3 * 4 + (if |bytes| % 3 == 0 then 0 else |bytes| % 3 + 1)
  {
    if |bytes| >= 3 {
      DigitsSize(bytes[3..]);
    }
  }

  /** A short last group is filled with zero bits and cut to its digits. */
  lemma ShortGroupIsFilled(p: Byte, q: Byte)
    ensures Digits([p, q]) == [Digit0(p), Digit1(p, q), Digit2(q, 0)] == Digits([p, q, 0])[..3]
    ensures Digits([p]) == [Digit0(p), Digit1(p, 0)] == Digits([p, 0, 0])[..2]
  {
    assert [p, q, 0][3..] == [] && [p, 0, 0][3..] == [];
  }
}
