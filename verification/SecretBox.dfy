/** Encrypted tokens: an HMAC keystream, a 16-byte nonce and a 32-byte tag. */
module SecretBox {
  import opened Options
  import opened Base64Url
  import opened CompactToken

  /** The library operations; `hmac(key, message)` has 32 bytes. */
  datatype Library = Library(
    hmac: (seq<Byte>, seq<Byte>) -> seq<Byte>,
    deriveKeys: string -> (seq<Byte>, seq<Byte>),
    toUtf8: string -> seq<Byte>, fromUtf8: seq<Byte> -> Option<string>)

  ghost predicate Sound(lib: Library) {
    && (forall key, message :: |lib.hmac(key, message)| == 32)
    && (forall text :: lib.fromUtf8(lib.toUtf8(text)) == Some(text))
  }

  /** Blocks are numbered by a 4-byte counter, so a stream has at most this many bytes. */
  const STREAM_LIMIT := 32 * 0x1_0000_0000

  function Block(lib: Library, key: seq<Byte>, nonce: seq<Byte>, counter: nat): seq<Byte> {
    lib.hmac(key, nonce + BigEndian(counter, 4))
  }

  /** Byte `i` of the stream is byte `i % 32` of block `i / 32`. */
  function Keystream(lib: Library, key: seq<Byte>, nonce: seq<Byte>, length: nat): (stream: seq<Byte>)
    ensures |stream| == length
  {
    seq(length, i requires 0 <= i < length =>
      var block := Block(lib, key, nonce, i / 32);
      if i % 32 < |block| then block[i % 32] else 0)
  }

  /** The generating loop; nothing when the counter would need a fifth byte. */
  method TokenKeystream(lib: Library, key: seq<Byte>, nonce: seq<Byte>, length: nat) returns (stream: Option<seq<Byte>>)
    requires Sound(lib)
    ensures stream == if length <= STREAM_LIMIT then Some(Keystream(lib, key, nonce, length)) else None
  {
    var blocks, counter, generated: nat := [], 0, 0;
    while generated < length
      invariant generated == 32 * counter == |blocks|
      invariant counter <= 0x1_0000_0000 && (counter > 0 ==> 32 * (counter - 1) < length)
      invariant forall i :: 0 <= i < |blocks| ==> blocks[i] == Block(lib, key, nonce, i / 32)[i % 32]
      decreases length + 32 - generated
    {
      if counter >= 0x1_0000_0000 {
        return None;
      }
      var block := lib.hmac(key, nonce + BigEndian(counter, 4));
      blocks := blocks + block;
      generated := generated + |block|;
      counter := counter + 1;
    }
    assert blocks[..length] == Keystream(lib, key, nonce, length);
    stream := Some(blocks[..length]);
  }

  lemma ShorterStreamIsPrefix(lib: Library, key: seq<Byte>, nonce: seq<Byte>, short: nat, long: nat)
    requires short <= long
    ensures Keystream(lib, key, nonce, short) == Keystream(lib, key, nonce, long)[..short]
  {
  }

  function PowerOfTwo(n: nat): nat {
    if n == 0 then 1 else 2 * PowerOfTwo(n - 1)
  }

  /** Exclusive or of the low `n` bits. */
  function XorBits(x: nat, y: nat, n: nat): (z: nat)
    ensures z < PowerOfTwo(n)
  {
    if n == 0 then 0 else (x % 2 + y % 2) % 2 + 2 * XorBits(x / 2, y / 2, n - 1)
  }

  function Xor(x: Byte, y: Byte): Byte {
    assert PowerOfTwo(8) == 256;
    XorBits(x, y, 8)
  }

  lemma LastBit(bit: nat, rest: nat)
    requires bit < 2
    ensures (bit + 2 * rest) / 2 == rest && (bit + 2 * rest) % 2 == bit
  {
  }

  lemma BitUndoesItself(x: nat, y: nat)
    ensures ((x % 2 + y % 2) % 2 + y % 2) % 2 == x % 2
  {
  }

  /** A number is its last bit and the rest; so is its exclusive or. */
  lemma XorOfBitAndRest(bit: nat, rest: nat, y: nat, n: nat)
    requires bit < 2 && n > 0
    ensures XorBits(bit + 2 * rest, y, n) == (bit + y % 2) % 2 + 2 * XorBits(rest, y / 2, n - 1)
  {
    LastBit(bit, rest);
  }

  lemma XorLastBit(x: nat, y: nat, n: nat)
    requires n > 0
    ensures XorBits(XorBits(x, y, n), y, n) == x % 2 + 2 * XorBits(XorBits(x / 2, y / 2, n - 1), y / 2, n - 1)
  {
    XorOfBitAndRest((x % 2 + y % 2) % 2, XorBits(x / 2, y / 2, n - 1), y, n);
    BitUndoesItself(x, y);
  }

  lemma {:induction false} XorUndoesItself(x: nat, y: nat, n: nat)
    requires x < PowerOfTwo(n)
    ensures XorBits(XorBits(x, y, n), y, n) == x
  {
    if n > 0 {
      XorLastBit(x, y, n);
      XorUndoesItself(x / 2, y / 2, n - 1);
    }
  }

  function Bit(x: nat, i: nat): nat {
    if i == 0 then x % 2 else Bit(x / 2, i - 1)
  }

  /** Each bit of the exclusive or is set exactly when one of the two bits is. */
  lemma {:induction false} XorIsBitwise(x: nat, y: nat, n: nat, i: nat)
    requires i < n
    ensures Bit(XorBits(x, y, n), i) == if Bit(x, i) == Bit(y, i) then 0 else 1
    decreases n
  {
    LastBit((x % 2 + y % 2) % 2, XorBits(x / 2, y / 2, n - 1));
    if i > 0 {
      XorIsBitwise(x / 2, y / 2, n - 1, i - 1);
    }
  }

  function Mask(bytes: seq<Byte>, stream: seq<Byte>): (masked: seq<Byte>)
    requires |stream| == |bytes|
    ensures |masked| == |bytes|
  {
    seq(|bytes|, i requires 0 <= i < |bytes| => Xor(bytes[i], stream[i]))
  }

  lemma UnmaskMasked(bytes: seq<Byte>, stream: seq<Byte>)
    requires |stream| == |bytes|
    ensures Mask(Mask(bytes, stream), stream) == bytes
  {
    forall i | 0 <= i < |bytes|
      ensures Mask(Mask(bytes, stream), stream)[i] == bytes[i]
    {
      assert PowerOfTwo(8) == 256;
      XorUndoesItself(bytes[i], stream[i], 8);
    }
  }

  const PREFIX := "v1:"

  const VERSION: seq<Byte> := ['v' as int, '1' as int]

  datatype SecretResult = Absent | Secret(text: string) | CounterOverflow

  function Encrypt(lib: Library, secret: string, plaintext: Option<string>, nonce: seq<Byte>): SecretResult {
    if plaintext.None? || plaintext.value == "" then Absent
    else
      var (encryptionKey, macKey) := lib.deriveKeys(secret);
      var plain := lib.toUtf8(plaintext.value);
      if |plain| > STREAM_LIMIT then CounterOverflow
      else
        var body := nonce + Mask(plain, Keystream(lib, encryptionKey, nonce, |plain|));
        var tag := lib.hmac(macKey, VERSION + body);
        Secret(PREFIX + Encode(body + tag))
  }

  function Decrypt(lib: Library, secret: string, value: Option<string>): SecretResult {
    if value.None? || value.value == "" || !(PREFIX <= value.value) then Absent
    else
      var decoded := DecodeLoosely(value.value[|PREFIX|..]);
      if decoded.None? || |decoded.value| < 16 + 32 then Absent
      else
        var payload := decoded.value;
        var body, tag := payload[..|payload| - 32], payload[|payload| - 32..];
        var (encryptionKey, macKey) := lib.deriveKeys(secret);
        if lib.hmac(macKey, VERSION + body) != tag then Absent
        else
          var nonce, ciphertext := body[..16], body[16..];
          if |ciphertext| > STREAM_LIMIT then CounterOverflow
          else
            var plain := lib.fromUtf8(Mask(ciphertext, Keystream(lib, encryptionKey, nonce, |ciphertext|)));
            if plain.None? then Absent else Secret(plain.value)
  }

  /** A sealed text is the prefix and the encoding of nonce, ciphertext and tag: each cipher byte is the plain byte and the
      byte of its numbered keystream block, bit by bit exclusive, and the tag covers version, nonce and ciphertext. */
  lemma SealedLayout(lib: Library, secret: string, plaintext: string, nonce: seq<Byte>) returns (cipher: seq<Byte>)
    requires Sound(lib) && plaintext != "" && |lib.toUtf8(plaintext)| <= STREAM_LIMIT
    ensures |cipher| == |lib.toUtf8(plaintext)|
    ensures Encrypt(lib, secret, Some(plaintext), nonce)
         == Secret("v1:" + Encode(nonce + cipher + lib.hmac(lib.deriveKeys(secret).1, ['v' as int, '1' as int] + (nonce + cipher))))
    ensures forall k, i :: 0 <= k < |cipher| && 0 <= i < 8 ==>
      Bit(cipher[k], i) ==
        if Bit(lib.toUtf8(plaintext)[k], i) == Bit(lib.hmac(lib.deriveKeys(secret).0, nonce + BigEndian(k / 32, 4))[k % 32], i) then 0 else 1
  {
    var plain := lib.toUtf8(plaintext);
    var stream := Keystream(lib, lib.deriveKeys(secret).0, nonce, |plain|);
    cipher := Mask(plain, stream);
    forall k, i | 0 <= k < |cipher| && 0 <= i < 8
      ensures Bit(cipher[k], i) == if Bit(plain[k], i) == Bit(stream[k], i) then 0 else 1
    {
      XorIsBitwise(plain[k], stream[k], 8, i);
    }
  }

  /** The decoded box is nonce, ciphertext and a tag of 32 bytes that this secret gives, and the text is its plaintext. */
  ghost predicate IsBoxOf(lib: Library, secret: string, value: string, nonce: seq<Byte>, cipher: seq<Byte>, tag: seq<Byte>, text: string) {
    && |value| >= 3 && value[..3] == "v1:" && DecodeLoosely(value[3..]) == Some(nonce + cipher + tag)
    && |nonce| == 16 && |tag| == 32 && |cipher| <= STREAM_LIMIT
    && tag == lib.hmac(lib.deriveKeys(secret).1, ['v' as int, '1' as int] + (nonce + cipher))
    && lib.fromUtf8(Mask(cipher, Keystream(lib, lib.deriveKeys(secret).0, nonce, |cipher|))) == Some(text)
  }

  ghost predicate IsBox(lib: Library, secret: string, value: string, text: string) {
    exists nonce, cipher, tag :: IsBoxOf(lib, secret, value, nonce, cipher, tag, text)
  }

  /** A value opens to a text exactly when it is a box of it: the tag is checked before anything is deciphered. */
  lemma OpensExactlyBoxes(lib: Library, secret: string, value: string, text: string)
    ensures Decrypt(lib, secret, Some(value)) == Secret(text) <==> IsBox(lib, secret, value, text)
  {
    if Decrypt(lib, secret, Some(value)) == Secret(text) {
      var payload := DecodeLoosely(value[|PREFIX|..]).value;
      var body, tag := payload[..|payload| - 32], payload[|payload| - 32..];
      assert body[..16] + body[16..] == body && body + tag == payload;
      assert IsBoxOf(lib, secret, value, body[..16], body[16..], tag, text);
    }
    if nonce, cipher, tag :| IsBoxOf(lib, secret, value, nonce, cipher, tag, text) {
      var payload := nonce + cipher + tag;
      assert payload[..|payload| - 32] == nonce + cipher && payload[|payload| - 32..] == tag;
      assert (nonce + cipher)[..16] == nonce && (nonce + cipher)[16..] == cipher;
      assert PREFIX <= value;
    }
  }

  /** What the tag of a sealed text covers. */
  function SealedBody(lib: Library, secret: string, plaintext: string, nonce: seq<Byte>): seq<Byte> {
    var plain := lib.toUtf8(plaintext);
    VERSION + (nonce + Mask(plain, Keystream(lib, lib.deriveKeys(secret).0, nonce, |plain|)))
  }

  /** A secret whose tag for the sealed text differs does not open it. */
  lemma OtherSecretDoesNotOpen(lib: Library, secret: string, other: string, plaintext: string, nonce: seq<Byte>)
    requires Sound(lib) && Encrypt(lib, secret, Some(plaintext), nonce).Secret?
    requires var body := SealedBody(lib, secret, plaintext, nonce);
      lib.hmac(lib.deriveKeys(other).1, body) != lib.hmac(lib.deriveKeys(secret).1, body)
    ensures Decrypt(lib, other, Some(Encrypt(lib, secret, Some(plaintext), nonce).text)) == Absent
  {
    var (encryptionKey, macKey) := lib.deriveKeys(secret);
    var plain := lib.toUtf8(plaintext);
    var body := nonce + Mask(plain, Keystream(lib, encryptionKey, nonce, |plain|));
    var tag := lib.hmac(macKey, VERSION + body);
    assert (PREFIX + Encode(body + tag))[|PREFIX|..] == Encode(body + tag);
    EncodeIsLooselyDecoded(body + tag);
    assert (body + tag)[..|body + tag| - 32] == body && (body + tag)[|body + tag| - 32..] == tag;
  }

  /** Opening a sealed text gives the text back, for every secret and nonce. */
  lemma DecryptInvertsEncrypt(lib: Library, secret: string, plaintext: string, nonce: seq<Byte>)
    requires Sound(lib) && |nonce| == 16 && plaintext != "" && |lib.toUtf8(plaintext)| <= STREAM_LIMIT
    ensures Encrypt(lib, secret, Some(plaintext), nonce).Secret?
    ensures Decrypt(lib, secret, Some(Encrypt(lib, secret, Some(plaintext), nonce).text)) == Secret(plaintext)
  {
    var (encryptionKey, macKey) := lib.deriveKeys(secret);
    var plain := lib.toUtf8(plaintext);
    var stream := Keystream(lib, encryptionKey, nonce, |plain|);
    var body := nonce + Mask(plain, stream);
    var tag := lib.hmac(macKey, VERSION + body);
    var text := PREFIX + Encode(body + tag);
    assert Encrypt(lib, secret, Some(plaintext), nonce) == Secret(text);
    assert text[|PREFIX|..] == Encode(body + tag);
    EncodeIsLooselyDecoded(body + tag);
    assert (body + tag)[..|body + tag| - 32] == body && (body + tag)[|body + tag| - 32..] == tag;
    assert body[..16] == nonce && body[16..] == Mask(plain, stream);
    UnmaskMasked(plain, stream);
  }
}
