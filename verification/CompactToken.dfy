/** Compact ES256 tokens (RFC 7515 section 7.1, RFC 7518 section 3.4). Key operations and JSON are parameters. */
module CompactToken {
  import opened Options
  import opened Base64Url
  import opened DottedText

  // ----- Fixed-width integers -----

  function Power(n: nat): nat {
    if n == 0 then 1 else 256 * Power(n - 1)
  }

  function BigEndian(value: nat, width: nat): (bytes: seq<Byte>)
    ensures |bytes| == width
  {
    if width == 0 then [] else BigEndian(value / 256, width - 1) + [value % 256]
  }

  function FromBigEndian(bytes: seq<Byte>): nat {
    if bytes == [] then 0 else FromBigEndian(bytes[..|bytes| - 1]) * 256 + bytes[|bytes| - 1]
  }

  lemma {:induction false} UnpackPacked(value: nat, width: nat)
    requires value < Power(width)
    ensures FromBigEndian(BigEndian(value, width)) == value
  {
    if width > 0 {
      UnpackPacked(value / 256, width - 1);
      assert BigEndian(value, width)[..width - 1] == BigEndian(value / 256, width - 1);
    }
  }

  lemma {:induction false} PackUnpacked(bytes: seq<Byte>)
    ensures FromBigEndian(bytes) < Power(|bytes|)
    ensures BigEndian(FromBigEndian(bytes), |bytes|) == bytes
  {
    if bytes != [] {
      var head, last := bytes[..|bytes| - 1], bytes[|bytes| - 1];
      PackUnpacked(head);
      assert bytes == head + [last];
      assert FromBigEndian(bytes) / 256 == FromBigEndian(head);
    }
  }

  /** The first byte is the most significant one. */
  lemma {:induction false} FirstByteWeighsMost(first: Byte, rest: seq<Byte>)
    ensures FromBigEndian([first] + rest) == first * Power(|rest|) + FromBigEndian(rest)
  {
    var bytes := [first] + rest;
    if rest == [] {
      assert bytes == [first] && FromBigEndian([]) == 0 && bytes[..0] == [];
    } else {
      var head := rest[..|rest| - 1];
      FirstByteWeighsMost(first, head);
      assert bytes[..|bytes| - 1] == [first] + head;
      WeighAgain(first, Power(|head|));
    }
  }

  lemma WeighAgain(first: Byte, weight: nat)
    ensures first * weight * 256 == first * (256 * weight)
  {
  }

  // ----- Signing and verifying -----

  /** Absent or non-text members are `None`. */
  datatype Header = Header(alg: Option<string>, kid: Option<string>, typ: Option<string>)

  datatype Payload<T> = Payload(kind: Option<string>, version: Option<int>, issuer: Option<string>, audience: Option<string>, claims: T)

  /** The library operations. `verifies(key, input, r, s)` is the curve check; `sign` uses the private key. */
  datatype Library<!T> = Library(
    writeHeader: Header -> seq<Byte>, readHeader: seq<Byte> -> Option<Header>,
    writePayload: Payload<T> -> seq<Byte>, readPayload: seq<Byte> -> Option<Payload<T>>,
    sign: string -> (nat, nat), verifies: (int, string, nat, nat) -> bool)

  datatype Expected = Expected(typ: string, kind: string, issuer: Option<string>, audience: Option<string>)

  datatype TokenError =
    | MalformedToken | MalformedHeader | MalformedPayload | UnsupportedAlgorithm | WrongType | MissingKeyId | UnknownKeyId
    | MalformedSignature | SignatureLength | InvalidSignature | WrongKind | UnsupportedVersion | WrongIssuer | WrongAudience

  datatype Verified<T> = Good(header: Header, payload: Payload<T>) | Bad(error: TokenError)

  function SigningInput<T>(lib: Library<T>, header: Header, payload: Payload<T>): string {
    Encode(lib.writeHeader(header)) + "." + Encode(lib.writePayload(payload))
  }

  /** Two 32-byte integers, or nothing when either does not fit. */
  function PackSignature(r: nat, s: nat): Option<seq<Byte>> {
    if r < Power(32) && s < Power(32) then Some(BigEndian(r, 32) + BigEndian(s, 32)) else None
  }

  function Sign<T>(lib: Library<T>, keyId: string, payload: Payload<T>, typ: string): Option<string> {
    var header := Header(Some("ES256"), Some(keyId), Some(typ));
    var input := SigningInput(lib, header, payload);
    var (r, s) := lib.sign(input);
    var raw := PackSignature(r, s);
    if raw.None? then None else Some(input + "." + Encode(raw.value))
  }

  function ReadHeader<T>(lib: Library<T>, segment: string): Option<Header> {
    var bytes := Decode(segment);
    if bytes.None? then None else lib.readHeader(bytes.value)
  }

  function ReadPayload<T>(lib: Library<T>, segment: string): Option<Payload<T>> {
    var bytes := Decode(segment);
    if bytes.None? then None else lib.readPayload(bytes.value)
  }

  /** The checks on a payload whose signature holds. */
  function CheckPayload<T>(payload: Payload<T>, expected: Expected): Option<TokenError> {
    if payload.kind != Some(expected.kind) then Some(WrongKind)
    else if payload.version != Some(1) then Some(UnsupportedVersion)
    else if expected.issuer.Some? && payload.issuer != expected.issuer then Some(WrongIssuer)
    else if expected.audience.Some? && payload.audience != expected.audience then Some(WrongAudience)
    else None
  }

  function CheckSignature<T>(lib: Library<T>, key: int, input: string, segment: string): Option<TokenError> {
    var raw := Decode(segment);
    if raw.None? then Some(MalformedSignature)
    else if |raw.value| != 64 then Some(SignatureLength)
    else if !lib.verifies(key, input, FromBigEndian(raw.value[..32]), FromBigEndian(raw.value[32..])) then Some(InvalidSignature)
    else None
  }

  function CheckHeader(header: Header, keys: map<string, int>, expected: Expected): Option<TokenError> {
    if header.alg != Some("ES256") then Some(UnsupportedAlgorithm)
    else if header.typ != Some(expected.typ) then Some(WrongType)
    else if header.kid.None? || header.kid.value == "" then Some(MissingKeyId)
    else if header.kid.value !in keys then Some(UnknownKeyId)
    else None
  }

  function Verify<T>(lib: Library<T>, token: string, keys: map<string, int>, expected: Expected): Verified<T> {
    var parts := Split(token);
    if |parts| != 3 then Bad(MalformedToken)
    else
      var header, payload := ReadHeader(lib, parts[0]), ReadPayload(lib, parts[1]);
      if header.None? then Bad(MalformedHeader)
      else if payload.None? then Bad(MalformedPayload)
      else
        var badHeader := CheckHeader(header.value, keys, expected);
        if badHeader.Some? then Bad(badHeader.value)
        else
          var badSignature := CheckSignature(lib, keys[header.value.kid.value], parts[0] + "." + parts[1], parts[2]);
          if badSignature.Some? then Bad(badSignature.value)
          else
            var badPayload := CheckPayload(payload.value, expected);
            if badPayload.Some? then Bad(badPayload.value) else Good(header.value, payload.value)
  }

  /** JSON text is never empty and reads back as written. */
  predicate WritesBack<T(==)>(lib: Library<T>, header: Header, payload: Payload<T>) {
    && lib.writeHeader(header) != [] && lib.readHeader(lib.writeHeader(header)) == Some(header)
    && lib.writePayload(payload) != [] && lib.readPayload(lib.writePayload(payload)) == Some(payload)
  }

  lemma PackedSignatureUnpacks(r: nat, s: nat)
    requires PackSignature(r, s).Some?
    ensures var raw := PackSignature(r, s).value;
      |raw| == 64 && FromBigEndian(raw[..32]) == r && FromBigEndian(raw[32..]) == s
  {
    UnpackPacked(r, 32);
    UnpackPacked(s, 32);
    var raw := PackSignature(r, s).value;
    assert raw[..32] == BigEndian(r, 32) && raw[32..] == BigEndian(s, 32);
  }

  /** A signed token splits into exactly its three segments. */
  lemma TokenSplits(header: seq<Byte>, payload: seq<Byte>, signature: seq<Byte>)
    ensures Split(Encode(header) + "." + Encode(payload) + "." + Encode(signature))
         == [Encode(header), Encode(payload), Encode(signature)]
  {
    EncodeHasNoDot(header);
    EncodeHasNoDot(payload);
    EncodeHasNoDot(signature);
    SplitUndotted(Encode(signature));
    SplitHead(Encode(payload), Encode(signature));
    SplitHead(Encode(header), Encode(payload) + "." + Encode(signature));
    assert Encode(header) + "." + Encode(payload) + "." + Encode(signature)
        == Encode(header) + "." + (Encode(payload) + "." + Encode(signature));
  }

  /** Verifying what was signed gives back the payload, or fails only for what the payload itself says. */
  lemma VerifyInvertsSign<T>(lib: Library<T>, keyId: string, key: int, payload: Payload<T>, keys: map<string, int>, expected: Expected)
    requires var header := Header(Some("ES256"), Some(keyId), Some(expected.typ));
      var input := SigningInput(lib, header, payload);
      WritesBack(lib, header, payload) && lib.verifies(key, input, lib.sign(input).0, lib.sign(input).1)
    requires keyId != "" && keyId in keys && keys[keyId] == key
    requires Sign(lib, keyId, payload, expected.typ).Some?
    ensures Verify(lib, Sign(lib, keyId, payload, expected.typ).value, keys, expected) ==
      var error := CheckPayload(payload, expected);
      if error.Some? then Bad(error.value) else Good(Header(Some("ES256"), Some(keyId), Some(expected.typ)), payload)
  {
    var header := Header(Some("ES256"), Some(keyId), Some(expected.typ));
    var (r, s) := lib.sign(SigningInput(lib, header, payload));
    var raw := PackSignature(r, s).value;
    TokenSplits(lib.writeHeader(header), lib.writePayload(payload), raw);
    DecodeInvertsEncode(lib.writeHeader(header));
    DecodeInvertsEncode(lib.writePayload(payload));
    DecodeInvertsEncode(raw);
    PackedSignatureUnpacks(r, s);
  }

  /** A signed token: its header names the algorithm, key and type, and R and S of the two segments before fill 64 bytes. */
  lemma SignedTokenLayout<T>(lib: Library<T>, keyId: string, payload: Payload<T>, typ: string, input: string)
    requires input == Encode(lib.writeHeader(Header(Some("ES256"), Some(keyId), Some(typ)))) + "." + Encode(lib.writePayload(payload))
    ensures Sign(lib, keyId, payload, typ).Some? <==> lib.sign(input).0 < Power(32) && lib.sign(input).1 < Power(32)
    ensures Sign(lib, keyId, payload, typ).Some? ==>
      Sign(lib, keyId, payload, typ).value == input + "." + Encode(BigEndian(lib.sign(input).0, 32) + BigEndian(lib.sign(input).1, 32))
  {
  }

  /** Three canonical segments: a header that names ES256, the type and a known key; a payload of the kind, version 1 and
      the expected parties; and 64 bytes that this key's curve check accepts as R and S of the first two segments. */
  ghost predicate IsGenuine<T>(lib: Library<T>, token: string, keys: map<string, int>, expected: Expected,
                              header: seq<Byte>, payload: seq<Byte>, raw: seq<Byte>, h: Header, p: Payload<T>) {
    && header != [] && payload != [] && |raw| == 64
    && token == Encode(header) + "." + Encode(payload) + "." + Encode(raw)
    && lib.readHeader(header) == Some(h) && lib.readPayload(payload) == Some(p)
    && h.alg == Some("ES256") && h.typ == Some(expected.typ) && h.kid.Some? && h.kid.value != "" && h.kid.value in keys
    && lib.verifies(keys[h.kid.value], Encode(header) + "." + Encode(payload), FromBigEndian(raw[..32]), FromBigEndian(raw[32..]))
    && p.kind == Some(expected.kind) && p.version == Some(1)
    && (expected.issuer.Some? ==> p.issuer == expected.issuer) && (expected.audience.Some? ==> p.audience == expected.audience)
  }

  ghost predicate Genuine<T(!new)>(lib: Library<T>, token: string, keys: map<string, int>, expected: Expected, h: Header, p: Payload<T>) {
    exists header, payload, raw :: IsGenuine(lib, token, keys, expected, header, payload, raw, h, p)
  }

  lemma GenuineIsAccepted<T(!new)>(lib: Library<T>, token: string, keys: map<string, int>, expected: Expected,
                                   header: seq<Byte>, payload: seq<Byte>, raw: seq<Byte>, h: Header, p: Payload<T>)
    requires IsGenuine(lib, token, keys, expected, header, payload, raw, h, p)
    ensures Verify(lib, token, keys, expected) == Good(h, p)
  {
    TokenSplits(header, payload, raw);
    DecodeInvertsEncode(header);
    DecodeInvertsEncode(payload);
    DecodeInvertsEncode(raw);
  }

  lemma AcceptedIsGenuine<T(!new)>(lib: Library<T>, token: string, keys: map<string, int>, expected: Expected)
    requires Verify(lib, token, keys, expected).Good?
    ensures Genuine(lib, token, keys, expected, Verify(lib, token, keys, expected).header, Verify(lib, token, keys, expected).payload)
  {
    var verified := Verify(lib, token, keys, expected);
    var header, payload, raw := AcceptedTokenIsCanonical(lib, token, keys, expected);
    TokenSplits(header, payload, raw);
    DecodeInvertsEncode(header);
    DecodeInvertsEncode(payload);
    DecodeInvertsEncode(raw);
    assert IsGenuine(lib, token, keys, expected, header, payload, raw, verified.header, verified.payload);
  }

  /** A token is accepted, with this header and payload, exactly when it is genuine. */
  lemma AcceptedExactlyWhenGenuine<T(!new)>(lib: Library<T>, token: string, keys: map<string, int>, expected: Expected, h: Header, p: Payload<T>)
    ensures Verify(lib, token, keys, expected) == Good(h, p) <==> Genuine(lib, token, keys, expected, h, p)
  {
    if Verify(lib, token, keys, expected) == Good(h, p) {
      AcceptedIsGenuine(lib, token, keys, expected);
    }
    if Genuine(lib, token, keys, expected, h, p) {
      var header, payload, raw :| IsGenuine(lib, token, keys, expected, header, payload, raw, h, p);
      GenuineIsAccepted(lib, token, keys, expected, header, payload, raw, h, p);
    }
  }

  lemma AcceptedSegments<T>(lib: Library<T>, token: string, keys: map<string, int>, expected: Expected)
    requires Verify(lib, token, keys, expected).Good?
    ensures var parts, verified := Split(token), Verify(lib, token, keys, expected);
      && |parts| == 3 && Decode(parts[0]).Some? && Decode(parts[1]).Some? && Decode(parts[2]).Some?
      && |Decode(parts[2]).value| == 64
      && lib.readHeader(Decode(parts[0]).value) == Some(verified.header)
      && lib.readPayload(Decode(parts[1]).value) == Some(verified.payload)
  {
  }

  /** An accepted token is the encoding of its three byte strings, the last one 64 bytes long. */
  lemma AcceptedTokenIsCanonical<T>(lib: Library<T>, token: string, keys: map<string, int>, expected: Expected)
      returns (header: seq<Byte>, payload: seq<Byte>, signature: seq<Byte>)
    requires Verify(lib, token, keys, expected).Good?
    ensures |signature| == 64 && token == Encode(header) + "." + Encode(payload) + "." + Encode(signature)
    ensures lib.readHeader(header) == Some(Verify(lib, token, keys, expected).header)
    ensures lib.readPayload(payload) == Some(Verify(lib, token, keys, expected).payload)
  {
    AcceptedSegments(lib, token, keys, expected);
    var parts := Split(token);
    header, payload, signature := Decode(parts[0]).value, Decode(parts[1]).value, Decode(parts[2]).value;
    AcceptedTexts(parts[0]);
    AcceptedTexts(parts[1]);
    AcceptedTexts(parts[2]);
    JoinOfSplit(token);
    assert parts == [parts[0], parts[1], parts[2]];
    JoinOfThree(parts[0], parts[1], parts[2]);
  }

  lemma JoinOfThree(x: string, y: string, z: string)
    ensures Join([x, y, z]) == x + "." + y + "." + z
  {
    assert [x, y, z][1..] == [y, z] && [y, z][1..] == [z];
    assert Join([z]) == z && Join([y, z]) == y + "." + z;
    assert x + "." + (y + "." + z) == x + "." + y + "." + z;
  }
}
