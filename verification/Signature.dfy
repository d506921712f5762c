/** Signing and verifying a webhook payload (src/events/webhooks/signature.ts:17-43).
    The HMAC is any function of secret and text. */
module Signature {
  import opened Json
  import opened JsonReader
  import opened Canonical

  newtype Byte = n: int | 0 <= n < 256

  type Hmac = (Text, Text) -> seq<Byte>

  function Digit(d: Byte): CodeUnit
    requires d < 16
  {
    if d < 10 then 48 + d as CodeUnit else 87 + d as CodeUnit
  }

  /** `digest('hex')`: two lower-case digits a byte. */
  function Hex(bytes: seq<Byte>): Text {
    if bytes == [] then []
    else [Digit(bytes[0] / 16), Digit(bytes[0] % 16)] + Hex(bytes[1..])
  }

  /** The value of a hexadecimal digit of either case, 16 for anything else. */
  function DigitValue(c: CodeUnit): Byte {
    if 48 <= c <= 57 then (c - 48) as Byte
    else if 97 <= c <= 102 then (c - 87) as Byte
    else if 65 <= c <= 70 then (c - 55) as Byte
    else 16
  }

  /** `Buffer.from(text, 'hex')`: it stops at the first pair that is not hexadecimal. */
  function FromHex(text: Text): seq<Byte> {
    if |text| < 2 || DigitValue(text[0]) == 16 || DigitValue(text[1]) == 16 then []
    else [DigitValue(text[0]) * 16 + DigitValue(text[1])] + FromHex(text[2..])
  }

  lemma {:induction false} HexRoundTrip(bytes: seq<Byte>)
    ensures FromHex(Hex(bytes)) == bytes
    ensures |Hex(bytes)| == 2 * |bytes|
  {
    if bytes != [] {
      HexRoundTrip(bytes[1..]);
      var text := Hex(bytes);
      assert text[2..] == Hex(bytes[1..]);
      assert DigitValue(text[0]) == bytes[0] / 16 && DigitValue(text[1]) == bytes[0] % 16;
      assert bytes == [bytes[0]] + bytes[1..];
    }
  }

  /** Each byte is written as two digits of "0123456789abcdef", high half first. */
  lemma {:induction false} HexIsLowerCase(bytes: seq<Byte>, i: nat)
    requires i < |bytes|
    ensures |Hex(bytes)| == 2 * |bytes|
    ensures Hex(bytes)[2 * i] == U("0123456789abcdef"[bytes[i] / 16])
    ensures Hex(bytes)[2 * i + 1] == U("0123456789abcdef"[bytes[i] % 16])
  {
    HexRoundTrip(bytes);
    if i == 0 {
      DigitIs(bytes[0] / 16);
      DigitIs(bytes[0] % 16);
    } else {
      HexIsLowerCase(bytes[1..], i - 1);
      assert Hex(bytes)[2..] == Hex(bytes[1..]);
    }
  }

  lemma DigitIs(d: Byte)
    requires d < 16
    ensures Digit(d) == U("0123456789abcdef"[d])
    ensures DigitValue(U("0123456789abcdef"[d])) == d && DigitValue(U("0123456789ABCDEF"[d])) == d
  {
  }

  /** Only those characters have a value. */
  lemma OnlyDigitsHaveValues(c: CodeUnit)
    requires DigitValue(c) != 16
    ensures OneOf(c, "0123456789abcdefABCDEF")
  {
    var digits := "0123456789abcdefABCDEF";
    var i := if c <= 57 then c - 48 else if c >= 97 then c - 87 else c - 49;
    assert c == U(digits[i as int]);
  }

  /** Decoding takes pairs as long as both characters are hexadecimal, */
  lemma {:induction false} FromHexAt(text: Text, i: nat)
    requires i < |FromHex(text)|
    ensures 2 * i + 1 < |text| && DigitValue(text[2 * i]) != 16 && DigitValue(text[2 * i + 1]) != 16
    ensures FromHex(text)[i] == 16 * DigitValue(text[2 * i]) + DigitValue(text[2 * i + 1])
  {
    if i > 0 {
      FromHexAt(text[2..], i - 1);
      assert text[2..][2 * (i - 1)] == text[2 * i] && text[2..][2 * (i - 1) + 1] == text[2 * i + 1];
    }
  }

  /** and no further. */
  lemma {:induction false} FromHexStops(text: Text)
    ensures var n := |FromHex(text)|;
      2 * n + 1 < |text| ==> DigitValue(text[2 * n]) == 16 || DigitValue(text[2 * n + 1]) == 16
  {
    if FromHex(text) != [] {
      FromHexStops(text[2..]);
      assert |FromHex(text)| == 1 + |FromHex(text[2..])|;
    }
  }

  function SignPayload(hmac: Hmac, payload: Json, secret: Text): Text {
    Hex(hmac(secret, SignedText(payload)))
  }

  predicate VerifyPayload(hmac: Hmac, payload: Json, signature: Text, secret: Text) {
    var expected := FromHex(SignPayload(hmac, payload, secret));
    var provided := FromHex(signature);
    |expected| == |provided| && expected == provided
  }

  /** A signature is accepted exactly when it decodes to the payload's HMAC. */
  lemma VerifyIsExact(hmac: Hmac, payload: Json, signature: Text, secret: Text)
    ensures VerifyPayload(hmac, payload, signature, secret)
       <==> FromHex(signature) == hmac(secret, SignedText(payload))
  {
    HexRoundTrip(hmac(secret, SignedText(payload)));
  }

  /** The signature of a payload is accepted for every copy of it with its keys in
      another order at any depth; and for a value that means something else only
      if the two texts have the same HMAC. */
  lemma VerifyUpToKeyOrder(hmac: Hmac, signed: Json, received: Json, secret: Text)
    requires WellFormed(signed) && WellFormed(received)
    ensures Meaning(signed) == Meaning(received) ==>
      VerifyPayload(hmac, received, SignPayload(hmac, signed, secret), secret)
    ensures VerifyPayload(hmac, received, SignPayload(hmac, signed, secret), secret) ==>
      || Meaning(signed) == Meaning(received)
      || (SignedText(signed) != SignedText(received)
          && hmac(secret, SignedText(signed)) == hmac(secret, SignedText(received)))
  {
    VerifyIsExact(hmac, received, SignPayload(hmac, signed, secret), secret);
    HexRoundTrip(hmac(secret, SignedText(signed)));
    SignedTextUnambiguous(signed, received);
  }
}
