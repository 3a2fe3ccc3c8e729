/** The password-reset token of server/src/controllers/userController.ts:
    `crypto.randomBytes(40).toString('hex')`. The random bytes are an input;
    the model is the hexadecimal rendering and its inverse. */
module ResetToken {

  type Byte = b: int | 0 <= b < 256

  /** Number of random bytes in a reset token. */
  const TokenBytes: nat := 40

  /** Lower-case hexadecimal digits, as Node's `'hex'` encoding writes them. */
  const HexDigits: string := "0123456789abcdef"

  /** Value of a lower-case hexadecimal digit. */
  function HexValue(c: char): (v: int)
    ensures (('0' <= c <= '9') || ('a' <= c <= 'f')) ==> 0 <= v < 16 && HexDigits[v] == c
  {
    if '0' <= c <= '9' then c as int - '0' as int
    else if 'a' <= c <= 'f' then c as int - 'a' as int + 10
    else -1
  }

  lemma HexDigitsInverse()
    ensures forall v :: 0 <= v < 16 ==> HexValue(HexDigits[v]) == v
  {
  }

  /** `bytes.toString('hex')`: two digits per byte, high nibble first. */
  function Hex(bytes: seq<Byte>): (s: string)
    ensures |s| == 2 * |bytes|
    ensures forall i :: 0 <= i < |bytes| ==>
      s[2 * i] == HexDigits[bytes[i] / 16] && s[2 * i + 1] == HexDigits[bytes[i] % 16]
    decreases |bytes|
  {
    if |bytes| == 0 then ""
    else
      var rest := Hex(bytes[1..]);
      var s := [HexDigits[bytes[0] / 16], HexDigits[bytes[0] % 16]] + rest;
      assert forall i :: 1 <= i < |bytes| ==>
        s[2 * i] == rest[2 * (i - 1)] && s[2 * i + 1] == rest[2 * (i - 1) + 1];
      s
  }

  /** Decoding of a hexadecimal text with an even number of digits. */
  function Unhex(s: string): seq<int>
    decreases |s|
  {
    if |s| < 2 then [] else [HexValue(s[0]) * 16 + HexValue(s[1])] + Unhex(s[2..])
  }

  /** Decoding inverts the rendering. */
  lemma {:induction false} UnhexHex(bytes: seq<Byte>)
    ensures Unhex(Hex(bytes)) == bytes
    decreases |bytes|
  {
    if |bytes| > 0 {
      HexDigitsInverse();
      var s := Hex(bytes);
      assert s[2..] == Hex(bytes[1..]);
      UnhexHex(bytes[1..]);
    }
  }

  /** Different random bytes give different tokens. */
  lemma HexInjective(a: seq<Byte>, b: seq<Byte>)
    requires Hex(a) == Hex(b)
    ensures a == b
  {
    UnhexHex(a);
    UnhexHex(b);
  }

  /** A reset token is 80 lower-case hexadecimal characters. */
  lemma TokenShape(bytes: seq<Byte>)
    requires |bytes| == TokenBytes
    ensures |Hex(bytes)| == 80
    ensures forall i :: 0 <= i < 80 ==> Hex(bytes)[i] in HexDigits
  {
    var s := Hex(bytes);
    forall i | 0 <= i < 80 ensures s[i] in HexDigits {
      var k := i / 2;
      if i % 2 == 0 {
        assert i == 2 * k;
      } else {
        assert i == 2 * k + 1;
      }
    }
  }
}
