/** The hand-written hex decoder, on the bytes of the text. */
module HexCodec {
  import opened Common

  type Bytes = seq<Byte>

  /** The value of a hex digit in either case. */
  function HexVal(c: Byte): (v: Option<Byte>)
    ensures v.Some? ==> v.value < 16
  {
    if '0' as int <= c <= '9' as int then Some(c - '0' as int)
    else if 'a' as int <= c <= 'f' as int then Some(c - 'a' as int + 10)
    else if 'A' as int <= c <= 'F' as int then Some(c - 'A' as int + 10)
    else None
  }

  /** The lower-case digit of a value. */
  function Digit(v: Byte): Byte
    requires v < 16
  {
    if v < 10 then '0' as int + v else 'a' as int + v - 10
  }

  function Lower(c: Byte): Byte {
    if 'A' as int <= c <= 'F' as int then c + 32 else c
  }

  /** Two lower-case digits for every byte, high half first. */
  function HexEncode(bytes: Bytes): (text: Bytes)
    ensures |text| == 2 * |bytes|
  {
    if bytes == [] then [] else [Digit(bytes[0] / 16), Digit(bytes[0] % 16)] + HexEncode(bytes[1..])
  }

  predicate Decodable(text: Bytes) {
    |text| % 2 == 0 && forall i | 0 <= i < |text| :: HexVal(text[i]).Some?
  }

  /** The byte two digits stand for. */
  function Pair(hi: Byte, lo: Byte): Byte
    requires hi < 16 && lo < 16
  {
    16 * hi + lo
  }

  function PairAt(text: Bytes, k: nat): Byte
    requires Decodable(text) && 2 * k + 1 < |text|
  {
    Pair(HexVal(text[2 * k]).value, HexVal(text[2 * k + 1]).value)
  }

  function Decoded(text: Bytes): Option<Bytes> {
    if Decodable(text) then Some(seq(|text| / 2, k requires 0 <= k < |text| / 2 => PairAt(text, k))) else None
  }

  /** Succeeds exactly on texts of even length with nothing but hex digits. */
  method HexToBytes(text: Bytes) returns (r: Option<Bytes>)
    ensures r == Decoded(text)
    ensures r.Some? <==> Decodable(text)
  {
    if |text| % 2 != 0 {
      return None;
    }
    var b := new Byte[|text| / 2];
    var i := 0;
    while i < |text|
      invariant 0 <= i <= |text| && i % 2 == 0
      invariant forall j | 0 <= j < i :: HexVal(text[j]).Some?
      invariant forall k | 0 <= k < i / 2 ::
        HexVal(text[2 * k]).Some? && HexVal(text[2 * k + 1]).Some?
        && b[k] == 16 * HexVal(text[2 * k]).value + HexVal(text[2 * k + 1]).value
    {
      var hi, lo := HexVal(text[i]), HexVal(text[i + 1]);
      if hi.None? || lo.None? {
        return None;
      }
      b[i / 2] := Pair(hi.value, lo.value);
      i := i + 2;
    }
    assert Decodable(text);
    assert b[..] == Decoded(text).value;
    r := Some(b[..]);
  }

  lemma {:induction false} EncodedAt(bytes: Bytes, k: nat)
    requires k < |bytes|
    ensures HexEncode(bytes)[2 * k] == Digit(bytes[k] / 16) && HexEncode(bytes)[2 * k + 1] == Digit(bytes[k] % 16)
  {
    if k > 0 {
      EncodedAt(bytes[1..], k - 1);
    }
  }

  /** The hex digits are 0 to 9, a to f and A to F, in ASCII, with the values 0 to 15. */
  lemma HexValIs(c: Byte, v: Byte)
    requires v < 16
    ensures HexVal(c) == Some(v) <==> c == (if v < 10 then 48 + v else 87 + v) || (v >= 10 && c == 55 + v)
  {
  }

  /** Each byte is two of the digits 0 to f, the high half first. */
  lemma HexLayout(bytes: Bytes, k: nat)
    requires k < |bytes|
    ensures var hi, lo := bytes[k] as int / 16, bytes[k] as int % 16;
            && HexEncode(bytes)[2 * k] == (if hi < 10 then 48 + hi else 87 + hi)
            && HexEncode(bytes)[2 * k + 1] == (if lo < 10 then 48 + lo else 87 + lo)
  {
    EncodedAt(bytes, k);
  }

  lemma DigitVal(v: Byte)
    requires v < 16
    ensures HexVal(Digit(v)) == Some(v) && Lower(Digit(v)) == Digit(v)
  {
  }

  /** Decoding undoes encoding. */
  lemma DecodeEncode(bytes: Bytes)
    ensures Decoded(HexEncode(bytes)) == Some(bytes)
  {
    var text := HexEncode(bytes);
    forall i | 0 <= i < |text| ensures HexVal(text[i]).Some? {
      EncodedAt(bytes, i / 2);
      DigitVal(bytes[i / 2] / 16);
      DigitVal(bytes[i / 2] % 16);
    }
    forall k | 0 <= k < |bytes| ensures PairAt(text, k) == bytes[k] {
      EncodedAt(bytes, k);
      DigitVal(bytes[k] / 16);
      DigitVal(bytes[k] % 16);
    }
    assert Decoded(text).value == bytes;
  }

  lemma DigitOfVal(c: Byte)
    requires HexVal(c).Some?
    ensures Digit(HexVal(c).value) == Lower(c)
  {
  }

  lemma PairDigits(text: Bytes, k: nat)
    requires Decodable(text) && 2 * k + 1 < |text|
    ensures Digit(PairAt(text, k) / 16) == Lower(text[2 * k]) && Digit(PairAt(text, k) % 16) == Lower(text[2 * k + 1])
  {
    DigitOfVal(text[2 * k]);
    DigitOfVal(text[2 * k + 1]);
    var hi, lo := HexVal(text[2 * k]).value, HexVal(text[2 * k + 1]).value;
    assert PairAt(text, k) / 16 == hi && PairAt(text, k) % 16 == lo;
  }

  /** Encoding undoes decoding, up to the case of the digits. */
  lemma EncodeDecode(text: Bytes, i: nat)
    requires Decodable(text) && i < |text|
    ensures |HexEncode(Decoded(text).value)| == |text| && HexEncode(Decoded(text).value)[i] == Lower(text[i])
  {
    var bytes := Decoded(text).value;
    assert bytes[i / 2] == PairAt(text, i / 2);
    EncodedAt(bytes, i / 2);
    PairDigits(text, i / 2);
  }
}
