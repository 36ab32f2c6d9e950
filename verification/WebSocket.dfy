/** Server-to-client text frames, against the base framing protocol of section 5.2 of RFC 6455. */
module WebSocket {
  import opened Prelude

  const FIN_TEXT: Byte := 0x81
  const TWO_63: int := 0x8000_0000_0000_0000

  // ---------------------------------------------------------------- the encoder

  function Octet(n: nat): Byte {
    (n % 256) as Byte
  }

  function Header(length: nat): Bytes {
    if length < 126 then [FIN_TEXT, Octet(length)]
    else if length < 65536 then [FIN_TEXT, 126, Octet(length / 0x100), Octet(length)]
    else [FIN_TEXT, 127,
          Octet(length / 0x100_0000_0000_0000), Octet(length / 0x1_0000_0000_0000),
          Octet(length / 0x100_0000_0000), Octet(length / 0x1_0000_0000),
          Octet(length / 0x100_0000), Octet(length / 0x1_0000),
          Octet(length / 0x100), Octet(length)]
  }

  function TextFrame(data: Bytes): Bytes {
    Header(|data|) + data
  }

  // ---------------------------------------------------------------- the protocol's own reading

  /** Network byte order. */
  function BigEndian(bs: Bytes): (n: nat) {
    if bs == [] then 0 else 256 * BigEndian(bs[..|bs| - 1]) + bs[|bs| - 1] as nat
  }

  /** The first byte of a text frame: the bit that says it is final, and the opcode 1. */
  predicate IsFinalText(b: Byte) {
    b == 128 + 1
  }

  /** A header of an unmasked final text frame that declares this payload length, in any of the three forms. */
  predicate Declares(h: Bytes, length: nat) {
    && |h| >= 2 && IsFinalText(h[0])
    && (|| (|h| == 2 && h[1] < 126 && length == h[1] as nat)
        || (|h| == 4 && h[1] == 126 && length == BigEndian(h[2..]))
        || (|h| == 10 && h[1] == 127 && h[2] < 128 && length == BigEndian(h[2..])))
  }

  /** How long the header is, judged from its second byte. */
  function HeaderLength(second: Byte): nat {
    if second < 126 then 2 else if second == 126 then 4 else 10
  }

  function DeclaredLength(h: Bytes): nat
    requires |h| >= 2
  {
    if h[1] < 126 then h[1] as nat else BigEndian(h[2..])
  }

  datatype Parsed = Malformed | Frame(payload: Bytes, rest: Bytes)

  function Parse(bs: Bytes): (p: Parsed)
    ensures p.Frame? ==> |p.rest| < |bs|
  {
    if |bs| < 2 || !IsFinalText(bs[0]) || bs[1] >= 128 then Malformed
    else
      var k := HeaderLength(bs[1]);
      if |bs| < k || (k == 10 && bs[2] >= 128) then Malformed
      else
        var n := DeclaredLength(bs[..k]);
        if |bs| < k + n then Malformed else Frame(bs[k..k + n], bs[k + n..])
  }

  /** Splits a byte stream into payloads; None if it is not a sequence of whole frames. */
  function Split(bs: Bytes): Option<seq<Bytes>>
    decreases |bs|
  {
    if bs == [] then Some([])
    else
      var p := Parse(bs);
      if p.Malformed? then None
      else
        var others := Split(p.rest);
        if others.None? then None else Some([p.payload] + others.value)
  }

  function Stream(payloads: seq<Bytes>): Bytes {
    if payloads == [] then [] else TextFrame(payloads[0]) + Stream(payloads[1..])
  }

  // ---------------------------------------------------------------- correctness

  function Digits(n: nat, k: nat): (d: Bytes)
    ensures |d| == k
  {
    if k == 0 then [] else Digits(n / 256, k - 1) + [Octet(n)]
  }

  function Power(k: nat): (p: nat)
    ensures p > 0
  {
    if k == 0 then 1 else 256 * Power(k - 1)
  }

  lemma {:induction false} DigitsValue(n: nat, k: nat)
    requires n < Power(k)
    ensures BigEndian(Digits(n, k)) == n
  {
    if k > 0 {
      DigitsValue(n / 256, k - 1);
      assert Digits(n, k)[..k - 1] == Digits(n / 256, k - 1);
    }
  }

  lemma {:induction false} BigEndianBound(bs: Bytes)
    ensures BigEndian(bs) < Power(|bs|)
  {
    if bs != [] {
      BigEndianBound(bs[..|bs| - 1]);
    }
  }

  lemma TwoMoreDigits(n: nat, j: nat)
    ensures Digits(n, j + 2) == Digits(n / 0x1_0000, j) + [Octet(n / 0x100), Octet(n)]
  {}

  lemma FourMoreDigits(n: nat, j: nat)
    ensures Digits(n, j + 4)
         == Digits(n / 0x1_0000_0000, j) + [Octet(n / 0x100_0000), Octet(n / 0x1_0000), Octet(n / 0x100), Octet(n)]
  {
    var m := n / 0x1_0000;
    TwoMoreDigits(n, j + 2);
    TwoMoreDigits(m, j);
    assert m / 0x1_0000 == n / 0x1_0000_0000 && m / 0x100 == n / 0x100_0000;
  }

  lemma PowerValues()
    ensures Power(2) == 0x1_0000 && Power(8) == 0x1_0000_0000_0000_0000
  {}

  lemma LongHeaderDigits(n: nat)
    requires n >= 65536
    ensures Header(n)[2..] == Digits(n, 8)
  {
    var m := n / 0x1_0000_0000;
    FourMoreDigits(n, 4);
    FourMoreDigits(m, 0);
    assert m / 0x100 == n / 0x100_0000_0000 && m / 0x1_0000 == n / 0x1_0000_0000_0000
           && m / 0x100_0000 == n / 0x100_0000_0000_0000;
  }

  lemma MediumDeclares(length: nat)
    requires 126 <= length < 65536
    ensures Declares(Header(length), length)
  {
    PowerValues();
    TwoMoreDigits(length, 0);
    DigitsValue(length, 2);
    assert Header(length)[2..] == Digits(length, 2);
  }

  lemma TopOctet(length: nat)
    requires length < TWO_63
    ensures Octet(length / 0x100_0000_0000_0000) < 128
  {}

  lemma LongValue(length: nat)
    requires 65536 <= length < TWO_63
    ensures BigEndian(Header(length)[2..]) == length
  {
    PowerValues();
    LongHeaderDigits(length);
    DigitsValue(length, 8);
  }

  lemma LongShape(length: nat)
    requires 65536 <= length
    ensures var h := Header(length);
            |h| == 10 && h[0] == 0x81 && h[1] == 127 && h[2] == Octet(length / 0x100_0000_0000_0000)
  {}

  lemma LongDeclares(length: nat)
    requires 65536 <= length < TWO_63
    ensures Declares(Header(length), length)
  {
    TopOctet(length);
    LongValue(length);
    LongShape(length);
  }

  /** The header declares the length it was built for. */
  lemma HeaderDeclares(length: nat)
    requires length < TWO_63
    ensures Declares(Header(length), length)
  {
    if 126 <= length < 65536 {
      MediumDeclares(length);
    } else if length >= 65536 {
      LongDeclares(length);
    }
  }

  /** No header declaring the same length is shorter: the encoding is the minimal one the protocol demands. */
  lemma HeaderMinimal(length: nat, h: Bytes)
    requires length < TWO_63 && Declares(h, length)
    ensures |Header(length)| <= |h|
  {
    if |h| == 4 {
      PowerValues();
      BigEndianBound(h[2..]);
    }
  }

  lemma ParseTextFrame(data: Bytes, rest: Bytes)
    requires |data| < TWO_63
    ensures Parse(TextFrame(data) + rest) == Frame(data, rest)
  {
    var h, bs := Header(|data|), TextFrame(data) + rest;
    HeaderDeclares(|data|);
    assert bs[0] == h[0] && bs[1] == h[1] && |h| == HeaderLength(h[1]);
    assert bs[..|h|] == h;
    assert |h| == 10 ==> bs[2] == h[2];
    assert bs[|h|..|h| + |data|] == data;
    assert bs[|h| + |data|..] == rest;
  }

  /** Any concatenation of frames splits back into exactly the payloads it was made of. */
  lemma {:induction false} StreamRoundTrip(payloads: seq<Bytes>)
    requires forall i :: 0 <= i < |payloads| ==> |payloads[i]| < TWO_63
    ensures Split(Stream(payloads)) == Some(payloads)
  {
    if payloads != [] {
      var others := payloads[1..];
      StreamRoundTrip(others);
      ParseTextFrame(payloads[0], Stream(others));
      assert payloads == [payloads[0]] + others;
      assert Stream(payloads) == TextFrame(payloads[0]) + Stream(others);
    }
  }
}
