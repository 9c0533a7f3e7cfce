/**
 * The message frame of NEC's external control protocol for public displays
 * (RS-232C / LAN), as the two power frames of the bridge service use it:
 *
 *   SOH | '0' destination source type len-hi len-lo | STX message ETX | BCC | CR
 *
 * The two length bytes are the count of bytes from STX through ETX, written
 * as two upper-case ASCII hex digits; BCC is the XOR of every byte from the
 * reserved '0' through ETX. Encode builds a frame, Parse takes one apart, and
 * the two are inverse to each other (ParseEncode, EncodeParse).
 */
module NecFrame {
  import opened Wrappers

  const SOH: bv8 := 0x01
  const STX: bv8 := 0x02
  const ETX: bv8 := 0x03
  const CR: bv8 := 0x0D
  /** The first header byte, always ASCII '0'. */
  const RESERVED: bv8 := 0x30

  /** Header fields, each one ASCII byte. */
  datatype Header = Header(destination: bv8, source: bv8, messageType: bv8)

  /** The upper-case ASCII hex digit ('0'..'9', 'A'..'F') for a value below 16. */
  function HexDigit(n: nat): (c: bv8)
    requires n < 16
    ensures IsHexDigit(c)
  {
    if n == 0 then 0x30
    else if n == 1 then 0x31
    else if n == 2 then 0x32
    else if n == 3 then 0x33
    else if n == 4 then 0x34
    else if n == 5 then 0x35
    else if n == 6 then 0x36
    else if n == 7 then 0x37
    else if n == 8 then 0x38
    else if n == 9 then 0x39
    else if n == 10 then 0x41
    else if n == 11 then 0x42
    else if n == 12 then 0x43
    else if n == 13 then 0x44
    else if n == 14 then 0x45
    else 0x46
  }

  /** ASCII '0'..'9' and 'A'..'F'. */
  predicate IsHexDigit(c: bv8)
  {
    0x30 <= c <= 0x39 || 0x41 <= c <= 0x46
  }

  /** The value of an upper-case ASCII hex digit, None for any other byte. */
  function DigitValue(c: bv8): (r: Option<nat>)
    ensures r.Some? <==> IsHexDigit(c)
    ensures r.Some? ==> r.value < 16
  {
    if c == 0x30 then Some(0)
    else if c == 0x31 then Some(1)
    else if c == 0x32 then Some(2)
    else if c == 0x33 then Some(3)
    else if c == 0x34 then Some(4)
    else if c == 0x35 then Some(5)
    else if c == 0x36 then Some(6)
    else if c == 0x37 then Some(7)
    else if c == 0x38 then Some(8)
    else if c == 0x39 then Some(9)
    else if c == 0x41 then Some(10)
    else if c == 0x42 then Some(11)
    else if c == 0x43 then Some(12)
    else if c == 0x44 then Some(13)
    else if c == 0x45 then Some(14)
    else if c == 0x46 then Some(15)
    else None
  }

  lemma DigitRoundTrip(n: nat, c: bv8)
    requires n < 16
    ensures DigitValue(HexDigit(n)) == Some(n)
    ensures DigitValue(c) == Some(n) ==> HexDigit(n) == c
  {
  }

  /** The two-digit length field for a length below 256. */
  function LengthField(n: nat): (f: seq<bv8>)
    requires n < 256
    ensures |f| == 2 && IsHexDigit(f[0]) && IsHexDigit(f[1])
  {
    [HexDigit(n / 16), HexDigit(n % 16)]
  }

  /** The length a two-digit field denotes, None when a digit is not hex. */
  function LengthValue(hi: bv8, lo: bv8): (r: Option<nat>)
    ensures r.Some? <==> IsHexDigit(hi) && IsHexDigit(lo)
    ensures r.Some? ==> r.value < 256
  {
    match (DigitValue(hi), DigitValue(lo))
    case (Some(h), Some(l)) => Some(16 * h + l)
    case _ => None
  }

  /** Reading a length field back gives the length, and only its own field gives it. */
  lemma LengthRoundTrip(n: nat, hi: bv8, lo: bv8)
    requires n < 256
    ensures LengthValue(LengthField(n)[0], LengthField(n)[1]) == Some(n)
    ensures LengthValue(hi, lo) == Some(n) ==> LengthField(n) == [hi, lo]
  {
    DigitRoundTrip(n / 16, hi);
    DigitRoundTrip(n % 16, lo);
    if LengthValue(hi, lo) == Some(n) {
      var h, l := DigitValue(hi).value, DigitValue(lo).value;
      assert 16 * h + l == n;
      assert n / 16 == h && n % 16 == l;
    }
  }

  /** XOR of all bytes, the block check of the frame. */
  function Xor(s: seq<bv8>): bv8
  {
    if s == [] then 0 else Xor(s[..|s| - 1]) ^ s[|s| - 1]
  }

  /** The frame that carries `message` under header `h`; its layout is stated by EncodeLayout. */
  function Encode(h: Header, message: seq<bv8>): (f: seq<bv8>)
    requires |message| + 2 < 256
    ensures |f| == |message| + 11
  {
    var c := Checked(h, message);
    [SOH] + c + [Xor(c), CR]
  }

  /** The bytes the block check covers: reserved byte, header, length field, STX, message, ETX. */
  function Checked(h: Header, message: seq<bv8>): (c: seq<bv8>)
    requires |message| + 2 < 256
    ensures |c| == |message| + 8
  {
    [RESERVED, h.destination, h.source, h.messageType] + LengthField(|message| + 2) + ([STX] + message + [ETX])
  }

  lemma CheckedLayout(h: Header, message: seq<bv8>)
    requires |message| + 2 < 256
    ensures var c := Checked(h, message);
      && c[0] == RESERVED && c[1..4] == [h.destination, h.source, h.messageType]
      && LengthValue(c[4], c[5]) == Some(|message| + 2)
      && c[6] == STX && c[|c| - 1] == ETX && c[7..|c| - 1] == message
  {
    var c := Checked(h, message);
    var body := [STX] + message + [ETX];
    LengthRoundTrip(|message| + 2, 0, 0);
    assert c[6..] == body;
    assert c[7..|c| - 1] == body[1..|body| - 1] == message;
  }

  /**
   * Where everything sits in an encoded frame: framing bytes at both ends,
   * the header after SOH, the length field counting STX through ETX, the
   * message between STX and ETX, and the block check over bytes 1 through ETX.
   */
  lemma EncodeLayout(h: Header, message: seq<bv8>)
    requires |message| + 2 < 256
    ensures var f := Encode(h, message);
      && f[0] == SOH && f[1] == RESERVED && f[7] == STX && f[|f| - 3] == ETX && f[|f| - 1] == CR
      && f[2..5] == [h.destination, h.source, h.messageType]
      && LengthValue(f[5], f[6]) == Some(|f[7..|f| - 2]|)
      && f[8..|f| - 3] == message
      && f[|f| - 2] == Xor(f[1..|f| - 2])
  {
    var f := Encode(h, message);
    var c := Checked(h, message);
    CheckedLayout(h, message);
    assert f[1..|f| - 2] == c;
    forall i | 0 <= i < |c|
      ensures f[i + 1] == c[i]
    {
    }
    assert f[2..5] == c[1..4];
    assert f[8..|f| - 3] == c[7..|c| - 1];
  }

  /**
   * The header and message of a frame, or None when any framing byte, the
   * length field or the block check is wrong.
   */
  function Parse(f: seq<bv8>): (r: Option<(Header, seq<bv8>)>)
  {
    if |f| < 11 || f[0] != SOH || f[1] != RESERVED then None
    else match LengthValue(f[5], f[6])
      case None => None
      case Some(n) =>
        if n < 2 || |f| != n + 9 || f[7] != STX || f[n + 6] != ETX
           || f[n + 7] != Xor(f[1..n + 7]) || f[n + 8] != CR
        then None
        else Some((Header(f[2], f[3], f[4]), f[8..n + 6]))
  }

  /** A byte sequence is a well-formed frame when it parses. */
  predicate WellFormed(f: seq<bv8>)
  {
    Parse(f).Some?
  }

  lemma ParseEncode(h: Header, message: seq<bv8>)
    requires |message| + 2 < 256
    ensures Parse(Encode(h, message)) == Some((h, message))
  {
    var f := Encode(h, message);
    EncodeLayout(h, message);
    var n := |message| + 2;
    assert |f[7..|f| - 2]| == n;
    assert f[n + 6] == f[|f| - 3];
    assert f[1..n + 7] == f[1..|f| - 2];
    assert f[8..n + 6] == message;
  }

  lemma EncodeParse(f: seq<bv8>)
    requires WellFormed(f)
    ensures |Parse(f).value.1| + 2 < 256
    ensures Encode(Parse(f).value.0, Parse(f).value.1) == f
  {
    EncodeRebuilds(f, LengthValue(f[5], f[6]).value);
  }

  /** Encoding the fields read from a frame that passes every check of Parse gives the frame back. */
  lemma EncodeRebuilds(f: seq<bv8>, n: int)
    requires 2 <= n < 256 && |f| == n + 9
    requires f[0] == SOH && f[1] == RESERVED && LengthValue(f[5], f[6]) == Some(n)
    requires f[7] == STX && f[n + 6] == ETX && f[n + 7] == Xor(f[1..n + 7]) && f[n + 8] == CR
    ensures Encode(Header(f[2], f[3], f[4]), f[8..n + 6]) == f
  {
    var m := f[8..n + 6];
    var g := Encode(Header(f[2], f[3], f[4]), m);
    EncodeLayout(Header(f[2], f[3], f[4]), m);
    LengthRoundTrip(n, f[5], f[6]);
    LengthRoundTrip(n, g[5], g[6]);
    assert g[2..5] == [f[2], f[3], f[4]] == f[2..5];
    SameFrame(g, f);
    assert g == f;
  }

  /** Two frames of one length that agree on header, length field and message agree on every byte. */
  lemma SameFrame(g: seq<bv8>, f: seq<bv8>)
    requires |g| == |f| >= 11
    requires g[0] == f[0] && g[1] == f[1] && g[2..5] == f[2..5] && g[5] == f[5] && g[6] == f[6] && g[7] == f[7]
    requires g[8..|g| - 3] == f[8..|f| - 3] && g[|g| - 3] == f[|f| - 3] && g[|g| - 1] == f[|f| - 1]
    requires g[|g| - 2] == Xor(g[1..|g| - 2]) && f[|f| - 2] == Xor(f[1..|f| - 2])
    ensures g == f
  {
    forall i | 1 <= i < |g| - 2
      ensures g[i] == f[i]
    {
      if 8 <= i < |g| - 3 {
        assert g[i] == g[8..|g| - 3][i - 8];
        assert f[i] == f[8..|f| - 3][i - 8];
      } else if 2 <= i < 5 {
        assert g[i] == g[2..5][i - 2];
        assert f[i] == f[2..5][i - 2];
      }
    }
    assert g[1..|g| - 2] == f[1..|f| - 2];
  }
}
