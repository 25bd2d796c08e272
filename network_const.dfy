/** code/network/const.py: a colour travels over the network as one
    integer, red in the bits from 16 up, green in bits 8-15 and blue in
    bits 0-7, and a packet carries one such colour per light. */
module NetworkConst {
  import opened Wrappers
  import opened Text

  /** The size a | b recurses on: each halving brings a value closer to 0 or
      -1, where its bits stop changing. */
  function BitSize(a: int): nat
  {
    if a < 0 then -a - 1 else a
  }

  /** Python's a | b on integers, bit by bit; a negative integer has
      infinitely many leading one bits, as in two's complement. Halving with
      Dafny's / is Python's >> 1, since the divisor 2 is positive. */
  function BitOr(a: int, b: int): int
    decreases BitSize(a) + BitSize(b)
  {
    if a == 0 then b
    else if b == 0 then a
    else if a == -1 || b == -1 then -1
    else 2 * BitOr(a / 2, b / 2) + (if a % 2 == 1 || b % 2 == 1 then 1 else 0)
  }

  function Pow2(k: nat): (p: nat)
    ensures p >= 1
  {
    if k == 0 then 1 else 2 * Pow2(k - 1)
  }

  /** a << k, which Python defines as a * 2 ** k for negative a too. */
  function ShiftLeft(a: int, k: nat): int
  {
    a * Pow2(k)
  }

  /** Or-ing a value whose low k bits are clear with a value in 0..2^k-1
      adds them. */
  lemma {:induction false} OrDisjoint(a: int, b: nat, k: nat)
    requires b < Pow2(k)
    ensures BitOr(ShiftLeft(a, k), b) == ShiftLeft(a, k) + b
  {
    if k == 0 {
      assert b == 0;
    } else if a != 0 && b != 0 {
      var x := ShiftLeft(a, k);
      ShiftStep(a, k);
      assert x / 2 == ShiftLeft(a, k - 1) && x % 2 == 0;
      assert b / 2 < Pow2(k - 1);
      OrDisjoint(a, b / 2, k - 1);
      assert BitOr(x, b) == 2 * (ShiftLeft(a, k - 1) + b / 2) + b % 2;
    }
  }

  /** encode_rgb(r, g, b) = r << 16 | g << 8 | b. */
  function EncodeRgb(r: int, g: int, b: int): int
  {
    BitOr(BitOr(ShiftLeft(r, 16), ShiftLeft(g, 8)), b)
  }

  /** With green and blue in 0..255 the fields do not overlap, and the code
      is r * 65536 + g * 256 + b, whatever the sign of red. */
  lemma EncodeRgbValue(r: int, g: int, b: int)
    requires 0 <= g < 256 && 0 <= b < 256
    ensures EncodeRgb(r, g, b) == r * 65536 + g * 256 + b
  {
    assert Pow2(8) == 256 by {
      assert Pow2(4) == 16;
    }
    Pow2Add(8, 8);
    assert ShiftLeft(r, 16) == ShiftLeft(r * 256, 8);
    OrShifted(r * 256, g, 8);
    OrDisjoint(r, g, 8);
    assert BitOr(r * 256, g) == r * 256 + g;
    OrDisjoint(r * 256 + g, b, 8);
  }

  lemma {:induction false} Pow2Add(i: nat, j: nat)
    ensures Pow2(i + j) == Pow2(i) * Pow2(j)
  {
    if i > 0 {
      Pow2Add(i - 1, j);
      assert Pow2(i + j) == 2 * Pow2(i - 1 + j);
    }
  }

  lemma OrDouble(a: int, b: int)
    ensures BitOr(2 * a, 2 * b) == 2 * BitOr(a, b)
  {
    if a != 0 && b != 0 {
      assert (2 * a) / 2 == a && (2 * b) / 2 == b;
      assert (2 * a) % 2 == 0 && (2 * b) % 2 == 0;
    }
  }

  lemma ShiftStep(c: int, k: nat)
    requires k > 0
    ensures ShiftLeft(c, k) == 2 * ShiftLeft(c, k - 1)
  {
    assert c * Pow2(k) == c * (2 * Pow2(k - 1));
  }

  /** Shifting both operands shifts their or. */
  lemma {:induction false} OrShifted(a: int, b: int, k: nat)
    ensures BitOr(ShiftLeft(a, k), ShiftLeft(b, k)) == ShiftLeft(BitOr(a, b), k)
  {
    if k > 0 {
      OrShifted(a, b, k - 1);
      ShiftStep(a, k);
      ShiftStep(b, k);
      ShiftStep(BitOr(a, b), k);
      OrDouble(ShiftLeft(a, k - 1), ShiftLeft(b, k - 1));
    }
  }

  /** decode_rgb: b = v & 255, g = (v >> 8) & 255, r = v >> 16. Python's
      & 255 and >> 8 agree with Euclidean % 256 and / 256 on every
      integer, negative ones included. */
  function DecodeRgb(v: int): (c: (int, int, int))
    ensures 0 <= c.1 < 256 && 0 <= c.2 < 256
    ensures v >= 0 <==> c.0 >= 0
    ensures c.0 * 65536 + c.1 * 256 + c.2 == v
  {
    var b := v % 256;
    var rest := v / 256;
    (rest / 256, rest % 256, b)
  }

  /** Decoding undoes encoding for green and blue in 0..255. */
  lemma DecodeEncode(r: int, g: int, b: int)
    requires 0 <= g < 256 && 0 <= b < 256
    ensures DecodeRgb(EncodeRgb(r, g, b)) == (r, g, b)
  {
    EncodeRgbValue(r, g, b);
    var v := EncodeRgb(r, g, b);
    assert v == (r * 256 + g) * 256 + b;
    assert v % 256 == b && v / 256 == r * 256 + g;
  }

  /** Encoding undoes decoding for every code, negative ones included. */
  lemma EncodeDecode(v: int)
    ensures var c := DecodeRgb(v); EncodeRgb(c.0, c.1, c.2) == v
  {
    var c := DecodeRgb(v);
    EncodeRgbValue(c.0, c.1, c.2);
  }

  datatype Rgb = Rgb(r: int, g: int, b: int)

  /** RGB.to_json: the colour's code. */
  function RgbToJson(c: Rgb): int
  {
    EncodeRgb(c.r, c.g, c.b)
  }

  /** RGB.from_json: the text read as a plain integer (ParseInt), decoded;
      None where it is not one. A negative code gives a negative red. */
  function RgbFromJson(text: string): (r: Option<Rgb>)
    ensures r.Some? <==> ParseInt(text).Some?
    ensures r.Some? ==> 0 <= r.value.g < 256 && 0 <= r.value.b < 256
    ensures r.Some? ==> (r.value.r < 0 <==> ParseInt(text).value < 0)
    ensures r.Some? ==> RgbToJson(r.value) == ParseInt(text).value
  {
    match ParseInt(text)
    case None => None
    case Some(v) =>
      var c := DecodeRgb(v);
      EncodeDecode(v);
      Some(Rgb(c.0, c.1, c.2))
  }

  /** RGB.from_json(str(c.to_json())) == c for green and blue in 0..255. */
  lemma RgbJsonRoundTrip(c: Rgb)
    requires 0 <= c.g < 256 && 0 <= c.b < 256
    ensures RgbFromJson(DecimalString(RgbToJson(c))) == Some(c)
  {
    ParseDecimalString(RgbToJson(c));
    DecodeEncode(c.r, c.g, c.b);
  }

  /** The code "-1" decodes to red -1 with green and blue 255. */
  lemma NegativeCodeColour()
    ensures RgbFromJson("-1") == Some(Rgb(-1, 255, 255))
  {
    var text := DecimalString(-1);
    assert text == "-1" by {
      assert NatDigits(1) == [DigitChar(1)];
    }
    ParseDecimalString(-1);
    assert DecodeRgb(-1) == (-1, 255, 255);
    assert RgbFromJson(text) == Some(Rgb(-1, 255, 255));
  }

  datatype Frame = Frame(id: int, pix: seq<Rgb>)
  datatype Packet = Packet(sender: string, instruction: string, frame: Frame)

  /** The grey level make_packet gives light x. */
  function PacketLevel(x: nat): (v: nat)
    ensures 100 <= v < 200
  {
    x % 100 + 100
  }

  /** make_packet: frame 1 with 500 grey lights, light x at level
      x % 100 + 100. */
  method MakePacket(localIp: string, direction: string) returns (p: Packet)
    ensures p.sender == localIp && p.instruction == direction && p.frame.id == 1
    ensures |p.frame.pix| == 500
    ensures forall x | 0 <= x < 500 :: p.frame.pix[x] == Rgb(PacketLevel(x), PacketLevel(x), PacketLevel(x))
    ensures forall x | 0 <= x < 500 :: 100 <= p.frame.pix[x].r < 200 && p.frame.pix[x].r == p.frame.pix[x].g == p.frame.pix[x].b
  {
    var leds: seq<Rgb> := [];
    for x := 0 to 500
      invariant |leds| == x
      invariant forall i | 0 <= i < x :: leds[i] == Rgb(PacketLevel(i), PacketLevel(i), PacketLevel(i))
    {
      var v := (x % 100) + 100;
      leds := leds + [Rgb(v, v, v)];
    }
    p := Packet(localIp, direction, Frame(1, leds));
  }
}
