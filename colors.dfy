/** The software renderer's colour arithmetic on `Uint32` pixels laid out
    as `0x00RRGGBB`: the static `ColorAdd` and `ColorBlend` (the inline
    `ColorBlend` is the same computation) and the inline `ColorSubtract`.

    A pixel is an unsigned integer below 2^32. `c >> 16 & 0xFF` is
    `(c / 0x1_0000) % 0x100`, a mask that keeps whole channels is written
    with the channels it keeps (`c & 0xFF00FF` is `Rgb(Red(c), 0,
    Blue(c))`), `>> 8` of an unsigned value is division by 0x100, and a
    `Uint32` product or difference is reduced modulo 2^32. */
module Colors {
  import opened Machine

  const TWO_TO_24: int := 0x100_0000

  /** `c >> 16 & 0xFF`. */
  function Red(c: nat): byte
  {
    (c / 0x1_0000) % 0x100
  }

  /** `c >> 8 & 0xFF`. */
  function Green(c: nat): byte
  {
    (c / 0x100) % 0x100
  }

  /** `c & 0xFF`. */
  function Blue(c: nat): byte
  {
    c % 0x100
  }

  /** `r << 16 | g << 8 | b` for three bytes, whose lanes do not overlap:
      each channel reads back, and the top byte is clear. */
  function Rgb(r: byte, g: byte, b: byte): (c: uint32)
    ensures c < TWO_TO_24
    ensures Red(c) == r && Green(c) == g && Blue(c) == b
  {
    var c := r * 0x1_0000 + g * 0x100 + b;
    DivUnique(c, 0x1_0000, r, g * 0x100 + b);
    DivUnique(c, 0x100, r * 0x100 + g, b);
    c
  }

  /** Division is determined by a quotient and a remainder in range. */
  lemma DivUnique(c: int, m: int, q: int, x: int)
    requires m > 0 && 0 <= x < m && c == m * q + x
    ensures c / m == q && c % m == x
  {
    var d, r := c / m, c % m;
    assert m * (d - q) == x - r;
    if d > q {
      MulAtLeast(m, d - q);
    } else if d < q {
      MulAtLeast(m, q - d);
    }
  }

  lemma MulAtLeast(m: int, k: int)
    requires m > 0 && k >= 1
    ensures m * k >= m
  {
  }

  /** Packing a colour's own channels gives its low 24 bits,
      `c & 0xFFFFFF`. */
  lemma RgbOfChannels(c: nat)
    ensures Rgb(Red(c), Green(c), Blue(c)) == c % TWO_TO_24
  {
    var m, h := c / 0x100, c / 0x1_0000;
    DivUnique(c, 0x100, m, c % 0x100);
    DivUnique(m, 0x100, m / 0x100, m % 0x100);
    DivUnique(c, 0x1_0000, m / 0x100, (m % 0x100) * 0x100 + c % 0x100);
    DivUnique(h, 0x100, h / 0x100, h % 0x100);
    DivUnique(c, TWO_TO_24, h / 0x100, (h % 0x100) * 0x1_0000 + (m % 0x100) * 0x100 + c % 0x100);
  }

  /** The channels of a colour are those of its low 24 bits. */
  lemma ChannelsOfLow24(c: nat)
    ensures Red(c % TWO_TO_24) == Red(c)
    ensures Green(c % TWO_TO_24) == Green(c)
    ensures Blue(c % TWO_TO_24) == Blue(c)
  {
    RgbOfChannels(c);
  }

  /** `ch * percent >> 8` in `Uint32` arithmetic: `percent` converts to
      unsigned, the product wraps, and the shift divides by 256. */
  function Scaled(ch: uint32, percent: int32): (r: nat)
    ensures r < TWO_TO_24
  {
    (ch * AsUint32(percent)) % TWO_TO_32 / 0x100
  }

  /** Scaling by 0 gives 0. */
  lemma ScaledZero(ch: uint32)
    ensures Scaled(ch, 0) == 0
  {
  }

  /** Scaling by 256 keeps the low 24 bits: the product drops the top
      byte, and the shift gives back the rest. */
  lemma ScaledFull(ch: uint32)
    ensures Scaled(ch, 0x100) == ch % TWO_TO_24
  {
    var p := ch * 0x100;
    DivUnique(p, TWO_TO_32, ch / TWO_TO_24, (ch % TWO_TO_24) * 0x100);
    DivUnique((ch % TWO_TO_24) * 0x100, 0x100, ch % TWO_TO_24, 0);
  }

  function Min(a: int, b: int): int
  {
    if a < b then a else b
  }

  // ---------------------------------------------------------------------
  // ColorAdd

  /** One channel of the static `ColorAdd`: a scaled amount (below 2^24,
      so the `Uint32` sum cannot wrap) is added to the channel and the sum
      capped at 0xFF. */
  function AddChannel(ch: byte, amount: nat): (r: byte)
    ensures ch <= r
    ensures ch + amount <= 0xFF ==> r == ch + amount
    ensures ch + amount > 0xFF ==> r == 0xFF
  {
    var s := ch + amount;
    if s > 0xFF then 0xFF else s
  }

  /** The static `SoftwareRenderer::ColorAdd`: the channels do not
      interfere; each is the first colour's plus the same channel of the
      second, scaled, and capped at 0xFF, and the top byte is clear. */
  function ColorAdd(color1: uint32, color2: uint32, percent: int32): (c: uint32)
    ensures c < TWO_TO_24
    ensures Red(c) == AddChannel(Red(color1), Scaled(Red(color2), percent))
    ensures Green(c) == AddChannel(Green(color1), Scaled(Green(color2), percent))
    ensures Blue(c) == AddChannel(Blue(color1), Scaled(Blue(color2), percent))
  {
    Rgb(AddChannel(Red(color1), Scaled(Red(color2), percent)),
        AddChannel(Green(color1), Scaled(Green(color2), percent)),
        AddChannel(Blue(color1), Scaled(Blue(color2), percent)))
  }

  /** At percent 0 nothing is added: the first colour without its top
      byte. */
  lemma ColorAddZero(color1: uint32, color2: uint32)
    ensures ColorAdd(color1, color2, 0) == color1 % TWO_TO_24
  {
    ScaledZero(Red(color2));
    ScaledZero(Green(color2));
    ScaledZero(Blue(color2));
    RgbOfChannels(color1);
  }

  /** At percent 256 each channel is the saturating sum of the two. */
  lemma ColorAddFull(color1: uint32, color2: uint32)
    ensures Red(ColorAdd(color1, color2, 0x100)) == Min(0xFF, Red(color1) + Red(color2))
    ensures Green(ColorAdd(color1, color2, 0x100)) == Min(0xFF, Green(color1) + Green(color2))
    ensures Blue(ColorAdd(color1, color2, 0x100)) == Min(0xFF, Blue(color1) + Blue(color2))
  {
    AddChannelFull(Red(color1), Red(color2));
    AddChannelFull(Green(color1), Green(color2));
    AddChannelFull(Blue(color1), Blue(color2));
  }

  /** One channel at percent 256: the saturating sum. */
  lemma AddChannelFull(ch1: byte, ch2: byte)
    ensures AddChannel(ch1, Scaled(ch2, 0x100)) == Min(0xFF, ch1 + ch2)
  {
    ScaledFull(ch2);
    DivUnique(ch2, TWO_TO_24, 0, ch2);
  }

  // ---------------------------------------------------------------------
  // ColorBlend

  /** `c & 0xFF00FF`. */
  function RedBlue(c: nat): uint32
  {
    Rgb(Red(c), 0, Blue(c))
  }

  /** `c & 0x00FF00`. */
  function GreenOnly(c: nat): uint32
  {
    Rgb(0, Green(c), 0)
  }

  /** `lane += ((other - lane) * percent) >> 8` in `Uint32` arithmetic. */
  function BlendLane(lane: uint32, other: uint32, percent: int32): uint32
  {
    (lane + Scaled((other - lane) % TWO_TO_32, percent)) % TWO_TO_32
  }

  /** `ColorBlend` (the static and the inline one compute the same): red
      and blue are blended together in one word and green in another, and
      the result keeps the red and blue channels of the first word and the
      green channel of the second. */
  function ColorBlend(color1: uint32, color2: uint32, percent: int32): (c: uint32)
    ensures c < TWO_TO_24
  {
    var rb := BlendLane(RedBlue(color1), RedBlue(color2), percent);
    var g := BlendLane(GreenOnly(color1), GreenOnly(color2), percent);
    Rgb(Red(rb), Green(g), Blue(rb))
  }

  /** A lane blended at percent 0 is left as it is. */
  lemma BlendLaneZero(lane: uint32, other: uint32)
    ensures BlendLane(lane, other, 0) == lane
  {
    ScaledZero((other - lane) % TWO_TO_32);
  }

  /** At percent 0 the blend is the first colour without its top byte. */
  lemma ColorBlendZero(color1: uint32, color2: uint32)
    ensures ColorBlend(color1, color2, 0) == color1 % TWO_TO_24
  {
    BlendLaneZero(RedBlue(color1), RedBlue(color2));
    BlendLaneZero(GreenOnly(color1), GreenOnly(color2));
    RgbOfChannels(color1);
  }

  /** A lane blended at percent 256 lands on the other lane in its low 24
      bits: the shift drops exactly the bits the `* 256` pushed out. */
  lemma BlendLaneFull(lane: uint32, other: uint32)
    requires lane < TWO_TO_24 && other < TWO_TO_24
    ensures BlendLane(lane, other, 0x100) % TWO_TO_24 == other
  {
    var d := (other - lane) % TWO_TO_32;
    ScaledFull(d);
    if other >= lane {
      DivUnique(other - lane, TWO_TO_32, 0, other - lane);
      DivUnique(other - lane, TWO_TO_24, 0, other - lane);
    } else {
      DivUnique(other - lane, TWO_TO_32, -1, other - lane + TWO_TO_32);
      DivUnique(other - lane + TWO_TO_32, TWO_TO_24, 0xFF, other - lane + TWO_TO_24);
      DivUnique(other + TWO_TO_24, TWO_TO_32, 0, other + TWO_TO_24);
      DivUnique(other + TWO_TO_24, TWO_TO_24, 1, other);
    }
  }

  /** At percent 256 the blend is the second colour without its top byte. */
  lemma ColorBlendFull(color1: uint32, color2: uint32)
    ensures ColorBlend(color1, color2, 0x100) == color2 % TWO_TO_24
  {
    var rb := BlendLane(RedBlue(color1), RedBlue(color2), 0x100);
    var g := BlendLane(GreenOnly(color1), GreenOnly(color2), 0x100);
    BlendLaneFull(RedBlue(color1), RedBlue(color2));
    BlendLaneFull(GreenOnly(color1), GreenOnly(color2));
    ChannelsOfLow24(rb);
    ChannelsOfLow24(g);
    RgbOfChannels(color2);
  }

  /** A lane blended with itself is left as it is, at any percent. */
  lemma BlendLaneSelf(lane: uint32, percent: int32)
    ensures BlendLane(lane, lane, percent) == lane
  {
    assert (lane - lane) % TWO_TO_32 == 0;
    assert Scaled(0, percent) == 0;
  }

  /** Blending a colour with itself leaves it, at any percent. */
  lemma ColorBlendSelf(color: uint32, percent: int32)
    ensures ColorBlend(color, color, percent) == color % TWO_TO_24
  {
    BlendLaneSelf(RedBlue(color), percent);
    BlendLaneSelf(GreenOnly(color), percent);
    assert ColorBlend(color, color, percent) == Rgb(Red(color), Green(color), Blue(color));
    RgbOfChannels(color);
  }

  // ---------------------------------------------------------------------
  // ColorSubtract

  /** Bitwise OR of two naturals. */
  function Or(a: nat, b: nat): nat
  {
    if a == 0 then b
    else if b == 0 then a
    else 2 * Or(a / 2, b / 2) + (if a % 2 == 1 || b % 2 == 1 then 1 else 0)
  }

  predicate IsPow2(m: nat)
  {
    m == 1 || (m >= 2 && m % 2 == 0 && IsPow2(m / 2))
  }

  /** OR-ing bits below a power of two into a multiple of it adds them. */
  lemma {:induction false} OrLow(q: nat, m: nat, y: nat)
    requires IsPow2(m) && y < m
    ensures Or(q * m, y) == q * m + y
    decreases m
  {
    if m > 1 && q * m != 0 && y != 0 {
      var h := m / 2;
      assert q * m == 2 * (q * h);
      DivUnique(q * m, 2, q * h, 0);
      OrLow(q, h, y / 2);
    }
  }

  /** The three channel lanes OR together into the packed colour. */
  lemma OrOfLanes(r: byte, g: byte, b: byte)
    ensures Or(Or(r * 0x1_0000, g * 0x100), b) == Rgb(r, g, b)
  {
    assert IsPow2(0x100);
    assert IsPow2(0x1_0000);
    OrLow(r, 0x1_0000, g * 0x100);
    assert r * 0x1_0000 + g * 0x100 == (r * 0x100 + g) * 0x100;
    OrLow(r * 0x100 + g, 0x100, b);
  }

  /** `c & 0xFF0000`. */
  function RedOnly(c: nat): uint32
  {
    Rgb(Red(c), 0, 0)
  }

  /** `c & 0xFF`. */
  function BlueOnly(c: nat): uint32
  {
    Rgb(0, 0, Blue(c))
  }

  /** One lane of the inline `ColorSubtract` as written: the masked lane of
      the first colour less the scaled masked lane of the second, read as
      a `Sint32` and set to 0 when negative. Both operands are below 2^24,
      so the `Sint32` is the true difference. The difference is not
      masked back to its lane. */
  function SubtractLaneAsWritten(lane1: uint32, lane2: uint32, percent: int32): (r: nat)
    ensures lane1 >= Scaled(lane2, percent) ==> r == lane1 - Scaled(lane2, percent)
    ensures lane1 < Scaled(lane2, percent) ==> r == 0
  {
    var d := lane1 - Scaled(lane2, percent);
    if d < 0 then 0 else d
  }

  /** The inline `ColorSubtract` as written: the three clamped lane
      differences OR-ed together. */
  function ColorSubtractAsWritten(color1: uint32, color2: uint32, percent: int32): nat
  {
    Or(Or(SubtractLaneAsWritten(RedOnly(color1), RedOnly(color2), percent),
          SubtractLaneAsWritten(GreenOnly(color1), GreenOnly(color2), percent)),
       SubtractLaneAsWritten(BlueOnly(color1), BlueOnly(color2), percent))
  }

  /** One channel of the channel-wise subtraction: a scaled amount is taken
      from the channel, which stops at 0. */
  function SubtractChannel(ch: byte, amount: nat): (r: byte)
    ensures r <= ch
    ensures amount <= ch ==> r == ch - amount
    ensures amount > ch ==> r == 0
  {
    if amount > ch then 0 else ch - amount
  }

  /** `ColorSubtract` written channel by channel, as the static `ColorAdd`
      is, so that no channel can borrow from its neighbour: each channel is
      the first colour's less the same channel of the second, scaled, and
      stops at 0, and the top byte is clear. */
  function ColorSubtract(color1: uint32, color2: uint32, percent: int32): (c: uint32)
    ensures c < TWO_TO_24
    ensures Red(c) == SubtractChannel(Red(color1), Scaled(Red(color2), percent))
    ensures Green(c) == SubtractChannel(Green(color1), Scaled(Green(color2), percent))
    ensures Blue(c) == SubtractChannel(Blue(color1), Scaled(Blue(color2), percent))
  {
    Rgb(SubtractChannel(Red(color1), Scaled(Red(color2), percent)),
        SubtractChannel(Green(color1), Scaled(Green(color2), percent)),
        SubtractChannel(Blue(color1), Scaled(Blue(color2), percent)))
  }

  /** The masked lanes of a full red. */
  lemma FullRedLanes()
    ensures RedOnly(0xFF_0000) == 0xFF_0000
    ensures GreenOnly(0xFF_0000) == 0
    ensures BlueOnly(0xFF_0000) == 0
  {
    FullRedRed();
    FullRedGreen();
    FullRedBlue();
  }

  lemma FullRedRed()
    ensures RedOnly(0xFF_0000) == 0xFF_0000
  {
    assert Red(0xFF_0000) == 0xFF;
    assert Rgb(0xFF, 0, 0) == 0xFF_0000;
  }

  lemma FullRedGreen()
    ensures GreenOnly(0xFF_0000) == 0
  {
    assert Green(0xFF_0000) == 0;
    assert Rgb(0, 0, 0) == 0;
  }

  lemma FullRedBlue()
    ensures BlueOnly(0xFF_0000) == 0
  {
    assert Blue(0xFF_0000) == 0;
    assert Rgb(0, 0, 0) == 0;
  }

  /** The red lane less 255/256 of itself leaves 0xFF00, below the lane. */
  lemma FullRedLaneDifference()
    ensures SubtractLaneAsWritten(0xFF_0000, 0xFF_0000, 0xFF) == 0xFF00
    ensures SubtractLaneAsWritten(0, 0, 0xFF) == 0
  {
    assert Scaled(0xFF_0000, 0xFF) == 0xFE_0100;
    assert Scaled(0, 0xFF) == 0;
  }

  /** Taking a full red at percent 255 from a full red borrows into the
      green lane: the result as written is pure bright green. */
  lemma ColorSubtractAsWrittenSpills(red: uint32)
    requires red == 0xFF_0000
    ensures ColorSubtractAsWritten(red, red, 0xFF) == 0xFF00
  {
    FullRedLanes();
    FullRedLaneDifference();
  }

  /** The channel-wise subtraction of the same colours leaves red at 1. */
  lemma ColorSubtractLeavesRed(red: uint32)
    requires red == 0xFF_0000
    ensures ColorSubtract(red, red, 0xFF) == 0x1_0000
  {
    assert Red(red) == 0xFF && Green(red) == 0 && Blue(red) == 0;
    assert Scaled(0xFF, 0xFF) == 0xFE;
    assert Scaled(0, 0xFF) == 0;
    assert Rgb(1, 0, 0) == 0x1_0000;
  }

  /** One lane at percent 256: the scaled lane is the lane itself, so the
      clamped difference is the clamped channel difference in its place. */
  lemma SubtractLaneAtFull(ch1: byte, ch2: byte, unit: nat)
    requires unit == 1 || unit == 0x100 || unit == 0x1_0000
    ensures SubtractLaneAsWritten(ch1 * unit, ch2 * unit, 0x100) == SubtractChannel(ch1, ch2) * unit
  {
    ScaledFull(ch2 * unit);
    DivUnique(ch2 * unit, TWO_TO_24, 0, ch2 * unit);
    ScaledFull(ch2);
    DivUnique(ch2, TWO_TO_24, 0, ch2);
    if ch2 > ch1 {
      assert ch1 * unit < ch2 * unit;
    } else {
      assert ch1 * unit - ch2 * unit == (ch1 - ch2) * unit;
    }
  }

  /** At percent 256 nothing borrows: the subtraction as written agrees
      with the channel-wise one. */
  lemma ColorSubtractAsWrittenAgreesAtFull(color1: uint32, color2: uint32)
    ensures ColorSubtractAsWritten(color1, color2, 0x100) == ColorSubtract(color1, color2, 0x100)
  {
    var r1, g1, b1 := Red(color1), Green(color1), Blue(color1);
    var r2, g2, b2 := Red(color2), Green(color2), Blue(color2);
    assert RedOnly(color1) == r1 as int * 0x1_0000 && RedOnly(color2) == r2 as int * 0x1_0000;
    assert GreenOnly(color1) == g1 as int * 0x100 && GreenOnly(color2) == g2 as int * 0x100;
    assert BlueOnly(color1) == b1 && BlueOnly(color2) == b2;
    SubtractLaneAtFull(r1, r2, 0x1_0000);
    SubtractLaneAtFull(g1, g2, 0x100);
    SubtractLaneAtFull(b1, b2, 1);
    ScaledFull(r2);
    ScaledFull(g2);
    ScaledFull(b2);
    DivUnique(r2, TWO_TO_24, 0, r2);
    DivUnique(g2, TWO_TO_24, 0, g2);
    DivUnique(b2, TWO_TO_24, 0, b2);
    var r, g, b := SubtractChannel(r1, r2), SubtractChannel(g1, g2), SubtractChannel(b1, b2);
    OrOfLanes(r, g, b);
    assert ColorSubtract(color1, color2, 0x100) == Rgb(r, g, b);
  }

  /** At percent 0 nothing is taken: the first colour without its top
      byte. */
  lemma ColorSubtractZero(color1: uint32, color2: uint32)
    ensures ColorSubtract(color1, color2, 0) == color1 % TWO_TO_24
  {
    ScaledZero(Red(color2));
    ScaledZero(Green(color2));
    ScaledZero(Blue(color2));
    RgbOfChannels(color1);
  }

  /** At percent 0 the subtraction as written takes nothing either: the
      first colour without its top byte. */
  lemma ColorSubtractAsWrittenZero(color1: uint32, color2: uint32)
    ensures ColorSubtractAsWritten(color1, color2, 0) == color1 % TWO_TO_24
  {
    var r1, g1, b1 := Red(color1), Green(color1), Blue(color1);
    ScaledZero(RedOnly(color2));
    ScaledZero(GreenOnly(color2));
    ScaledZero(BlueOnly(color2));
    assert SubtractLaneAsWritten(RedOnly(color1), RedOnly(color2), 0) == r1 as int * 0x1_0000;
    assert SubtractLaneAsWritten(GreenOnly(color1), GreenOnly(color2), 0) == g1 as int * 0x100;
    assert SubtractLaneAsWritten(BlueOnly(color1), BlueOnly(color2), 0) == b1;
    OrOfLanes(r1, g1, b1);
    RgbOfChannels(color1);
  }

  /** At percent 256 a colour taken from itself is black. */
  lemma ColorSubtractSelfFull(color: uint32)
    ensures ColorSubtract(color, color, 0x100) == 0
  {
    SubtractSelfFull(Red(color));
    SubtractSelfFull(Green(color));
    SubtractSelfFull(Blue(color));
    assert Rgb(0, 0, 0) == 0;
  }

  /** A channel less itself at percent 256 is 0. */
  lemma SubtractSelfFull(ch: byte)
    ensures SubtractChannel(ch, Scaled(ch, 0x100)) == 0
  {
    ScaledFull(ch);
  }
}
