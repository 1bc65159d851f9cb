/** The software renderer's `FilterGrayscale` pixel filter. The filter
    looks each channel up in an `int` table, so here a pixel is read as an
    unsigned integer below 2^32, as the colour arithmetic reads it. */
module Grayscale {
  import opened Machine
  import opened Colors

  /** `FilterGrayscale` with a given `DivideBy3Table`: the table entries of
      the three channels are summed, the sum's low byte is the grey level,
      and that level goes into all three channels. */
  function FilterGrayscaleWith(table: seq<int>, pixel: uint32): (c: uint32)
    requires |table| == 0x100
    ensures c < TWO_TO_24
    ensures Red(c) == Green(c) == Blue(c)
    ensures Red(c) == (table[Red(pixel)] + table[Green(pixel)] + table[Blue(pixel)]) % 0x100
  {
    var level := (table[Red(pixel)] + table[Green(pixel)] + table[Blue(pixel)]) % 0x100;
    Rgb(level, level, level)
  }

  /** `DivideBy3Table` as the renderer leaves it: a zero-initialised global
      whose filling loop is commented out. */
  function DivideBy3AsWritten(): (t: seq<int>)
    ensures |t| == 0x100
  {
    seq(0x100, i => 0)
  }

  /** The table its name describes: entry `i` is `i / 3`. */
  function DivideBy3(): (t: seq<int>)
    ensures |t| == 0x100
  {
    seq(0x100, i => i / 3)
  }

  function FilterGrayscaleAsWritten(pixel: uint32): uint32
  {
    FilterGrayscaleWith(DivideBy3AsWritten(), pixel)
  }

  /** With the table never filled, every pixel turns black. */
  lemma FilterGrayscaleAsWrittenIsBlack(pixel: uint32)
    ensures FilterGrayscaleAsWritten(pixel) == 0
  {
    var t := DivideBy3AsWritten();
    assert t[Red(pixel)] == 0 && t[Green(pixel)] == 0 && t[Blue(pixel)] == 0;
    assert FilterGrayscaleWith(t, pixel) == Rgb(0, 0, 0);
  }

  function FilterGrayscale(pixel: uint32): uint32
  {
    FilterGrayscaleWith(DivideBy3(), pixel)
  }

  /** With the filled table the grey level is the sum of the thirds of the
      three channels, which never wraps. */
  lemma FilterGrayscaleAverages(pixel: uint32)
    ensures Red(FilterGrayscale(pixel)) == Red(pixel) / 3 + Green(pixel) / 3 + Blue(pixel) / 3
  {
    var t := DivideBy3();
    var sum := t[Red(pixel)] + t[Green(pixel)] + t[Blue(pixel)];
    assert sum == Red(pixel) / 3 + Green(pixel) / 3 + Blue(pixel) / 3;
    DivUnique(sum, 0x100, 0, sum);
    var c := FilterGrayscaleWith(t, pixel);
    assert Red(c) == sum % 0x100;
    assert c == FilterGrayscale(pixel);
  }

  /** A grey pixel keeps its level up to the rounding of thirds. */
  lemma FilterGrayscaleKeepsGrey(v: byte)
    ensures Red(FilterGrayscale(Rgb(v, v, v))) == v - v % 3
  {
    var gray := Rgb(v, v, v);
    FilterGrayscaleAverages(gray);
    assert v / 3 + v / 3 + v / 3 == v - v % 3;
  }

  /** White stays white. */
  lemma FilterGrayscaleKeepsWhite()
    ensures FilterGrayscale(0xFF_FFFF) == 0xFF_FFFF
  {
    var t := DivideBy3();
    assert t[0xFF] == 0x55;
    assert Red(0xFF_FFFF) == 0xFF && Green(0xFF_FFFF) == 0xFF && Blue(0xFF_FFFF) == 0xFF;
    assert FilterGrayscaleWith(t, 0xFF_FFFF) == Rgb(0xFF, 0xFF, 0xFF);
  }
}
