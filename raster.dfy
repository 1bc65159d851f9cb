/** The software renderer's outline drawing: `DrawLine` (Bresenham's
    algorithm) and `DrawRectangleStroke`. Both hand each pixel to
    `SetPixel`, whose body is commented out in the renderer, so the model
    returns the sequence of coordinates they hand it, in order.
    Coordinates are unbounded integers. */
module Raster {

  function Abs(x: int): nat
  {
    if x < 0 then -x else x
  }

  function Max(a: int, b: int): int
  {
    if a < b then b else a
  }

  /** C's `/ 2` on an `int`, which truncates toward zero. */
  function Half(x: int): int
  {
    if x < 0 then -((-x) / 2) else x / 2
  }

  /** `p` lies between `from` and `to` along one axis, `steps` from
      `from`. */
  predicate Along(from: int, to: int, p: int, steps: int)
  {
    if from < to then p == from + steps else p == from - steps
  }

  /** A plotted point on the way from (x0, y0) to (x1, y1): inside the
      bounding box of the two ends, and within half a pixel of the ideal
      segment along its minor axis. With `a` and `b` the point's distances
      from the start along x and y, `b * dx - a * dy` measures how far it
      lies off the segment, scaled by the length of the major axis. */
  predicate OnSegment(x0: int, y0: int, x1: int, y1: int, p: (int, int))
  {
    var dx, dy := Abs(x1 - x0), Abs(y1 - y0);
    var a, b := Abs(p.0 - x0), Abs(p.1 - y0);
    a <= dx && b <= dy && Along(x0, x1, p.0, a) && Along(y0, y1, p.1, b)
    && Abs(2 * (Product(b, dx) - Product(a, dy))) <= Max(dx, dy)
  }

  /** `OnSegment` in terms of products: the pixel is within half a pixel
      of the ideal segment along the minor axis. */
  lemma OnSegmentDistance(x0: int, y0: int, x1: int, y1: int, p: (int, int))
    requires OnSegment(x0, y0, x1, y1, p)
    ensures var dx, dy := Abs(x1 - x0), Abs(y1 - y0);
      Abs(2 * (Abs(p.1 - y0) * dx - Abs(p.0 - x0) * dy)) <= Max(dx, dy)
  {
    ProductIsMul(Abs(p.1 - y0), Abs(x1 - x0));
    ProductIsMul(Abs(p.0 - x0), Abs(y1 - y0));
  }

  /** Two pixels that touch, sides or corners, and are not the same. */
  predicate Adjacent(p: (int, int), q: (int, int))
  {
    p != q && Abs(q.0 - p.0) <= 1 && Abs(q.1 - p.1) <= 1
  }

  lemma MulAtLeast(m: int, k: int)
    requires m >= 0 && k >= 1
    ensures m * k >= m
  {
  }

  /** `n * d` by repeated addition: one more step adds one more `d`. */
  function Product(n: nat, d: int): int
  {
    if n == 0 then 0 else Product(n - 1, d) + d
  }

  lemma {:induction false} ProductIsMul(n: nat, d: int)
    ensures Product(n, d) == n * d
  {
    if n > 0 {
      ProductIsMul(n - 1, d);
    }
  }

  /** The state of `DrawLine` after `a` steps along x and `b` along y: the
      error term is its start value plus `b * dx - a * dy`, and it stays in
      the band that makes the major axis step every time. */
  predicate LineState(dx: int, dy: int, a: int, b: int, err: int, err0: int)
  {
    0 <= a <= dx && 0 <= b <= dy
    && err == err0 + Product(b, dx) - Product(a, dy)
    && (dx > dy ==> dx - 1 <= 2 * err0 <= dx && 0 <= err < dx)
    && (dx <= dy ==> dy - 1 <= -2 * err0 <= dy && err <= 0 && (err + dy > 0 || dy == 0))
  }

  /** One turn of the `DrawLine` loop short of the end keeps the state:
      with `e2` the error term before the turn, x steps when `e2 > -dx`
      and y when `e2 < dy`; the major axis steps, and neither axis steps
      past its end. */
  lemma LineStep(dx: int, dy: int, a: int, b: int, err: int, err0: int, a': int, b': int, err': int)
    requires LineState(dx, dy, a, b, err, err0) && !(a == dx && b == dy)
    requires a' == if err > -dx then a + 1 else a
    requires b' == if err < dy then b + 1 else b
    requires err' == err - (if err > -dx then dy else 0) + (if err < dy then dx else 0)
    ensures LineState(dx, dy, a', b', err', err0)
    ensures dx > dy ==> a' == a + 1
    ensures dx <= dy ==> b' == b + 1
  {
    assert Product(a + 1, dy) == Product(a, dy) + dy;
    assert Product(b + 1, dx) == Product(b, dx) + dx;
    ProductIsMul(a, dy);
    ProductIsMul(b, dx);
    if a == dx {
      Deficit(dx, dy, b);
    }
    if b == dy {
      Deficit(dy, dx, a);
    }
  }

  /** Short of the end along one axis by at least a step, the product
      falls short by at least `m`. */
  lemma Deficit(m: int, n: int, k: int)
    requires 0 <= m && k < n
    ensures m * n - k * m >= m
  {
    MulAtLeast(m, n - k);
    assert m * n - k * m == m * (n - k);
  }

  /** The state of the `DrawLine` loop at the top of a turn: the pixels
      drawn so far, the current pixel `a` steps along x and `b` along y
      from the start, and the error term. */
  ghost predicate Drawing(x0: int, y0: int, x1: int, y1: int, dx: int, dy: int, err0: int,
                    x: int, y: int, a: int, b: int, err: int, points: seq<(int, int)>)
  {
    LineState(dx, dy, a, b, err, err0)
    && Along(x0, x1, x, a) && Along(y0, y1, y, b)
    && |points| == (if dx > dy then a else b)
    && (|points| > 0 ==> points[0] == (x0, y0) && Adjacent(points[|points| - 1], (x, y)))
    && (|points| == 0 ==> x == x0 && y == y0)
    && AllOnSegment(x0, y0, x1, y1, points) && Chain(points)
  }

  /** Before the first turn nothing is drawn and the state holds. */
  lemma LineStarts(x0: int, y0: int, x1: int, y1: int, dx: int, dy: int)
    requires dx == Abs(x1 - x0) && dy == Abs(y1 - y0)
    ensures Drawing(x0, y0, x1, y1, dx, dy, Half(if dx > dy then dx else -dy),
                    x0, y0, 0, 0, Half(if dx > dy then dx else -dy), [])
  {
  }

  /** A turn that does not end the loop draws the current pixel and moves
      to the next, keeping the state; the drawn pixels stay within one per
      step of the major axis. */
  lemma LineTurn(x0: int, y0: int, x1: int, y1: int, dx: int, dy: int, err0: int,
                 x: int, y: int, a: int, b: int, err: int, points: seq<(int, int)>,
                 x': int, y': int, a': int, b': int, err': int, drawn: seq<(int, int)>)
    requires dx == Abs(x1 - x0) && dy == Abs(y1 - y0) && drawn == points + [(x, y)]
    requires Drawing(x0, y0, x1, y1, dx, dy, err0, x, y, a, b, err, points)
    requires !(x == x1 && y == y1)
    requires a' == (if err > -dx then a + 1 else a)
    requires x' == (if err > -dx then x + (if x0 < x1 then 1 else -1) else x)
    requires b' == (if err < dy then b + 1 else b)
    requires y' == (if err < dy then y + (if y0 < y1 then 1 else -1) else y)
    requires err' == err - (if err > -dx then dy else 0) + (if err < dy then dx else 0)
    ensures Drawing(x0, y0, x1, y1, dx, dy, err0, x', y', a', b', err', drawn)
    ensures |drawn| <= Max(dx, dy)
  {
    NearSegment(x0, y0, x1, y1, x, y, a, b, err, err0);
    Extend(x0, y0, x1, y1, points, (x, y));
    LineStep(dx, dy, a, b, err, err0, a', b', err');
    Touching((x, y), (x', y'));
  }

  /** The turn at the end pixel draws it and leaves the loop: one pixel
      per step of the major axis plus the start, ending at the end. */
  lemma LineEnds(x0: int, y0: int, x1: int, y1: int, dx: int, dy: int, err0: int,
                 x: int, y: int, a: int, b: int, err: int, points: seq<(int, int)>,
                 drawn: seq<(int, int)>)
    requires dx == Abs(x1 - x0) && dy == Abs(y1 - y0) && drawn == points + [(x, y)]
    requires Drawing(x0, y0, x1, y1, dx, dy, err0, x, y, a, b, err, points)
    requires x == x1 && y == y1
    ensures |drawn| == Max(Abs(x1 - x0), Abs(y1 - y0)) + 1
    ensures drawn[0] == (x0, y0) && drawn[|drawn| - 1] == (x1, y1)
    ensures forall i :: 0 <= i < |drawn| ==> OnSegment(x0, y0, x1, y1, drawn[i])
    ensures forall i, j :: 0 <= i < j < |drawn| && j == i + 1 ==> Adjacent(drawn[i], drawn[j])
  {
    NearSegment(x0, y0, x1, y1, x, y, a, b, err, err0);
    Extend(x0, y0, x1, y1, points, (x, y));
    AllOnSegmentEach(x0, y0, x1, y1, drawn);
    ChainEach(drawn);
  }

  /** `DrawLine`: from the start the error term decides, at each pixel,
      whether to step along x, along y, or both. The pixels form a chain of
      touching pixels from the start to the end, one per step of the major
      axis, each within half a pixel of the ideal segment. */
  method DrawLine(x0: int, y0: int, x1: int, y1: int) returns (points: seq<(int, int)>)
    ensures |points| == Max(Abs(x1 - x0), Abs(y1 - y0)) + 1
    ensures points[0] == (x0, y0) && points[|points| - 1] == (x1, y1)
    ensures forall i :: 0 <= i < |points| ==> OnSegment(x0, y0, x1, y1, points[i])
    ensures forall i, j :: 0 <= i < j < |points| && j == i + 1 ==> Adjacent(points[i], points[j])
  {
    var dx: int, sx := Abs(x1 - x0), if x0 < x1 then 1 else -1;
    var dy: int, sy := Abs(y1 - y0), if y0 < y1 then 1 else -1;
    var err := Half(if dx > dy then dx else -dy);
    ghost var err0 := err;
    var x, y := x0, y0;
    ghost var a, b := 0, 0;
    points := [];
    LineStarts(x0, y0, x1, y1, dx, dy);
    while true
      invariant Drawing(x0, y0, x1, y1, dx, dy, err0, x, y, a, b, err, points)
      invariant |points| <= Max(dx, dy)
      decreases Max(dx, dy) - |points|
    {
      ghost var before, x', y', a', b', err' := points, x, y, a, b, err;
      points := points + [(x, y)];
      if x == x1 && y == y1 {
        LineEnds(x0, y0, x1, y1, dx, dy, err0, x, y, a, b, err, before, points);
        break;
      }
      var e2 := err;
      if e2 > -dx {
        err := err - dy;
        x := x + sx;
        a := a + 1;
      }
      if e2 < dy {
        err := err + dx;
        y := y + sy;
        b := b + 1;
      }
      LineTurn(x0, y0, x1, y1, dx, dy, err0, x', y', a', b', err', before, x, y, a, b, err, points);
    }
  }

  lemma Touching(p: (int, int), q: (int, int))
    requires q.0 == p.0 || q.0 == p.0 + 1 || q.0 == p.0 - 1
    requires q.1 == p.1 || q.1 == p.1 + 1 || q.1 == p.1 - 1
    requires p != q
    ensures Adjacent(p, q)
  {
  }

  /** Every point of `points` is on the segment, stated one appended point
      at a time. */
  ghost predicate AllOnSegment(x0: int, y0: int, x1: int, y1: int, points: seq<(int, int)>)
    decreases |points|
  {
    |points| == 0
    || (AllOnSegment(x0, y0, x1, y1, points[..|points| - 1])
        && OnSegment(x0, y0, x1, y1, points[|points| - 1]))
  }

  /** Consecutive points of `points` touch, stated one appended point at a
      time. */
  ghost predicate Chain(points: seq<(int, int)>)
    decreases |points|
  {
    |points| <= 1
    || (Chain(points[..|points| - 1]) && Adjacent(points[|points| - 2], points[|points| - 1]))
  }

  lemma {:induction false} AllOnSegmentEach(x0: int, y0: int, x1: int, y1: int, points: seq<(int, int)>)
    requires AllOnSegment(x0, y0, x1, y1, points)
    ensures forall i :: 0 <= i < |points| ==> OnSegment(x0, y0, x1, y1, points[i])
    decreases |points|
  {
    if |points| > 0 {
      var front := points[..|points| - 1];
      AllOnSegmentEach(x0, y0, x1, y1, front);
      assert forall i :: 0 <= i < |front| ==> points[i] == front[i];
    }
  }

  lemma {:induction false} ChainEach(points: seq<(int, int)>)
    requires Chain(points)
    ensures forall i, j :: 0 <= i < j < |points| && j == i + 1 ==> Adjacent(points[i], points[j])
    decreases |points|
  {
    if |points| > 1 {
      var front := points[..|points| - 1];
      ChainEach(front);
      assert forall i :: 0 <= i < |front| ==> points[i] == front[i];
    }
  }

  /** Appending a touching point on the segment keeps both. */
  lemma Extend(x0: int, y0: int, x1: int, y1: int, points: seq<(int, int)>, p: (int, int))
    requires AllOnSegment(x0, y0, x1, y1, points) && Chain(points)
    requires OnSegment(x0, y0, x1, y1, p)
    requires |points| > 0 ==> Adjacent(points[|points| - 1], p)
    ensures AllOnSegment(x0, y0, x1, y1, points + [p]) && Chain(points + [p])
  {
    assert (points + [p])[..|points|] == points;
  }

  /** The error term bounds how far the current pixel lies off the
      segment. */
  lemma NearSegment(x0: int, y0: int, x1: int, y1: int, x: int, y: int, a: int, b: int, err: int, err0: int)
    requires LineState(Abs(x1 - x0), Abs(y1 - y0), a, b, err, err0)
    requires Along(x0, x1, x, a) && Along(y0, y1, y, b)
    ensures OnSegment(x0, y0, x1, y1, (x, y))
  {
    assert Abs(x - x0) == a && Abs(y - y0) == b;
    ProductIsMul(b, Abs(x1 - x0));
    ProductIsMul(a, Abs(y1 - y0));
  }

  // ---------------------------------------------------------------------
  // DrawRectangleStroke

  /** The pixels of the row loop: for each column `b` from `from` up to
      `to`, the pixel on the top row and the one on the bottom row. */
  function RowPairs(from: int, to: int, top: int, bottom: int): (s: seq<(int, int)>)
    decreases if to > from then to - from else 0
  {
    if to <= from then [] else RowPairs(from, to - 1, top, bottom) + [(to - 1, top), (to - 1, bottom)]
  }

  /** The pixels of the column loop: for each row `b` from `from` up to
      `to`, the pixel on the left column and the one on the right. */
  function ColumnPairs(from: int, to: int, left: int, right: int): (s: seq<(int, int)>)
    decreases if to > from then to - from else 0
  {
    if to <= from then [] else ColumnPairs(from, to - 1, left, right) + [(left, to - 1), (right, to - 1)]
  }

  lemma {:induction false} InRowPairs(from: int, to: int, top: int, bottom: int, p: (int, int))
    ensures p in RowPairs(from, to, top, bottom) <==> from <= p.0 < to && (p.1 == top || p.1 == bottom)
    decreases if to > from then to - from else 0
  {
    if to > from {
      InRowPairs(from, to - 1, top, bottom, p);
    }
  }

  lemma {:induction false} InColumnPairs(from: int, to: int, left: int, right: int, p: (int, int))
    ensures p in ColumnPairs(from, to, left, right) <==> from <= p.1 < to && (p.0 == left || p.0 == right)
    decreases if to > from then to - from else 0
  {
    if to > from {
      InColumnPairs(from, to - 1, left, right, p);
    }
  }

  /** The first and last column `DrawRectangleStroke` draws for a width:
      `x` to `x + width - 1`, or `x + width` to `x - 1` when the width is
      negative. */
  function Span(x: int, width: int): (r: (int, int))
    ensures width != 0 ==> r.1 - r.0 + 1 == Abs(width)
    ensures width > 0 ==> r.0 == x
    ensures width < 0 ==> r.1 == x - 1
  {
    if width < 0 then (x + width, x - 1) else (x, x + width - 1)
  }

  /** The pixels `DrawRectangleStroke` plots, in order. */
  function Stroke(x: int, y: int, width: int, height: int): seq<(int, int)>
  {
    var (x1, x2) := Span(x, width);
    var (y1, y2) := Span(y, height);
    RowPairs(x1, x2 + 1, y1, y2) + ColumnPairs(y1 + 1, y2, x1, x2)
  }

  /** `DrawRectangleStroke`: the top and bottom rows, then the left and
      right columns between them. */
  method DrawRectangleStroke(x: int, y: int, width: int, height: int) returns (points: seq<(int, int)>)
    ensures points == Stroke(x, y, width, height)
  {
    var x1 := x;
    var x2 := x + width - 1;
    if width < 0 {
      x1, x2 := x1 + width, x2 - width;
    }
    var y1 := y;
    var y2 := y + height - 1;
    if height < 0 {
      y1, y2 := y1 + height, y2 - height;
    }
    points := [];
    var b := x1;
    while b <= x2
      invariant x1 <= b && (x1 <= x2 + 1 ==> b <= x2 + 1)
      invariant points == RowPairs(x1, b, y1, y2)
      decreases x2 - b
    {
      points := points + [(b, y1), (b, y2)];
      b := b + 1;
    }
    assert points == RowPairs(x1, x2 + 1, y1, y2);
    ghost var rows := points;
    assert (x1, x2) == Span(x, width) && (y1, y2) == Span(y, height);
    b := y1 + 1;
    while b < y2
      invariant y1 + 1 <= b && (b <= y2 || b == y1 + 1)
      invariant points == rows + ColumnPairs(y1 + 1, b, x1, x2)
      decreases y2 - b
    {
      points := points + [(x1, b), (x2, b)];
      b := b + 1;
    }
  }

  /** On the border of the `w` by `h` rectangle whose top left pixel is
      (left, top). */
  predicate OnBorder(left: int, top: int, w: int, h: int, p: (int, int))
  {
    left <= p.0 < left + w && top <= p.1 < top + h
    && (p.0 == left || p.0 == left + w - 1 || p.1 == top || p.1 == top + h - 1)
  }

  /** For a non-zero width and height the stroke plots exactly the border
      of the rectangle the signed size spans: a negative size extends the
      rectangle to the left of or above (x, y). */
  lemma StrokeIsBorder(x: int, y: int, width: int, height: int, p: (int, int))
    requires width != 0 && height != 0
    ensures p in Stroke(x, y, width, height) <==>
      OnBorder(Span(x, width).0, Span(y, height).0, Abs(width), Abs(height), p)
  {
    var (x1, x2) := Span(x, width);
    var (y1, y2) := Span(y, height);
    InRowPairs(x1, x2 + 1, y1, y2, p);
    InColumnPairs(y1 + 1, y2, x1, x2, p);
  }

  /** A zero height still plots two rows, at y and y - 1, and a zero width
      two columns, at x and x - 1: `x + width - 1` falls one below `x`. */
  lemma StrokeOfZeroSize(x: int, y: int, width: int, height: int)
    ensures height == 0 && width > 0 ==> (x, y) in Stroke(x, y, width, height) && (x, y - 1) in Stroke(x, y, width, height)
    ensures width == 0 && height > 2 ==> (x, y + 1) in Stroke(x, y, width, height) && (x - 1, y + 1) in Stroke(x, y, width, height)
  {
    InRowPairs(x, x + width, y, y - 1, (x, y));
    InRowPairs(x, x + width, y, y - 1, (x, y - 1));
    InColumnPairs(y + 1, y + height - 1, x, x - 1, (x, y + 1));
    InColumnPairs(y + 1, y + height - 1, x, x - 1, (x - 1, y + 1));
  }
}
