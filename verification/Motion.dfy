/** The image shift matcher and the generator of image pairs it is checked with. */
module Motion {
  import opened Bytes

  const UNMATCHED: real := 1e30
  const HUGE: real := 1e300
  const MAX_SIDE := 4096

  /** Two grey images of the same size, stored row by row. */
  datatype Pair = Pair(prev: seq<byte>, cur: seq<byte>, w: nat, h: nat) {
    ghost predicate Valid() {
      |prev| == w * h && |cur| == w * h
    }
  }

  lemma TimesMonotone(a: int, b: int, w: nat)
    ensures a <= b ==> a * w <= b * w
  {
  }

  lemma PixelIndex(w: nat, h: nat, x: int, y: int)
    requires 0 <= x < w && 0 <= y < h
    ensures 0 <= y * w + x < w * h
  {
    TimesMonotone(y + 1, h, w);
  }

  ghost function Pixel(image: seq<byte>, w: nat, h: nat, x: int, y: int): byte
    requires |image| == w * h && 0 <= x < w && 0 <= y < h
  {
    PixelIndex(w, h, x, y);
    image[y * w + x]
  }

  // ---- The sum of squared differences ----

  ghost predicate Overlaps(p: Pair, sx: int, sy: int, x: int, y: int) {
    0 <= x < p.w && 0 <= y < p.h && 0 <= x + sx < p.w && 0 <= y + sy < p.h
  }

  ghost function Difference(p: Pair, sx: int, sy: int, x: int, y: int): int
    requires p.Valid() && Overlaps(p, sx, sy, x, y)
  {
    Pixel(p.prev, p.w, p.h, x, y) as int - Pixel(p.cur, p.w, p.h, x + sx, y + sy) as int
  }

  ghost function Square(p: Pair, sx: int, sy: int, x: int, y: int): (r: nat)
    requires p.Valid()
    ensures r <= 65025
  {
    if Overlaps(p, sx, sy, x, y) then
      var d := Difference(p, sx, sy, x, y);
      SquareBound(d);
      d * d
    else 0
  }

  lemma SquareBound(d: int)
    requires -255 <= d <= 255
    ensures 0 <= d * d <= 65025
    ensures d * d == 0 <==> d == 0
  {
    var a: nat := if d < 0 then -d else d;
    assert a * a == d * d;
    TimesMonotone(a, 255, a);
    TimesMonotone(1, a, a);
  }

  /** The first n pixels of row y. */
  ghost function RowSum(p: Pair, sx: int, sy: int, y: int, n: nat): nat
    requires p.Valid()
  {
    if n == 0 then 0 else RowSum(p, sx, sy, y, n - 1) + Square(p, sx, sy, n - 1, y)
  }

  ghost function RowCount(p: Pair, sx: int, sy: int, y: int, n: nat): nat {
    if n == 0 then 0 else RowCount(p, sx, sy, y, n - 1) + if Overlaps(p, sx, sy, n - 1, y) then 1 else 0
  }

  /** The first n rows. */
  ghost function Sum(p: Pair, sx: int, sy: int, n: nat): nat
    requires p.Valid()
  {
    if n == 0 then 0 else Sum(p, sx, sy, n - 1) + RowSum(p, sx, sy, n - 1, p.w)
  }

  ghost function Count(p: Pair, sx: int, sy: int, n: nat): nat {
    if n == 0 then 0 else Count(p, sx, sy, n - 1) + RowCount(p, sx, sy, n - 1, p.w)
  }

  ghost function Mean(p: Pair, sx: int, sy: int): real
    requires p.Valid()
  {
    if Count(p, sx, sy, p.h) == 0 then UNMATCHED
    else Sum(p, sx, sy, p.h) as real / Count(p, sx, sy, p.h) as real
  }

  lemma {:induction false} RowSkipped(p: Pair, sx: int, sy: int, y: int, n: nat)
    requires p.Valid() && !(0 <= y + sy < p.h)
    ensures RowSum(p, sx, sy, y, n) == 0 && RowCount(p, sx, sy, y, n) == 0
  {
    if n > 0 {
      RowSkipped(p, sx, sy, y, n - 1);
    }
  }

  /** ssd_shift. */
  method SsdShift(p: Pair, sx: int, sy: int) returns (mean: real)
    requires p.Valid()
    ensures mean == Mean(p, sx, sy)
  {
    var sum, count := 0, 0;
    var y := 0;
    while y < p.h
      invariant 0 <= y <= p.h
      invariant sum == Sum(p, sx, sy, y) && count == Count(p, sx, sy, y)
    {
      var yy := y + sy;
      if yy < 0 || yy >= p.h {
        RowSkipped(p, sx, sy, y, p.w);
        y := y + 1;
        continue;
      }
      var x := 0;
      while x < p.w
        invariant 0 <= x <= p.w
        invariant sum == Sum(p, sx, sy, y) + RowSum(p, sx, sy, y, x)
        invariant count == Count(p, sx, sy, y) + RowCount(p, sx, sy, y, x)
      {
        var xx := x + sx;
        if xx < 0 || xx >= p.w {
          x := x + 1;
          continue;
        }
        PixelIndex(p.w, p.h, x, y);
        PixelIndex(p.w, p.h, xx, yy);
        var d := p.prev[y * p.w + x] as int - p.cur[yy * p.w + xx] as int;
        sum := sum + d * d;
        count := count + 1;
        x := x + 1;
      }
      y := y + 1;
    }
    if count <= 0 {
      return UNMATCHED;
    }
    return sum as real / count as real;
  }

  // ---- What the mean says ----

  lemma {:induction false} RowBounds(p: Pair, sx: int, sy: int, y: int, n: nat)
    requires p.Valid()
    ensures RowSum(p, sx, sy, y, n) <= 65025 * RowCount(p, sx, sy, y, n)
    ensures RowCount(p, sx, sy, y, n) <= n
    ensures forall x :: 0 <= x < n && Overlaps(p, sx, sy, x, y) ==> RowCount(p, sx, sy, y, n) > 0
    ensures RowSum(p, sx, sy, y, n) == 0 <==>
      forall x :: 0 <= x < n && Overlaps(p, sx, sy, x, y) ==> Difference(p, sx, sy, x, y) == 0
  {
    if n > 0 {
      RowBounds(p, sx, sy, y, n - 1);
      if Overlaps(p, sx, sy, n - 1, y) {
        SquareBound(Difference(p, sx, sy, n - 1, y));
      }
    }
  }

  lemma {:induction false} Bounds(p: Pair, sx: int, sy: int, n: nat)
    requires p.Valid()
    ensures Sum(p, sx, sy, n) <= 65025 * Count(p, sx, sy, n)
    ensures Count(p, sx, sy, n) <= n * p.w
    ensures forall x, y :: 0 <= y < n && Overlaps(p, sx, sy, x, y) ==> Count(p, sx, sy, n) > 0
    ensures Sum(p, sx, sy, n) == 0 <==>
      forall x, y :: 0 <= y < n && Overlaps(p, sx, sy, x, y) ==> Difference(p, sx, sy, x, y) == 0
  {
    if n > 0 {
      Bounds(p, sx, sy, n - 1);
      RowBounds(p, sx, sy, n - 1, p.w);
    }
  }

  /** For the sizes the program accepts, the sum is an integer that a double holds exactly. */
  lemma SumIsExact(p: Pair, sx: int, sy: int)
    requires p.Valid() && p.w <= MAX_SIDE && p.h <= MAX_SIDE
    ensures Sum(p, sx, sy, p.h) < 0x20_0000_0000_0000
  {
    Bounds(p, sx, sy, p.h);
    hide Sum, Count;
    TimesMonotone(p.h, MAX_SIDE, p.w);
  }

  /** A mean is zero exactly when the shifted images agree wherever they overlap. */
  lemma MeanZeroIff(p: Pair, sx: int, sy: int)
    requires p.Valid() && -(p.w as int) < sx < p.w && -(p.h as int) < sy < p.h
    ensures Count(p, sx, sy, p.h) > 0 && 0.0 <= Mean(p, sx, sy) <= 65025.0
    ensures Mean(p, sx, sy) == 0.0 <==>
      forall x, y :: Overlaps(p, sx, sy, x, y) ==> Difference(p, sx, sy, x, y) == 0
  {
    Bounds(p, sx, sy, p.h);
    var x, y := if sx < 0 then -sx else 0, if sy < 0 then -sy else 0;
    assert Overlaps(p, sx, sy, x, y);
    var sum, count := Sum(p, sx, sy, p.h), Count(p, sx, sy, p.h);
    assert sum as real <= 65025.0 * count as real;
    Quotient(sum as real, count as real, 65025.0);
  }

  lemma RealTimesMonotone(a: real, b: real, c: real)
    requires c > 0.0
    ensures a < b ==> a * c < b * c
  {
  }

  lemma Quotient(a: real, b: real, bound: real)
    requires 0.0 <= a && 0.0 < b && a <= bound * b
    ensures 0.0 <= a / b <= bound && (a / b == 0.0 <==> a == 0.0)
  {
    var q := a / b;
    assert q * b == a;
    RealTimesMonotone(bound, q, b);
    RealTimesMonotone(q, 0.0, b);
  }

  // ---- The search ----

  /** Half the width of the search window. */
  function Reach(w: nat, h: nat): int {
    var m := if w < h then w / 8 else h / 8;
    if m > 48 then 48 else if m < 4 then 4 else m
  }

  predicate InWindow(m: int, sx: int, sy: int) {
    -m <= sx <= m && -m <= sy <= m
  }

  /** The order in which the shifts are tried. */
  predicate Before(sx: int, sy: int, sx': int, sy': int) {
    sy < sy' || (sy == sy' && sx < sx')
  }

  datatype Found = Found(best: real, second: real, x: int, y: int)

  /** The shifts tried so far: those in the window before (sx, sy). */
  ghost predicate Tried(m: int, sx: int, sy: int, x: int, y: int) {
    InWindow(m, x, y) && Before(x, y, sx, sy)
  }

  /** The first of the best shifts tried is at hand, and second is no better than any other. */
  ghost predicate FirstBest(p: Pair, m: int, sx: int, sy: int, f: Found)
    requires p.Valid()
  {
    && Tried(m, sx, sy, f.x, f.y) && f.best == Mean(p, f.x, f.y)
    && forall x, y :: Tried(m, sx, sy, x, y) ==>
      && f.best <= Mean(p, x, y)
      && (Before(x, y, f.x, f.y) ==> f.best < Mean(p, x, y))
      && (x != f.x || y != f.y ==> f.second <= Mean(p, x, y))
  }

  /** second is the mean of a shift tried other than the best one. */
  ghost predicate SecondTried(p: Pair, m: int, sx: int, sy: int, f: Found)
    requires p.Valid()
  {
    exists x, y :: Tried(m, sx, sy, x, y) && (x != f.x || y != f.y) && f.second == Mean(p, x, y)
  }

  /** What the search knows when it comes to (sx, sy). */
  ghost predicate Searched(p: Pair, m: int, sx: int, sy: int, f: Found)
    requires p.Valid()
  {
    if sy == -m && sx == -m then f == Found(HUGE, HUGE, 0, 0)
    else if sy == -m && sx == -m + 1 then FirstBest(p, m, sx, sy, f) && f.second == HUGE
    else FirstBest(p, m, sx, sy, f) && SecondTried(p, m, sx, sy, f)
  }

  lemma ReachFits(w: nat, h: nat)
    requires w > 8 && h > 8
    ensures 4 <= Reach(w, h) < w && Reach(w, h) < h && Reach(w, h) <= 48
  {
  }

  /** The body of the search loop. */
  function Consider(f: Found, err: real, sx: int, sy: int): Found {
    if err < f.best then Found(err, f.best, sx, sy)
    else if err < f.second then f.(second := err)
    else f
  }

  lemma ConsiderFirstBest(p: Pair, m: int, sx: int, sy: int, f: Found)
    requires p.Valid() && m < p.w && m < p.h && InWindow(m, sx, sy)
    requires !(sy == -m && sx == -m) && FirstBest(p, m, sx, sy, f)
    requires f.second >= f.best
    ensures FirstBest(p, m, sx + 1, sy, Consider(f, Mean(p, sx, sy), sx, sy))
  {
  }

  lemma ConsiderSecond(p: Pair, m: int, sx: int, sy: int, f: Found)
    requires p.Valid() && m < p.w && m < p.h && InWindow(m, sx, sy)
    requires FirstBest(p, m, sx, sy, f)
    requires SecondTried(p, m, sx, sy, f) || f.second == HUGE
    ensures SecondTried(p, m, sx + 1, sy, Consider(f, Mean(p, sx, sy), sx, sy))
  {
    MeanZeroIff(p, sx, sy);
    MeanZeroIff(p, f.x, f.y);
    var f' := Consider(f, Mean(p, sx, sy), sx, sy);
    assert Tried(m, sx + 1, sy, sx, sy) && Tried(m, sx + 1, sy, f.x, f.y);
    if f' == f {
      var x, y :| Tried(m, sx, sy, x, y) && (x != f.x || y != f.y) && f.second == Mean(p, x, y);
      assert Tried(m, sx + 1, sy, x, y);
    }
  }

  lemma ConsiderSearched(p: Pair, m: int, sx: int, sy: int, f: Found)
    requires p.Valid() && 0 < m < p.w && m < p.h && InWindow(m, sx, sy)
    requires Searched(p, m, sx, sy, f)
    ensures Searched(p, m, sx + 1, sy, Consider(f, Mean(p, sx, sy), sx, sy))
  {
    MeanZeroIff(p, sx, sy);
    if sy == -m && sx == -m {
      assert Tried(m, sx + 1, sy, sx, sy);
    } else {
      SecondAfterBest(p, m, sx, sy, f);
      ConsiderFirstBest(p, m, sx, sy, f);
      ConsiderSecond(p, m, sx, sy, f);
    }
  }

  lemma SecondAfterBest(p: Pair, m: int, sx: int, sy: int, f: Found)
    requires p.Valid() && m < p.w && m < p.h
    requires FirstBest(p, m, sx, sy, f)
    requires SecondTried(p, m, sx, sy, f) || f.second == HUGE
    ensures f.second >= f.best
  {
    MeanZeroIff(p, f.x, f.y);
  }

  lemma TriedAtRowEnd(m: int, sy: int, x: int, y: int)
    ensures Tried(m, m + 1, sy, x, y) <==> Tried(m, -m, sy + 1, x, y)
  {
  }

  /** The end of a row of shifts is the start of the next. */
  lemma RowEnd(p: Pair, m: int, sy: int, f: Found)
    requires p.Valid() && 0 < m && -m <= sy
    requires Searched(p, m, m + 1, sy, f)
    ensures Searched(p, m, -m, sy + 1, f)
  {
    TriedAtRowEnd(m, sy, f.x, f.y);
    forall x, y | Tried(m, -m, sy + 1, x, y)
      ensures
        && f.best <= Mean(p, x, y)
        && (Before(x, y, f.x, f.y) ==> f.best < Mean(p, x, y))
        && (x != f.x || y != f.y ==> f.second <= Mean(p, x, y))
    {
      TriedAtRowEnd(m, sy, x, y);
    }
    assert FirstBest(p, m, -m, sy + 1, f);
    var x, y :| Tried(m, m + 1, sy, x, y) && (x != f.x || y != f.y) && f.second == Mean(p, x, y);
    TriedAtRowEnd(m, sy, x, y);
  }

  // ---- The result ----

  /** A shift along one axis is worth a try: it is small, or no more than 48 and an eighth of the shorter side. */
  predicate Near(p: Pair, d: int) {
    || -4 <= d <= 4
    || (-48 <= d <= 48 && -8 * d <= p.w && -8 * d <= p.h && 8 * d <= p.w && 8 * d <= p.h)
  }

  predicate Nearby(p: Pair, sx: int, sy: int) {
    Near(p, sx) && Near(p, sy)
  }

  /** The shifts of the search window are those. */
  lemma WindowIs(p: Pair, sx: int, sy: int)
    requires p.w > 8 && p.h > 8
    ensures InWindow(Reach(p.w, p.h), sx, sy) <==> Nearby(p, sx, sy)
  {
  }

  /** The lexicographically first shift, vertical part first, of least mean, and the least mean of any other. */
  ghost predicate IsMatch(p: Pair, f: Found)
    requires p.Valid()
  {
    && Nearby(p, f.x, f.y) && f.best == Mean(p, f.x, f.y)
    && (forall x, y :: Nearby(p, x, y) ==>
      && f.best <= Mean(p, x, y)
      && (Before(x, y, f.x, f.y) ==> f.best < Mean(p, x, y))
      && (x != f.x || y != f.y ==> f.second <= Mean(p, x, y)))
    && exists x, y :: Nearby(p, x, y) && (x != f.x || y != f.y) && f.second == Mean(p, x, y)
  }

  lemma SearchedAll(p: Pair, f: Found)
    requires p.Valid() && p.w > 8 && p.h > 8
    requires Searched(p, Reach(p.w, p.h), -Reach(p.w, p.h), Reach(p.w, p.h) + 1, f)
    ensures IsMatch(p, f)
  {
    var m := Reach(p.w, p.h);
    ReachFits(p.w, p.h);
    WindowIs(p, f.x, f.y);
    forall x, y | Nearby(p, x, y) ensures Tried(m, -m, m + 1, x, y) {
      WindowIs(p, x, y);
    }
    var x, y :| Tried(m, -m, m + 1, x, y) && (x != f.x || y != f.y) && f.second == Mean(p, x, y);
    WindowIs(p, x, y);
  }

  method SearchRow(p: Pair, m: int, sy: int, f0: Found) returns (f: Found)
    requires p.Valid() && 0 < m < p.w && m < p.h && -m <= sy <= m
    requires Searched(p, m, -m, sy, f0)
    ensures Searched(p, m, m + 1, sy, f)
  {
    f := f0;
    var sx := -m;
    while sx <= m
      invariant -m <= sx <= m + 1
      invariant Searched(p, m, sx, sy, f)
    {
      var err := SsdShift(p, sx, sy);
      ConsiderSearched(p, m, sx, sy, f);
      f := Consider(f, err, sx, sy);
      sx := sx + 1;
    }
  }

  /** main: the size check and the search loop. */
  method Search(p: Pair) returns (f: Found, refused: bool)
    requires p.Valid()
    ensures refused <==> p.w <= 8 || p.h <= 8 || p.w > MAX_SIDE || p.h > MAX_SIDE
    ensures !refused ==> IsMatch(p, f)
  {
    f := Found(HUGE, HUGE, 0, 0);
    if p.w <= 8 || p.h <= 8 || p.w > MAX_SIDE || p.h > MAX_SIDE {
      return f, true;
    }
    refused := false;
    var m := Reach(p.w, p.h);
    ReachFits(p.w, p.h);
    var sy := -m;
    while sy <= m
      invariant -m <= sy <= m + 1
      invariant Searched(p, m, -m, sy, f)
    {
      f := SearchRow(p, m, sy, f);
      RowEnd(p, m, sy, f);
      sy := sy + 1;
    }
    SearchedAll(p, f);
  }

  /** The confidence that goes with a result. */
  function Confidence(best: real, second: real): real
    requires 0.0 <= best
  {
    var c := if second > best * 1.0000001 && second < 1e290 then 1.0 - best / second else 0.0;
    var c := if c < 0.0 then 0.0 else c;
    var c := if c > 1.0 then 1.0 else c;
    if best < 1e-6 then c * 0.25 else c
  }

  lemma ConfidenceBounds(best: real, second: real)
    requires 0.0 <= best
    ensures 0.0 <= Confidence(best, second) <= 1.0
    ensures best == 0.0 ==> Confidence(best, second) == if 0.0 < second < 1e290 then 0.25 else 0.0
  {
  }

  /** The confidence tells how far the best mean is below the second best: best == (1 - confidence) * second, a quarter of
      that for images that agree almost perfectly, and 0 if the two do not stand apart. */
  lemma ConfidenceSeparates(best: real, second: real)
    requires 0.0 <= best
    ensures
      var c := Confidence(best, second);
      if second > best * 1.0000001 && second < 1e290 then
        best == (1.0 - (if best < 1e-6 then 4.0 * c else c)) * second
      else c == 0.0
  {
    if second > best * 1.0000001 && second < 1e290 {
      var q := best / second;
      assert q * second == best;
      Quotient(best, second, 1.0);
    }
  }

  // ---- The generator ----

  const SEED: bv32 := 2463534242

  /** One step of xorshift32. */
  function Shuffle(s: bv32): bv32 {
    Left5(Right17(Left13(s)))
  }

  function Left13(s: bv32): bv32 { s ^ (s << 13) }

  function Right17(s: bv32): bv32 { s ^ (s >> 17) }

  function Left5(s: bv32): bv32 { s ^ (s << 5) }

  lemma Left13Nonzero(s: bv32)
    ensures s ^ (s << 13) == 0 ==> s == 0
  {
  }

  lemma Right17Nonzero(s: bv32)
    ensures s ^ (s >> 17) == 0 ==> s == 0
  {
  }

  lemma Left5Nonzero(s: bv32)
    ensures s ^ (s << 5) == 0 ==> s == 0
  {
  }

  function RandomState(i: nat): bv32 {
    if i == 0 then SEED else Shuffle(RandomState(i - 1))
  }

  /** The generator never falls into the state 0, which it could not leave again. */
  lemma {:induction false} RandomStateNonzero(i: nat)
    ensures RandomState(i) != 0
  {
    if i > 0 {
      var s := RandomState(i - 1);
      RandomStateNonzero(i - 1);
      Left13Nonzero(s);
      Right17Nonzero(Left13(s));
      Left5Nonzero(Right17(Left13(s)));
    }
  }

  /** The first states of xorshift32 from its usual seed. */
  lemma FirstStates()
    ensures RandomState(1) == 723471715 && RandomState(2) == 2497366906
  {
    assert RandomState(0) == SEED;
    assert RandomState(1) == Shuffle(SEED);
    assert RandomState(2) == Shuffle(RandomState(1));
  }

  function LowByte(s: bv32): byte {
    (s & 255) as int
  }

  function RandomByte(i: nat): byte {
    LowByte(RandomState(i + 1))
  }

  /** fillRandomishGrey8. */
  method FillRandomishGrey8(prev: array<byte>)
    modifies prev
    ensures forall i :: 0 <= i < prev.Length ==> prev[i] == RandomByte(i)
  {
    var s := SEED;
    for i := 0 to prev.Length
      invariant s == RandomState(i)
      invariant forall k :: 0 <= k < i ==> prev[k] == RandomByte(k)
    {
      s := Left13(s);
      s := Right17(s);
      s := Left5(s);
      prev[i] := LowByte(s);
    }
  }

  /** What the second image of a generated pair shows at a place. */
  ghost function Moved(prev: seq<byte>, w: nat, h: nat, dx: int, dy: int, x: int, y: int): byte
    requires |prev| == w * h && 0 <= x < w && 0 <= y < h
  {
    if 0 <= x - dx < w && 0 <= y - dy < h then Pixel(prev, w, h, x - dx, y - dy) else Pixel(prev, w, h, x, y)
  }

  ghost predicate IsMoved(p: Pair, dx: int, dy: int)
    requires p.Valid()
  {
    forall x, y :: 0 <= x < p.w && 0 <= y < p.h ==>
      Pixel(p.cur, p.w, p.h, x, y) == Moved(p.prev, p.w, p.h, dx, dy, x, y)
  }

  /** A place in row order is in an earlier row, or earlier in the same row. */
  lemma PixelOrder(w: nat, x: int, y: int, x': int, y': int)
    requires 0 <= x < w && 0 <= x' < w
    ensures y * w + x < y' * w + x' <==> y < y' || (y == y' && x < x')
  {
    TimesMonotone(y + 1, y', w);
    TimesMonotone(y' + 1, y, w);
  }

  method ShiftRow(prev: array<byte>, cur: array<byte>, w: nat, h: nat, dx: int, dy: int, y: nat)
    requires prev != cur && prev.Length == w * h && cur.Length == w * h && y < h
    requires forall x', y' :: 0 <= x' < w && 0 <= y' < y ==>
      Pixel(cur[..], w, h, x', y') == Moved(prev[..], w, h, dx, dy, x', y')
    modifies cur
    ensures forall x', y' :: 0 <= x' < w && 0 <= y' < y + 1 ==>
      Pixel(cur[..], w, h, x', y') == Moved(prev[..], w, h, dx, dy, x', y')
  {
    for x := 0 to w
      invariant forall x', y' :: 0 <= x' < w && 0 <= y' <= y && (y' < y || x' < x) ==>
        Pixel(cur[..], w, h, x', y') == Moved(prev[..], w, h, dx, dy, x', y')
    {
      var xs := x - dx;
      var ys := y - dy;
      PixelIndex(w, h, x, y);
      var v: byte;
      if 0 <= xs < w && 0 <= ys < h {
        PixelIndex(w, h, xs, ys);
        v := prev[ys * w + xs];
      } else {
        v := prev[y * w + x];
      }
      ghost var before := cur[..];
      cur[y * w + x] := v;
      forall x', y' | 0 <= x' < w && 0 <= y' <= y && (y' < y || x' < x + 1)
        ensures Pixel(cur[..], w, h, x', y') == Moved(prev[..], w, h, dx, dy, x', y')
      {
        PixelIndex(w, h, x', y');
        PixelOrder(w, x', y', x, y);
        if y' < y || x' < x {
          assert Pixel(before, w, h, x', y') == Moved(prev[..], w, h, dx, dy, x', y');
        }
      }
    }
  }

  /** buildSyntheticGreyPair. */
  method BuildSyntheticGreyPair(w: nat, h: nat, dx: int, dy: int) returns (prev: array<byte>, cur: array<byte>)
    ensures prev.Length == w * h && cur.Length == w * h
    ensures IsMoved(Pair(prev[..], cur[..], w, h), dx, dy)
    ensures forall i :: 0 <= i < prev.Length ==> prev[i] == RandomByte(i)
  {
    prev := new byte[w * h];
    FillRandomishGrey8(prev);
    cur := new byte[w * h];
    for y := 0 to h
      invariant forall i :: 0 <= i < prev.Length ==> prev[i] == RandomByte(i)
      invariant forall x', y' :: 0 <= x' < w && 0 <= y' < y ==>
        Pixel(cur[..], w, h, x', y') == Moved(prev[..], w, h, dx, dy, x', y')
    {
      ShiftRow(prev, cur, w, h, dx, dy, y);
    }
  }

  // ---- The matcher recovers what the generator did ----

  /** A generated pair agrees perfectly under its own shift. */
  lemma GeneratedMeanZero(p: Pair, dx: int, dy: int)
    requires p.Valid() && IsMoved(p, dx, dy)
    requires -(p.w as int) < dx < p.w && -(p.h as int) < dy < p.h
    ensures Mean(p, dx, dy) == 0.0
  {
    MeanZeroIff(p, dx, dy);
    forall x, y | Overlaps(p, dx, dy, x, y) ensures Difference(p, dx, dy, x, y) == 0 {
      assert Pixel(p.cur, p.w, p.h, x + dx, y + dy) == Moved(p.prev, p.w, p.h, dx, dy, x + dx, y + dy);
    }
  }

  ghost predicate OnlyPerfectShift(p: Pair, dx: int, dy: int)
    requires p.Valid()
  {
    forall x, y :: Nearby(p, x, y) && (x != dx || y != dy) ==> Mean(p, x, y) != 0.0
  }

  /** No shift that is tried before (dx, dy) fits perfectly. */
  ghost predicate FirstPerfectShift(p: Pair, dx: int, dy: int)
    requires p.Valid()
  {
    forall x, y :: Nearby(p, x, y) && Before(x, y, dx, dy) ==> Mean(p, x, y) != 0.0
  }

  lemma NearbyFits(p: Pair, sx: int, sy: int)
    requires p.w > 8 && p.h > 8 && Nearby(p, sx, sy)
    ensures -(p.w as int) < sx < p.w && -(p.h as int) < sy < p.h
  {
  }

  /** On a generated pair whose shift lies in the window the best mean is 0. The shift found is the one
      generated if and only if no shift tried before that one fits perfectly. The confidence is 0.25 if and
      only if no other shift at all fits perfectly, and 0 otherwise. */
  lemma GeneratedShiftRecovered(p: Pair, f: Found, dx: int, dy: int)
    requires p.Valid() && p.w > 8 && p.h > 8 && IsMoved(p, dx, dy)
    requires Nearby(p, dx, dy) && IsMatch(p, f)
    ensures f.best == 0.0 && Mean(p, f.x, f.y) == 0.0
    ensures f.x == dx && f.y == dy <==> FirstPerfectShift(p, dx, dy)
    ensures Confidence(f.best, f.second) == if OnlyPerfectShift(p, dx, dy) then 0.25 else 0.0
  {
    NearbyFits(p, dx, dy);
    NearbyFits(p, f.x, f.y);
    GeneratedMeanZero(p, dx, dy);
    MeanZeroIff(p, f.x, f.y);
    hide Mean;
    assert (f.x == dx && f.y == dy) || Before(f.x, f.y, dx, dy);
    if f.x == dx && f.y == dy {
      assert FirstPerfectShift(p, dx, dy);
    }
    var x, y :| Nearby(p, x, y) && (x != f.x || y != f.y) && f.second == Mean(p, x, y);
    NearbyFits(p, x, y);
    MeanZeroIff(p, x, y);
    if !OnlyPerfectShift(p, dx, dy) {
      var x', y' :| Nearby(p, x', y') && (x' != dx || y' != dy) && Mean(p, x', y') == 0.0;
      assert f.second <= 0.0;
    }
  }
}
