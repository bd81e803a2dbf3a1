/** The camera rectangle on the minimap: the search for the best placement of a
  * rectangle of known size on a noisy mask (src/services/camera-box.ts).
  *
  * The reference definition looks at every pixel of the minimap and asks
  * whether it lies on the rectangle's outline. The search never does that: it
  * reads four clipped runs off prefix sums. The lemmas here join the two.
  *
  * Hits are kept doubled (a marked pixel counts 2, a near miss 1), so that
  * everything up to the final division is an integer. */
module CameraBoxSearch {
  import opened Options
  import opened Sums

  /** The viewport mask: row-major bytes, non-zero where the pixel is marked. */
  datatype Grid = Grid(mask: seq<nat>, w: int, h: int) {
    predicate Usable() {
      w > 0 && h > 0 && |mask| >= w * h
    }

    predicate Inside(x: int, y: int) {
      0 <= x < w && 0 <= y < h
    }
  }

  datatype Corner = Corner(x0: int, y0: int)
  datatype Box = Box(x0: int, y0: int, x1: int, y1: int)
  datatype BoxResult = BoxResult(box: Box, score: real, visible: int)

  const BOX_MIN_SCORE := 0.4
  const SEARCH_RADIUS := 12

  lemma CellInMask(g: Grid, x: int, y: int)
    requires g.Usable() && g.Inside(x, y)
    ensures 0 <= y * g.w + x < |g.mask|
  {
    assert y * g.w <= (g.h - 1) * g.w;
  }

  predicate Marked(g: Grid, x: int, y: int) {
    g.Usable() && g.Inside(x, y) && (CellInMask(g, x, y); g.mask[y * g.w + x] != 0)
  }

  /** Doubled weight of a pixel lying on a horizontal edge: an edge drawn one
    * pixel off still counts half. */
  function RowWeight(g: Grid, x: int, y: int): (r: int)
    ensures 0 <= r <= 2
    ensures r == 2 <==> Marked(g, x, y)
  {
    if Marked(g, x, y) then 2 else if Marked(g, x, y - 1) || Marked(g, x, y + 1) then 1 else 0
  }

  /** Doubled weight of a pixel lying on a vertical edge. */
  function ColWeight(g: Grid, x: int, y: int): (r: int)
    ensures 0 <= r <= 2
    ensures r == 2 <==> Marked(g, x, y)
  {
    if Marked(g, x, y) then 2 else if Marked(g, x - 1, y) || Marked(g, x + 1, y) then 1 else 0
  }

  function RowW(g: Grid, y: int): int -> int { x => RowWeight(g, x, y) }
  function ColW(g: Grid, x: int): int -> int { y => ColWeight(g, x, y) }

  // ---------- The reference: every pixel of the minimap, one by one ----------

  predicate OnHorizontal(b: Box, x: int, y: int) {
    (y == b.y0 || y == b.y1) && b.x0 <= x <= b.x1
  }

  /** The corners belong to the horizontal edges. */
  predicate OnVertical(b: Box, x: int, y: int) {
    (x == b.x0 || x == b.x1) && b.y0 < y < b.y1
  }

  predicate OnOutline(b: Box, x: int, y: int) {
    OnHorizontal(b, x, y) || OnVertical(b, x, y)
  }

  function HorizontalAt(g: Grid, b: Box, y: int): int -> int {
    x => if OnHorizontal(b, x, y) then RowWeight(g, x, y) else 0
  }
  function VerticalAt(g: Grid, b: Box, y: int): int -> int {
    x => if OnVertical(b, x, y) then ColWeight(g, x, y) else 0
  }
  function VisibleAt(b: Box, y: int): int -> int {
    x => if OnOutline(b, x, y) then 1 else 0
  }

  function HorizontalRow(g: Grid, b: Box): int -> int { y => Sum(HorizontalAt(g, b, y), 0, g.w) }
  function VerticalRow(g: Grid, b: Box): int -> int { y => Sum(VerticalAt(g, b, y), 0, g.w) }
  function VisibleRow(g: Grid, b: Box): int -> int { y => Sum(VisibleAt(b, y), 0, g.w) }

  /** Doubled hits on the two horizontal edges, over all minimap pixels. */
  function HorizontalHits(g: Grid, b: Box): int { Sum(HorizontalRow(g, b), 0, g.h) }
  /** Doubled hits on the two vertical edges, over all minimap pixels. */
  function VerticalHits(g: Grid, b: Box): int { Sum(VerticalRow(g, b), 0, g.h) }
  /** How many minimap pixels lie on the outline. */
  function VisibleLength(g: Grid, b: Box): int { Sum(VisibleRow(g, b), 0, g.h) }

  // ---------- The four clipped runs the search reads ----------

  function Max(a: int, b: int): int { if a >= b then a else b }
  function Min(a: int, b: int): int { if a <= b then a else b }

  function HRunHits(g: Grid, y: int, xa: int, xb: int): int {
    if 0 <= y < g.h then Sum(RowW(g, y), Max(0, xa), Min(g.w - 1, xb) + 1) else 0
  }
  function VRunHits(g: Grid, x: int, ya: int, yb: int): int {
    if 0 <= x < g.w then Sum(ColW(g, x), Max(0, ya), Min(g.h - 1, yb) + 1) else 0
  }
  /** Length of line `p` (of `n` lines) between a..b, clipped to 0..m-1. */
  function RunLen(p: int, n: int, a: int, b: int, m: int): int {
    if 0 <= p < n then Max(0, Min(m - 1, b) - Max(0, a) + 1) else 0
  }

  /** A function that vanishes off two points. */
  lemma SumTwoPoints(f: int -> int, n: int, p: int, q: int)
    requires p < q
    requires forall i :: 0 <= i < n && i != p && i != q ==> f(i) == 0
    ensures Sum(f, 0, n) == (if 0 <= p < n then f(p) else 0) + (if 0 <= q < n then f(q) else 0)
  {
    if 0 <= q <= n {
      SumSplit(f, 0, q, n);
      SumPoint(f, 0, q, p);
      SumPoint(f, q, n, q);
    } else {
      SumPoint(f, 0, n, p);
    }
  }

  /** The two horizontal runs count each visible horizontal-edge pixel once. */
  lemma HorizontalRuns(g: Grid, b: Box)
    requires g.w > 0 && g.h > 0 && b.x0 < b.x1 && b.y0 < b.y1
    ensures HorizontalHits(g, b) == HRunHits(g, b.y0, b.x0, b.x1) + HRunHits(g, b.y1, b.x0, b.x1)
  {
    forall y | 0 <= y < g.h && y != b.y0 && y != b.y1 ensures HorizontalRow(g, b)(y) == 0 {
      SumZero(HorizontalAt(g, b, y), 0, g.w);
    }
    SumTwoPoints(HorizontalRow(g, b), g.h, b.y0, b.y1);
    forall y | 0 <= y < g.h && (y == b.y0 || y == b.y1)
      ensures HorizontalRow(g, b)(y) == HRunHits(g, y, b.x0, b.x1)
    {
      ClipRow(HorizontalAt(g, b, y), RowW(g, y), g.w, b.x0, b.x1);
    }
  }

  /** Summing over 0..n-1 a function that agrees with `inner` on a..b and
    * vanishes elsewhere is the clipped sum of `inner`. */
  lemma ClipRow(f: int -> int, inner: int -> int, n: int, a: int, b: int)
    requires n > 0 && a <= b + 1
    requires forall i :: 0 <= i < n ==> f(i) == if a <= i <= b then inner(i) else 0
    ensures Sum(f, 0, n) == Sum(inner, Max(0, a), Min(n - 1, b) + 1)
  {
    var lo, hi := Max(0, a), Min(n - 1, b) + 1;
    if lo <= hi {
      SumClip(f, 0, n, lo, hi);
      SumExt(f, inner, lo, hi);
    } else {
      SumZero(f, 0, n);
    }
  }

  lemma ClipOnes(f: int -> int, n: int, a: int, b: int)
    requires n > 0 && a <= b + 1
    requires forall i :: 0 <= i < n ==> f(i) == if a <= i <= b then 1 else 0
    ensures Sum(f, 0, n) == RunLen(0, 1, a, b, n)
  {
    var lo, hi := Max(0, a), Min(n - 1, b) + 1;
    if lo <= hi {
      SumClip(f, 0, n, lo, hi);
      SumOnes(f, lo, hi);
    } else {
      SumZero(f, 0, n);
    }
  }

  function ColumnPart(g: Grid, b: Box, x: int): int -> int {
    y => if b.y0 < y < b.y1 && 0 <= x < g.w then ColWeight(g, x, y) else 0
  }

  /** The two vertical runs count each visible vertical-edge pixel once. */
  lemma VerticalRuns(g: Grid, b: Box)
    requires g.w > 0 && g.h > 0 && b.x0 < b.x1 && b.y0 < b.y1
    ensures VerticalHits(g, b) == VRunHits(g, b.x0, b.y0 + 1, b.y1 - 1) + VRunHits(g, b.x1, b.y0 + 1, b.y1 - 1)
  {
    var left, right := ColumnPart(g, b, b.x0), ColumnPart(g, b, b.x1);
    forall y | 0 <= y < g.h ensures VerticalRow(g, b)(y) == left(y) + right(y) {
      SumTwoPoints(VerticalAt(g, b, y), g.w, b.x0, b.x1);
    }
    SumAdd(left, right, VerticalRow(g, b), 0, g.h);
    ColumnRun(g, b, b.x0);
    ColumnRun(g, b, b.x1);
  }

  lemma ColumnRun(g: Grid, b: Box, x: int)
    requires g.w > 0 && g.h > 0 && b.y0 < b.y1
    ensures Sum(ColumnPart(g, b, x), 0, g.h) == VRunHits(g, x, b.y0 + 1, b.y1 - 1)
  {
    if 0 <= x < g.w {
      ClipRow(ColumnPart(g, b, x), ColW(g, x), g.h, b.y0 + 1, b.y1 - 1);
    } else {
      SumZero(ColumnPart(g, b, x), 0, g.h);
    }
  }

  function VisibleColumn(g: Grid, b: Box, x: int): int -> int {
    y => if b.y0 < y < b.y1 && 0 <= x < g.w then 1 else 0
  }
  function VisibleEdge(g: Grid, b: Box): int -> int {
    y => if y == b.y0 || y == b.y1 then RunLen(0, 1, b.x0, b.x1, g.w) else 0
  }
  function VisibleSides(g: Grid, b: Box): int -> int {
    y => if b.y0 < y < b.y1 then (if 0 <= b.x0 < g.w then 1 else 0) + (if 0 <= b.x1 < g.w then 1 else 0) else 0
  }

  function Perimeter(b: Box): int { 2 * ((b.x1 - b.x0) + (b.y1 - b.y0)) }

  function RunLengths(g: Grid, b: Box): int {
    RunLen(b.y0, g.h, b.x0, b.x1, g.w) + RunLen(b.y1, g.h, b.x0, b.x1, g.w) +
    RunLen(b.x0, g.w, b.y0 + 1, b.y1 - 1, g.h) + RunLen(b.x1, g.w, b.y0 + 1, b.y1 - 1, g.h)
  }

  lemma VisibleRowParts(g: Grid, b: Box, y: int)
    requires g.w > 0 && b.x0 < b.x1 && b.y0 < b.y1
    ensures VisibleRow(g, b)(y) == VisibleEdge(g, b)(y) + VisibleSides(g, b)(y)
  {
    if y == b.y0 || y == b.y1 {
      ClipOnes(VisibleAt(b, y), g.w, b.x0, b.x1);
    } else {
      SumTwoPoints(VisibleAt(b, y), g.w, b.x0, b.x1);
    }
  }

  lemma VisibleEdges(g: Grid, b: Box)
    requires g.w > 0 && b.x0 < b.x1 && b.y0 < b.y1
    ensures Sum(VisibleEdge(g, b), 0, g.h) == RunLen(b.y0, g.h, b.x0, b.x1, g.w) + RunLen(b.y1, g.h, b.x0, b.x1, g.w)
  {
    var f := VisibleEdge(g, b);
    SumTwoPoints(f, g.h, b.y0, b.y1);
    var len := RunLen(0, 1, b.x0, b.x1, g.w);
    assert f(b.y0) == len;
    assert f(b.y1) == len;
    assert (if 0 <= b.y0 < g.h then len else 0) == RunLen(b.y0, g.h, b.x0, b.x1, g.w);
    assert (if 0 <= b.y1 < g.h then len else 0) == RunLen(b.y1, g.h, b.x0, b.x1, g.w);
  }

  /** The four run lengths count each visible outline pixel exactly once. */
  lemma VisibleRuns(g: Grid, b: Box)
    requires g.w > 0 && g.h > 0 && b.x0 < b.x1 && b.y0 < b.y1
    ensures VisibleLength(g, b) == RunLengths(g, b)
  {
    forall y | 0 <= y < g.h ensures VisibleRow(g, b)(y) == VisibleEdge(g, b)(y) + VisibleSides(g, b)(y) {
      VisibleRowParts(g, b, y);
    }
    SumAdd(VisibleEdge(g, b), VisibleSides(g, b), VisibleRow(g, b), 0, g.h);
    VisibleEdges(g, b);
    SumAdd(VisibleColumn(g, b, b.x0), VisibleColumn(g, b, b.x1), VisibleSides(g, b), 0, g.h);
    VisibleColumnRun(g, b, b.x0);
    VisibleColumnRun(g, b, b.x1);
  }

  lemma VisibleColumnRun(g: Grid, b: Box, x: int)
    requires g.w > 0 && g.h > 0 && b.y0 < b.y1
    ensures Sum(VisibleColumn(g, b, x), 0, g.h) == RunLen(x, g.w, b.y0 + 1, b.y1 - 1, g.h)
  {
    var f := VisibleColumn(g, b, x);
    if 0 <= x < g.w {
      ClipOnes(f, g.h, b.y0 + 1, b.y1 - 1);
    } else {
      SumZero(f, 0, g.h);
    }
  }

  // ---------- The specification of the search ----------

  /** The corners tried, inclusive on all sides. */
  datatype Window = Window(xLo: int, xHi: int, yLo: int, yHi: int) {
    predicate Has(c: Corner) {
      xLo <= c.x0 <= xHi && yLo <= c.y0 <= yHi
    }
  }

  function SearchWindow(w: int, h: int, bw: int, bh: int, near: Option<Corner>, radius: int): Window {
    match near
    case None => Window(-bw + 2, w - 2, -bh + 2, h - 2)
    case Some(n) => Window(Max(-bw + 2, n.x0 - radius), Min(w - 2, n.x0 + radius),
                           Max(-bh + 2, n.y0 - radius), Min(h - 2, n.y0 + radius))
  }

  predicate Searchable(g: Grid, bw: int, bh: int) {
    g.Usable() && bw >= 4 && bh >= 4
  }

  function BoxAt(c: Corner, bw: int, bh: int): Box {
    Box(c.x0, c.y0, c.x0 + bw, c.y0 + bh)
  }

  /** Enough of the outline is on the minimap, and both a horizontal and a
    * vertical edge show. */
  predicate Admissible(g: Grid, b: Box) {
    && VisibleLength(g, b) as real >= Perimeter(b) as real * 0.25
    && HorizontalHits(g, b) as real / 2.0 >= (b.x1 - b.x0) as real * 0.3
    && VerticalHits(g, b) as real / 2.0 >= (b.y1 - b.y0) as real * 0.3
  }

  /** The share of the visible outline that is marked. */
  function Score(g: Grid, b: Box): real {
    var v := VisibleLength(g, b);
    if v == 0 then 0.0 else (HorizontalHits(g, b) + VerticalHits(g, b)) as real / 2.0 / v as real
  }

  predicate Better(g: Grid, p: Box, q: Box) {
    Score(g, p) > Score(g, q) || (Score(g, p) == Score(g, q) && VisibleLength(g, p) > VisibleLength(g, q))
  }

  predicate Before(c: Corner, d: Corner) {
    c.y0 < d.y0 || (c.y0 == d.y0 && c.x0 < d.x0)
  }

  predicate Candidate(g: Grid, bw: int, bh: int, win: Window, c: Corner) {
    win.Has(c) && Admissible(g, BoxAt(c, bw, bh))
  }

  /** `c` is as good as `d`, and strictly better when `d` comes first. */
  predicate Beats(g: Grid, bw: int, bh: int, c: Corner, d: Corner) {
    if Before(d, c) then Better(g, BoxAt(c, bw, bh), BoxAt(d, bw, bh))
    else !Better(g, BoxAt(d, bw, bh), BoxAt(c, bw, bh))
  }

  function ResultAt(g: Grid, b: Box): BoxResult {
    BoxResult(b, Score(g, b), VisibleLength(g, b))
  }

  /** What the search must return: the first candidate in scan order that no
    * other beats, or nothing exactly when no candidate reaches the threshold. */
  ghost predicate IsFound(g: Grid, bw: int, bh: int, win: Window, r: Option<BoxResult>) {
    match r
    case None => forall c | Candidate(g, bw, bh, win, c) :: Score(g, BoxAt(c, bw, bh)) < BOX_MIN_SCORE
    case Some(v) =>
      var c := Corner(v.box.x0, v.box.y0);
      && Candidate(g, bw, bh, win, c)
      && v == ResultAt(g, BoxAt(c, bw, bh))
      && v.score >= BOX_MIN_SCORE
      && forall d | Candidate(g, bw, bh, win, d) :: Beats(g, bw, bh, c, d)
  }

  /** The specification determines the answer. */
  lemma FoundUnique(g: Grid, bw: int, bh: int, win: Window, r: Option<BoxResult>, s: Option<BoxResult>)
    requires IsFound(g, bw, bh, win, r) && IsFound(g, bw, bh, win, s)
    ensures r == s
  {
    if r.Some? && s.Some? {
      var c, d := Corner(r.value.box.x0, r.value.box.y0), Corner(s.value.box.x0, s.value.box.y0);
      assert Beats(g, bw, bh, c, d) && Beats(g, bw, bh, d, c);
      assert c == d;
    }
  }

  /** A quarter of the perimeter is visible, three tenths of a horizontal and of a
    * vertical edge are hit, and two fifths of what is visible. Hits are doubled. */
  predicate Shows(hHits: int, vHits: int, visible: int, bw: int, bh: int) {
    4 * visible >= 2 * (bw + bh) && 5 * hHits >= 3 * bw && 5 * vHits >= 3 * bh && 5 * (hHits + vHits) >= 4 * visible
  }

  lemma ScoreReaches(g: Grid, b: Box)
    requires VisibleLength(g, b) > 0
    ensures Score(g, b) >= 0.4 <==> 5 * (HorizontalHits(g, b) + VerticalHits(g, b)) >= 4 * VisibleLength(g, b)
  {
    TwoFifths(HorizontalHits(g, b) + VerticalHits(g, b), VisibleLength(g, b));
  }

  lemma TwoFifths(hits: int, visible: int)
    requires visible > 0
    ensures hits as real / 2.0 / visible as real >= 0.4 <==> 5 * hits >= 4 * visible
  {
    var s, v := hits as real / 2.0 / visible as real, visible as real;
    assert 2.0 * (s * v) == hits as real;
    if s >= 0.4 {
      assert (s - 0.4) * v >= 0.0;
    } else {
      assert (0.4 - s) * v > 0.0;
    }
  }

  lemma ShowsIff(g: Grid, c: Corner, bw: int, bh: int)
    requires bw >= 4 && bh >= 4
    ensures var b := BoxAt(c, bw, bh);
            Admissible(g, b) && Score(g, b) >= 0.4 <==>
            Shows(HorizontalHits(g, b), VerticalHits(g, b), VisibleLength(g, b), bw, bh)
  {
    var b := BoxAt(c, bw, bh);
    hide HorizontalHits, VerticalHits, VisibleLength, Score;
    if VisibleLength(g, b) > 0 { ScoreReaches(g, b); }
  }

  /** Exactly when nothing is found: of all corners tried, at most `radius` away
    * each way when looking near, none shows. */
  lemma NothingFoundIff(g: Grid, bw: int, bh: int, near: Option<Corner>, radius: int, r: Option<BoxResult>)
    requires Searchable(g, bw, bh) && IsFound(g, bw, bh, SearchWindow(g.w, g.h, bw, bh, near, radius), r)
    ensures r.None? <==>
            forall c: Corner
              | -bw + 2 <= c.x0 <= g.w - 2 && -bh + 2 <= c.y0 <= g.h - 2
              && (near.None? || near.value.x0 - radius <= c.x0 <= near.value.x0 + radius)
              && (near.None? || near.value.y0 - radius <= c.y0 <= near.value.y0 + radius) ::
              var b := BoxAt(c, bw, bh);
              !Shows(HorizontalHits(g, b), VerticalHits(g, b), VisibleLength(g, b), bw, bh)
  {
    hide HorizontalHits, VerticalHits, VisibleLength, Score, Admissible, Shows, Beats;
    forall c: Corner { ShowsIff(g, c, bw, bh); }
    if r.Some? {
      var c := Corner(r.value.box.x0, r.value.box.y0);
      assert r.value.score == Score(g, BoxAt(c, bw, bh));
    }
  }

  // ---------- Prefix sums ----------

  /** Entry `at` of line `line` in a table of lines `width` long. */
  function Entry(t: seq<int>, line: nat, width: nat, at: nat): int {
    if line * width + at < |t| then t[line * width + at] else 0
  }

  /** How many entries so many lines have. */
  function Flat(lines: nat, width: nat): nat { lines * width }

  /** Line y holds the prefix sums of row y's weights, from 0 to w terms. */
  ghost predicate RowTable(g: Grid, t: seq<int>) {
    && g.w >= 0 && g.h >= 0 && |t| == Flat(g.h, g.w + 1)
    && forall y: nat, x: nat | y < g.h && x <= g.w :: Entry(t, y, g.w + 1, x) == Sum(RowW(g, y), 0, x)
  }

  ghost predicate ColTable(g: Grid, t: seq<int>) {
    && g.w >= 0 && g.h >= 0 && |t| == Flat(g.w, g.h + 1)
    && forall x: nat, y: nat | x < g.w && y <= g.h :: Entry(t, x, g.h + 1, y) == Sum(ColW(g, x), 0, y)
  }

  lemma FlatIndex(line: nat, width: nat, at: nat)
    requires at < width
    ensures (line * width + at) / width == line && (line * width + at) % width == at
  {
    var k := line * width + at;
    assert k == (k / width) * width + k % width;
    assert (k / width - line) * width == at - k % width;
    NoWrap(k / width - line, width);
  }

  lemma FlatBound(line: nat, lines: nat, width: nat, at: nat)
    requires line < lines && at < width
    ensures line * width + at < lines * width
  {
    assert line * width <= (lines - 1) * width;
  }

  lemma MakeTable(lines: nat, width: nat, f: (nat, nat) -> int) returns (t: seq<int>)
    requires width > 0
    ensures |t| == Flat(lines, width)
    ensures forall l: nat, a: nat | l < lines && a < width :: Entry(t, l, width, a) == f(l, a)
  {
    t := seq(lines * width, k requires k >= 0 => f(k / width, k % width));
    forall l: nat, a: nat | l < lines && a < width ensures Entry(t, l, width, a) == f(l, a) {
      FlatBound(l, lines, width, a);
      FlatIndex(l, width, a);
    }
  }

  /** A line's entries, as a plain slice of the table. */
  lemma LineEntries(t: seq<int>, lines: nat, width: nat, l: nat, base: int, f: int -> int)
    requires |t| == Flat(lines, width) && l < lines && width > 0 && base == Flat(l, width)
    requires forall a: nat | a < width :: Entry(t, l, width, a) == Sum(f, 0, a)
    ensures base + width == Flat(l + 1, width) <= |t|
    ensures forall a | base <= a < base + width :: t[a] == Sum(f, 0, a - base)
  {
    FlatBound(l, lines, width, width - 1);
    forall a | base <= a < base + width ensures t[a] == Sum(f, 0, a - base) {
      assert Entry(t, l, width, a - base) == Sum(f, 0, a - base);
    }
  }

  method FillRow(g: Grid, rows: array<int>, y: int, line: nat, ghost want: seq<int>)
    requires g.Usable() && line + g.w < rows.Length == |want|
    requires forall a | line <= a <= line + g.w :: want[a] == Sum(RowW(g, y), 0, a - line)
    requires rows[..line] == want[..line] && forall k | line <= k < rows.Length :: rows[k] == 0
    modifies rows
    ensures rows[..line + g.w + 1] == want[..line + g.w + 1]
    ensures forall k | line + g.w < k < rows.Length :: rows[k] == 0
  {
    var s := 0;
    for x := 0 to g.w
      invariant s == Sum(RowW(g, y), 0, x)
      invariant rows[..line + x + 1] == want[..line + x + 1]
      invariant forall k | line + x < k < rows.Length :: rows[k] == 0
    {
      s := s + if Marked(g, x, y) then 2 else if Marked(g, x, y - 1) || Marked(g, x, y + 1) then 1 else 0;
      rows[line + x + 1] := s;
    }
  }

  method FillCol(g: Grid, cols: array<int>, x: int, line: nat, ghost want: seq<int>)
    requires g.Usable() && line + g.h < cols.Length == |want|
    requires forall a | line <= a <= line + g.h :: want[a] == Sum(ColW(g, x), 0, a - line)
    requires cols[..line] == want[..line] && forall k | line <= k < cols.Length :: cols[k] == 0
    modifies cols
    ensures cols[..line + g.h + 1] == want[..line + g.h + 1]
    ensures forall k | line + g.h < k < cols.Length :: cols[k] == 0
  {
    var s := 0;
    for y := 0 to g.h
      invariant s == Sum(ColW(g, x), 0, y)
      invariant cols[..line + y + 1] == want[..line + y + 1]
      invariant forall k | line + y < k < cols.Length :: cols[k] == 0
    {
      s := s + if Marked(g, x, y) then 2 else if Marked(g, x - 1, y) || Marked(g, x + 1, y) then 1 else 0;
      cols[line + y + 1] := s;
    }
  }

  method RowSums(g: Grid) returns (rows: array<int>)
    requires g.Usable()
    ensures fresh(rows) && RowTable(g, rows[..])
  {
    ghost var want := MakeTable(g.h, g.w + 1, (y: nat, x: nat) => Sum(RowW(g, y), 0, x));
    rows := new int[Flat(g.h, g.w + 1)](_ => 0);
    var y, line := 0, 0;
    assert Flat(0, g.w + 1) == 0;
    hide Marked, RowWeight, Flat;
    while y < g.h
      invariant 0 <= y <= g.h && line == Flat(y, g.w + 1)
      invariant line <= rows.Length && rows[..line] == want[..line]
      invariant forall k | line <= k < rows.Length :: rows[k] == 0
    {
      LineEntries(want, g.h, g.w + 1, y, line, RowW(g, y));
      FillRow(g, rows, y, line, want);
      y, line := y + 1, line + (g.w + 1);
    }
    assert rows[..] == want;
  }

  method ColSums(g: Grid) returns (cols: array<int>)
    requires g.Usable()
    ensures fresh(cols) && ColTable(g, cols[..])
  {
    ghost var want := MakeTable(g.w, g.h + 1, (x: nat, y: nat) => Sum(ColW(g, x), 0, y));
    cols := new int[Flat(g.w, g.h + 1)](_ => 0);
    var x, line := 0, 0;
    assert Flat(0, g.h + 1) == 0;
    hide Marked, ColWeight, Flat;
    while x < g.w
      invariant 0 <= x <= g.w && line == Flat(x, g.h + 1)
      invariant line <= cols.Length && cols[..line] == want[..line]
      invariant forall k | line <= k < cols.Length :: cols[k] == 0
    {
      LineEntries(want, g.w, g.h + 1, x, line, ColW(g, x));
      FillCol(g, cols, x, line, want);
      x, line := x + 1, line + (g.h + 1);
    }
    assert cols[..] == want;
  }

  method PrefixSums(g: Grid) returns (rows: array<int>, cols: array<int>)
    requires g.Usable()
    ensures fresh(rows) && fresh(cols) && RowTable(g, rows[..]) && ColTable(g, cols[..])
  {
    rows := RowSums(g);
    cols := ColSums(g);
  }

  lemma RunBetween(t: seq<int>, base: nat, f: int -> int, a: nat, b: nat)
    requires a <= b && base + b < |t|
    requires t[base + a] == Sum(f, 0, a) && t[base + b] == Sum(f, 0, b)
    ensures t[base + b] - t[base + a] == Sum(f, a, b)
  {
    SumSplit(f, 0, a, b);
  }

  lemma RowLookup(g: Grid, t: seq<int>, y: nat, base: int, a: nat, b: nat)
    requires g.Usable() && RowTable(g, t) && y < g.h && base == y * (g.w + 1) && a <= b <= g.w
    ensures 0 <= base && base + b < |t| && t[base + b] - t[base + a] == Sum(RowW(g, y), a, b)
  {
    LineEntries(t, g.h, g.w + 1, y, base, RowW(g, y));
    RunBetween(t, base, RowW(g, y), a, b);
  }

  lemma ColLookup(g: Grid, t: seq<int>, x: nat, base: int, a: nat, b: nat)
    requires g.Usable() && ColTable(g, t) && x < g.w && base == x * (g.h + 1) && a <= b <= g.h
    ensures 0 <= base && base + b < |t| && t[base + b] - t[base + a] == Sum(ColW(g, x), a, b)
  {
    LineEntries(t, g.w, g.h + 1, x, base, ColW(g, x));
    RunBetween(t, base, ColW(g, x), a, b);
  }

  /** Two lookups read a whole horizontal run. */
  method HRun(g: Grid, rows: array<int>, y: int, xa: int, xb: int) returns (hits: int, len: int)
    requires g.Usable() && RowTable(g, rows[..])
    ensures hits == HRunHits(g, y, xa, xb) && len == RunLen(y, g.h, xa, xb, g.w)
  {
    if y < 0 || y >= g.h { return 0, 0; }
    var a, b := Max(0, xa), Min(g.w - 1, xb);
    if b < a { return 0, 0; }
    var line := y * (g.w + 1);
    RowLookup(g, rows[..], y, line, a, b + 1);
    return rows[line + b + 1] - rows[line + a], b - a + 1;
  }

  /** Two lookups read a whole vertical run. */
  method VRun(g: Grid, cols: array<int>, x: int, ya: int, yb: int) returns (hits: int, len: int)
    requires g.Usable() && ColTable(g, cols[..])
    ensures hits == VRunHits(g, x, ya, yb) && len == RunLen(x, g.w, ya, yb, g.h)
  {
    if x < 0 || x >= g.w { return 0, 0; }
    var a, b := Max(0, ya), Min(g.h - 1, yb);
    if b < a { return 0, 0; }
    var line := x * (g.h + 1);
    ColLookup(g, cols[..], x, line, a, b + 1);
    return cols[line + b + 1] - cols[line + a], b - a + 1;
  }

  // ---------- The search ----------

  /** The candidates before (x, y) in scan order have been seen, and `best` is
    * the first unbeaten one among them. */
  ghost predicate BestSoFar(g: Grid, bw: int, bh: int, win: Window, here: Corner, best: Option<BoxResult>) {
    match best
    case None => forall c | win.Has(c) && Before(c, here) :: !Candidate(g, bw, bh, win, c)
    case Some(v) =>
      var c := Corner(v.box.x0, v.box.y0);
      && Before(c, here)
      && Candidate(g, bw, bh, win, c)
      && v == ResultAt(g, BoxAt(c, bw, bh))
      && forall d | Candidate(g, bw, bh, win, d) && Before(d, here) :: Beats(g, bw, bh, c, d)
  }

  /** The four runs of one placement. */
  method Tally(g: Grid, rows: array<int>, cols: array<int>, b: Box) returns (hh: int, vv: int, visible: int)
    requires g.Usable() && RowTable(g, rows[..]) && ColTable(g, cols[..])
    requires b.x0 < b.x1 && b.y0 < b.y1
    ensures hh == HorizontalHits(g, b) && vv == VerticalHits(g, b) && visible == VisibleLength(g, b)
  {
    var tHit, tLen := HRun(g, rows, b.y0, b.x0, b.x1);
    var bHit, bLen := HRun(g, rows, b.y1, b.x0, b.x1);
    var lHit, lLen := VRun(g, cols, b.x0, b.y0 + 1, b.y1 - 1);
    var rHit, rLen := VRun(g, cols, b.x1, b.y0 + 1, b.y1 - 1);
    HorizontalRuns(g, b);
    VerticalRuns(g, b);
    VisibleRuns(g, b);
    return tHit + bHit, lHit + rHit, tLen + bLen + lLen + rLen;
  }

  method ScorePlacement(g: Grid, rows: array<int>, cols: array<int>, b: Box) returns (r: Option<BoxResult>)
    requires g.Usable() && RowTable(g, rows[..]) && ColTable(g, cols[..])
    requires b.x1 - b.x0 >= 4 && b.y1 - b.y0 >= 4
    ensures r.Some? <==> Admissible(g, b)
    ensures r.Some? ==> r.value == ResultAt(g, b)
  {
    var hh, vv, visible := Tally(g, rows, cols, b);
    if visible as real < Perimeter(b) as real * 0.25 { return None; }
    if hh as real / 2.0 < (b.x1 - b.x0) as real * 0.3 || vv as real / 2.0 < (b.y1 - b.y0) as real * 0.3 { return None; }
    return Some(BoxResult(b, (hh + vv) as real / 2.0 / visible as real, visible));
  }

  /** One step of the inner loop: score the placement at `c`, keep the better. */
  method TryPlacement(g: Grid, rows: array<int>, cols: array<int>, bw: int, bh: int, ghost win: Window, c: Corner,
                      was: Option<BoxResult>) returns (best: Option<BoxResult>)
    requires Searchable(g, bw, bh) && RowTable(g, rows[..]) && ColTable(g, cols[..])
    requires win.Has(c) && BestSoFar(g, bw, bh, win, c, was)
    ensures BestSoFar(g, bw, bh, win, Corner(c.x0 + 1, c.y0), best)
  {
    var s := ScorePlacement(g, rows, cols, BoxAt(c, bw, bh));
    if s.Some? && (was.None? || s.value.score > was.value.score ||
                   (s.value.score == was.value.score && s.value.visible > was.value.visible)) {
      best := s;
    } else {
      best := was;
    }
    Advance(g, bw, bh, win, c, s, was, best);
  }

  method Scan(g: Grid, rows: array<int>, cols: array<int>, bw: int, bh: int, win: Window)
      returns (best: Option<BoxResult>)
    requires Searchable(g, bw, bh) && RowTable(g, rows[..]) && ColTable(g, cols[..])
    ensures BestSoFar(g, bw, bh, win, Corner(win.xLo, Max(win.yLo, win.yHi + 1)), best)
  {
    best := None;
    assert BestSoFar(g, bw, bh, win, Corner(win.xLo, win.yLo), best);
    hide BestSoFar, RowTable, ColTable;
    var y0 := win.yLo;
    while y0 <= win.yHi
      invariant win.yLo <= y0 <= Max(win.yLo, win.yHi + 1)
      invariant BestSoFar(g, bw, bh, win, Corner(win.xLo, y0), best)
    {
      var x0 := win.xLo;
      while x0 <= win.xHi
        invariant win.xLo <= x0
        invariant BestSoFar(g, bw, bh, win, Corner(x0, y0), best)
      {
        best := TryPlacement(g, rows, cols, bw, bh, win, Corner(x0, y0), best);
        x0 := x0 + 1;
      }
      NextRow(g, bw, bh, win, x0, y0, best);
      y0 := y0 + 1;
    }
  }

  method FindCameraBox(g: Grid, bw: int, bh: int, near: Option<Corner>, radius: int) returns (r: Option<BoxResult>)
    ensures Searchable(g, bw, bh) ==> IsFound(g, bw, bh, SearchWindow(g.w, g.h, bw, bh, near, radius), r)
    ensures !Searchable(g, bw, bh) ==> r == None
  {
    if g.w <= 0 || g.h <= 0 || bw < 4 || bh < 4 || |g.mask| < g.w * g.h { return None; }
    var rows, cols := PrefixSums(g);
    var win := SearchWindow(g.w, g.h, bw, bh, near, radius);
    var best := Scan(g, rows, cols, bw, bh, win);
    r := if best.Some? && best.value.score >= BOX_MIN_SCORE then best else None;
    Finish(g, bw, bh, win, Max(win.yLo, win.yHi + 1), best, r);
  }

  /** One placement more. */
  lemma Advance(g: Grid, bw: int, bh: int, win: Window, c: Corner, s: Option<BoxResult>,
                was: Option<BoxResult>, best: Option<BoxResult>)
    requires win.Has(c) && BestSoFar(g, bw, bh, win, c, was)
    requires s.Some? <==> Admissible(g, BoxAt(c, bw, bh))
    requires s.Some? ==> s.value == ResultAt(g, BoxAt(c, bw, bh))
    requires best == if s.Some? && (was.None? || s.value.score > was.value.score ||
                                    (s.value.score == was.value.score && s.value.visible > was.value.visible))
                     then s else was
    ensures BestSoFar(g, bw, bh, win, Corner(c.x0 + 1, c.y0), best)
  {
    var next := Corner(c.x0 + 1, c.y0);
    forall d | Before(d, next) ensures Before(d, c) || d == c {}
    if best.Some? {
      var k := Corner(best.value.box.x0, best.value.box.y0);
      forall d | Candidate(g, bw, bh, win, d) && Before(d, next) ensures Beats(g, bw, bh, k, d) {
        if k == c && d != c && was.Some? {
          var p := Corner(was.value.box.x0, was.value.box.y0);
          assert Beats(g, bw, bh, p, d);
        }
      }
    }
  }

  /** Past the end of a row is the start of the next. */
  lemma NextRow(g: Grid, bw: int, bh: int, win: Window, x0: int, y0: int, best: Option<BoxResult>)
    requires x0 > win.xHi && BestSoFar(g, bw, bh, win, Corner(x0, y0), best)
    ensures BestSoFar(g, bw, bh, win, Corner(win.xLo, y0 + 1), best)
  {
    forall d | win.Has(d) && Before(d, Corner(win.xLo, y0 + 1)) ensures Before(d, Corner(x0, y0)) {}
  }

  lemma Finish(g: Grid, bw: int, bh: int, win: Window, y0: int, best: Option<BoxResult>, r: Option<BoxResult>)
    requires y0 > win.yHi && BestSoFar(g, bw, bh, win, Corner(win.xLo, y0), best)
    requires r == if best.Some? && best.value.score >= BOX_MIN_SCORE then best else None
    ensures IsFound(g, bw, bh, win, r)
  {
    forall d | win.Has(d) ensures Before(d, Corner(win.xLo, y0)) {}
    if best.Some? && r.None? {
      var k := Corner(best.value.box.x0, best.value.box.y0);
      forall c | Candidate(g, bw, bh, win, c) ensures Score(g, BoxAt(c, bw, bh)) < BOX_MIN_SCORE {
        assert Beats(g, bw, bh, k, c);
      }
    }
  }

  // ---------- Whole outlines ----------

  /** The whole outline lies on the minimap. */
  predicate WhollyVisible(g: Grid, b: Box) {
    0 <= b.x0 && b.x1 < g.w && 0 <= b.y0 && b.y1 < g.h
  }

  /** Every outline pixel is marked. */
  ghost predicate FullyMarked(g: Grid, b: Box) {
    forall x, y | OnOutline(b, x, y) :: Marked(g, x, y)
  }

  ghost predicate RowMarked(g: Grid, b: Box, y: int) {
    forall x | 0 <= x < g.w && OnOutline(b, x, y) :: Marked(g, x, y)
  }

  /** Every outline pixel on the minimap is marked. */
  ghost predicate VisibleMarked(g: Grid, b: Box) {
    forall y | 0 <= y < g.h :: RowMarked(g, b, y)
  }

  /** The score never exceeds 1, and reaches it only when every visible outline
    * pixel is marked. */
  lemma ScoreAtMostOne(g: Grid, b: Box)
    requires g.Usable() && b.x0 < b.x1 && b.y0 < b.y1
    ensures HorizontalHits(g, b) + VerticalHits(g, b) <= 2 * VisibleLength(g, b)
    ensures HorizontalHits(g, b) + VerticalHits(g, b) == 2 * VisibleLength(g, b) <==> VisibleMarked(g, b)
  {
    var hr, vr, len := HorizontalRow(g, b), VerticalRow(g, b), VisibleRow(g, b);
    forall y | 0 <= y < g.h
      ensures hr(y) + vr(y) <= 2 * len(y)
      ensures hr(y) + vr(y) == 2 * len(y) <==> RowMarked(g, b, y)
    {
      RowAtMostOne(g, b, y);
    }
    SumDominated(hr, vr, len, 0, g.h);
  }

  lemma RowAtMostOne(g: Grid, b: Box, y: int)
    requires g.Usable() && b.x0 < b.x1 && b.y0 < b.y1 && 0 <= y < g.h
    ensures HorizontalRow(g, b)(y) + VerticalRow(g, b)(y) <= 2 * VisibleRow(g, b)(y)
    ensures HorizontalRow(g, b)(y) + VerticalRow(g, b)(y) == 2 * VisibleRow(g, b)(y) <==> RowMarked(g, b, y)
  {
    var ha, va, len := HorizontalAt(g, b, y), VerticalAt(g, b, y), VisibleAt(b, y);
    forall x | 0 <= x < g.w
      ensures ha(x) + va(x) <= 2 * len(x)
      ensures ha(x) + va(x) == 2 * len(x) <==> (OnOutline(b, x, y) ==> Marked(g, x, y))
    {
    }
    SumDominated(ha, va, len, 0, g.w);
  }

  /** Only a wholly visible rectangle shows its whole perimeter. */
  lemma VisibleAtMostPerimeter(g: Grid, b: Box)
    requires g.Usable() && b.x0 < b.x1 && b.y0 + 1 < b.y1
    ensures VisibleLength(g, b) <= Perimeter(b)
    ensures VisibleLength(g, b) == Perimeter(b) <==> WhollyVisible(g, b)
  {
    VisibleRuns(g, b);
  }

  // ---------- Near misses ----------

  /** The outline pixel or a neighbour across the edge it lies on is marked; a corner
    * lies on its horizontal edge. */
  predicate NearlyMarked(g: Grid, b: Box, x: int, y: int) {
    || Marked(g, x, y)
    || (OnHorizontal(b, x, y) && (Marked(g, x, y - 1) || Marked(g, x, y + 1)))
    || (OnVertical(b, x, y) && (Marked(g, x - 1, y) || Marked(g, x + 1, y)))
  }

  ghost predicate RowNearlyMarked(g: Grid, b: Box, y: int) {
    forall x | 0 <= x < g.w && OnOutline(b, x, y) :: NearlyMarked(g, b, x, y)
  }

  ghost predicate RowUnmarked(g: Grid, b: Box, y: int) {
    forall x | 0 <= x < g.w && OnOutline(b, x, y) :: !NearlyMarked(g, b, x, y)
  }

  lemma RowNearMisses(g: Grid, b: Box, y: int)
    requires g.Usable() && 0 <= y < g.h
    ensures HorizontalRow(g, b)(y) >= 0 && VerticalRow(g, b)(y) >= 0
    ensures HorizontalRow(g, b)(y) == 0 && VerticalRow(g, b)(y) == 0 <==> RowUnmarked(g, b, y)
    ensures RowNearlyMarked(g, b, y) ==> VisibleRow(g, b)(y) <= HorizontalRow(g, b)(y) + VerticalRow(g, b)(y)
  {
    var ha, va := HorizontalAt(g, b, y), VerticalAt(g, b, y);
    SumNonNegative(ha, 0, g.w);
    SumNonNegative(va, 0, g.w);
    forall x | 0 <= x < g.w
      ensures ha(x) == 0 && va(x) == 0 <==> (OnOutline(b, x, y) ==> !NearlyMarked(g, b, x, y))
    {
    }
    if RowNearlyMarked(g, b, y) { SumCovers(ha, va, VisibleAt(b, y), 0, g.w); }
  }

  lemma HalfScore(hits: int, visible: int)
    requires visible > 0
    ensures hits >= visible <==> hits as real / 2.0 / visible as real >= 0.5
    ensures hits == 0 <==> hits as real / 2.0 / visible as real == 0.0
  {
    var s := hits as real / 2.0 / visible as real;
    assert s * visible as real == hits as real / 2.0;
  }

  /** An outline drawn at most a pixel off, in any mixture of directions, scores at
    * least one half. */
  lemma OffByOneScoresHalf(g: Grid, b: Box)
    requires g.Usable() && VisibleLength(g, b) > 0
    requires forall y | 0 <= y < g.h :: RowNearlyMarked(g, b, y)
    ensures Score(g, b) >= 0.5
  {
    forall y | 0 <= y < g.h { RowNearMisses(g, b, y); }
    SumCovers(HorizontalRow(g, b), VerticalRow(g, b), VisibleRow(g, b), 0, g.h);
    HalfScore(HorizontalHits(g, b) + VerticalHits(g, b), VisibleLength(g, b));
  }

  lemma NoHitsIff(g: Grid, b: Box)
    requires g.Usable()
    ensures HorizontalHits(g, b) + VerticalHits(g, b) == 0 <==> forall y | 0 <= y < g.h :: RowUnmarked(g, b, y)
  {
    var hr, vr := HorizontalRow(g, b), VerticalRow(g, b);
    forall y | 0 <= y < g.h
      ensures hr(y) >= 0 && vr(y) >= 0
      ensures hr(y) == 0 && vr(y) == 0 <==> RowUnmarked(g, b, y)
    {
      RowNearMisses(g, b, y);
    }
    hide RowUnmarked, HorizontalRow, VerticalRow;
    SumNonNegative(hr, 0, g.h);
    SumNonNegative(vr, 0, g.h);
  }

  /** A placement scores nothing exactly when no pixel of its visible outline is
    * marked or has a mark across its edge. */
  lemma ScoresNothingIff(g: Grid, b: Box)
    requires g.Usable() && VisibleLength(g, b) > 0
    ensures Score(g, b) == 0.0 <==> forall y | 0 <= y < g.h :: RowUnmarked(g, b, y)
  {
    hide RowUnmarked, HorizontalHits, VerticalHits, VisibleLength;
    NoHitsIff(g, b);
    HalfScore(HorizontalHits(g, b) + VerticalHits(g, b), VisibleLength(g, b));
  }

  // ---------- Exact recovery ----------

  /** Exact recovery: when the mask holds the whole outline of exactly one
    * wholly visible placement in the window, the search returns that placement
    * with score 1, whatever else is marked and however many clipped placements
    * score 1 as well. */
  lemma ExactRecovery(g: Grid, bw: int, bh: int, win: Window, target: Corner, r: Option<BoxResult>)
    requires Searchable(g, bw, bh) && win.Has(target)
    requires WhollyVisible(g, BoxAt(target, bw, bh)) && FullyMarked(g, BoxAt(target, bw, bh))
    requires forall c | WhollyVisible(g, BoxAt(c, bw, bh)) && FullyMarked(g, BoxAt(c, bw, bh)) :: c == target
    requires IsFound(g, bw, bh, win, r)
    ensures r == Some(BoxResult(BoxAt(target, bw, bh), 1.0, 2 * (bw + bh)))
  {
    var t := BoxAt(target, bw, bh);
    TargetAdmissible(g, t);
    assert Candidate(g, bw, bh, win, target);
    var c := Corner(r.value.box.x0, r.value.box.y0);
    assert Beats(g, bw, bh, c, target);
    OnlyFullBoxesScoreFull(g, BoxAt(c, bw, bh), t);
  }

  /** A box of the same size not worse than a full one is full itself. */
  lemma OnlyFullBoxesScoreFull(g: Grid, b: Box, t: Box)
    requires g.Usable() && b.x1 - b.x0 >= 4 && b.y1 - b.y0 >= 4
    requires Admissible(g, b) && !Better(g, t, b)
    requires Score(g, t) == 1.0 && VisibleLength(g, t) == Perimeter(b)
    ensures WhollyVisible(g, b) && FullyMarked(g, b)
  {
    ScoreAtMostOne(g, b);
    VisibleAtMostPerimeter(g, b);
    FullScore(g, b);
    assert VisibleMarked(g, b);
    forall x, y | OnOutline(b, x, y) ensures Marked(g, x, y) {
      assert RowMarked(g, b, y);
    }
  }

  lemma FullScore(g: Grid, b: Box)
    requires HorizontalHits(g, b) + VerticalHits(g, b) <= 2 * VisibleLength(g, b)
    requires VisibleLength(g, b) > 0
    ensures Score(g, b) <= 1.0
    ensures Score(g, b) == 1.0 <==> HorizontalHits(g, b) + VerticalHits(g, b) == 2 * VisibleLength(g, b)
  {
    var n, v := (HorizontalHits(g, b) + VerticalHits(g, b)) as real / 2.0, VisibleLength(g, b) as real;
    assert Score(g, b) * v == n;
  }

  /** A wholly visible, fully marked rectangle passes both thresholds. */
  lemma TargetAdmissible(g: Grid, b: Box)
    requires g.Usable() && b.x1 - b.x0 >= 4 && b.y1 - b.y0 >= 4
    requires WhollyVisible(g, b) && FullyMarked(g, b)
    ensures Admissible(g, b)
    ensures VisibleLength(g, b) == Perimeter(b) && Score(g, b) == 1.0
  {
    VisibleAtMostPerimeter(g, b);
    ScoreAtMostOne(g, b);
    FullScore(g, b);
    FullHorizontal(g, b);
    var hh, vv, bw, bh := HorizontalHits(g, b), VerticalHits(g, b), b.x1 - b.x0, b.y1 - b.y0;
    assert hh == 4 * (bw + 1) && vv == 4 * (bh - 1);
  }

  lemma FullHorizontal(g: Grid, b: Box)
    requires g.Usable() && b.x0 < b.x1 && b.y0 < b.y1
    requires WhollyVisible(g, b) && FullyMarked(g, b)
    ensures HorizontalHits(g, b) == 4 * (b.x1 - b.x0 + 1)
  {
    HorizontalRuns(g, b);
    forall x | b.x0 <= x <= b.x1 ensures RowW(g, b.y0)(x) == 2 && RowW(g, b.y1)(x) == 2 {
      assert OnOutline(b, x, b.y0) && OnOutline(b, x, b.y1);
    }
    FullRun(RowW(g, b.y0), b.x0, b.x1 + 1);
    FullRun(RowW(g, b.y1), b.x0, b.x1 + 1);
  }

  lemma {:induction false} FullRun(f: int -> int, lo: int, hi: int)
    requires lo <= hi && forall i :: lo <= i < hi ==> f(i) == 2
    ensures Sum(f, lo, hi) == 2 * (hi - lo)
    decreases hi - lo
  {
    if lo < hi { FullRun(f, lo, hi - 1); }
  }

  /** The whole-minimap window contains every wholly visible placement, so the
    * full search recovers it wherever it is. */
  lemma FullWindowHasVisible(g: Grid, bw: int, bh: int, c: Corner)
    requires bw >= 4 && bh >= 4 && WhollyVisible(g, BoxAt(c, bw, bh))
    ensures SearchWindow(g.w, g.h, bw, bh, None, SEARCH_RADIUS).Has(c)
  {
  }
}
