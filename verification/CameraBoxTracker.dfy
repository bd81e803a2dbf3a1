/** Where the camera box is over time (src/services/camera-box.ts, CameraBoxTracker):
  * a search near the last box, a throttled search of the whole minimap, a hold
  * while neither finds it, and a size learnt from boxes read whole. */
module CameraBoxTracking {
  import opened Options
  import opened CameraBoxSearch

  const BOX_HOLD_MS := 1000
  const LOCAL_MIN_SCORE := 0.6
  const FULL_SEARCH_EVERY_MS := 100
  const SIZES_KEPT := 15
  const SIZES_NEEDED := 5

  datatype Size = Size(w: int, h: int)

  /** Nearest integer, halves up; the fraction's denominator is odd, so a half
    * never arises. */
  function RoundShare(side: nat, numerator: nat, denominator: nat): nat
    requires denominator > 0
  {
    (2 * side * numerator + denominator) / (2 * denominator)
  }

  function ExpectedBoxSize(side: nat): Size {
    Size(RoundShare(side, 85, 341), RoundShare(side, 47, 341))
  }

  // ---------- The learnt size ----------

  ghost predicate Sorted(s: seq<int>) {
    forall i, j | 0 <= i < j < |s| :: s[i] <= s[j]
  }

  function InsertSorted(x: int, s: seq<int>): (r: seq<int>)
    requires Sorted(s)
    ensures Sorted(r) && |r| == |s| + 1
    ensures forall y | y in r :: y == x || y in s
  {
    if s == [] then [x]
    else if x <= s[0] then [x] + s
    else
      var t := InsertSorted(x, s[1..]);
      assert forall y | y in s[1..] :: s[0] <= y by {
        forall y | y in s[1..] ensures s[0] <= y { var i :| 1 <= i < |s| && s[i] == y; }
      }
      assert forall j | 0 <= j < |t| :: t[j] in t && s[0] <= t[j];
      [s[0]] + t
  }

  function Sort(s: seq<int>): (r: seq<int>)
    ensures Sorted(r) && |r| == |s|
  {
    if s == [] then [] else InsertSorted(s[0], Sort(s[1..]))
  }

  function Median(s: seq<int>): int
    requires |s| > 0
  {
    Sort(s)[|s| / 2]
  }

  function CountIn(s: seq<int>, lo: int, hi: int): nat {
    if s == [] then 0 else (if lo <= s[0] <= hi then 1 else 0) + CountIn(s[1..], lo, hi)
  }

  lemma {:induction false} CountSplit(s: seq<int>, k: nat, lo: int, hi: int)
    requires k <= |s|
    ensures CountIn(s, lo, hi) == CountIn(s[..k], lo, hi) + CountIn(s[k..], lo, hi)
    decreases k
  {
    if k == 0 {
      assert s[..0] == [] && s[0..] == s;
    } else {
      CountSplit(s[1..], k - 1, lo, hi);
      assert s[..k][1..] == s[1..][..k - 1] && s[k..] == s[1..][k - 1..];
    }
  }

  lemma {:induction false} CountBound(s: seq<int>, lo: int, hi: int)
    ensures CountIn(s, lo, hi) <= |s|
  {
    if s != [] { CountBound(s[1..], lo, hi); }
  }

  lemma {:induction false} CountInsert(x: int, s: seq<int>, lo: int, hi: int)
    requires Sorted(s)
    ensures CountIn(InsertSorted(x, s), lo, hi) == (if lo <= x <= hi then 1 else 0) + CountIn(s, lo, hi)
  {
    if s != [] && x > s[0] {
      CountInsert(x, s[1..], lo, hi);
      assert InsertSorted(x, s)[1..] == InsertSorted(x, s[1..]);
    } else if s != [] {
      assert ([x] + s)[1..] == s;
    }
  }

  lemma {:induction false} CountSort(s: seq<int>, lo: int, hi: int)
    ensures CountIn(Sort(s), lo, hi) == CountIn(s, lo, hi)
  {
    if s != [] {
      CountSort(s[1..], lo, hi);
      CountInsert(s[0], Sort(s[1..]), lo, hi);
    }
  }

  /** A minority of misread boxes cannot move the median out of the range the
    * majority lies in. */
  lemma MedianResistsMinority(s: seq<int>, lo: int, hi: int)
    requires |s| > 0 && CountIn(s, lo, hi) > |s| / 2
    ensures lo <= Median(s) <= hi
  {
    CountSort(s, lo, hi);
    MajorityHasMiddle(Sort(s), lo, hi);
  }

  lemma MajorityHasMiddle(t: seq<int>, lo: int, hi: int)
    requires |t| > 0 && Sorted(t) && CountIn(t, lo, hi) > |t| / 2
    ensures lo <= t[|t| / 2] <= hi
  {
    var k := |t| / 2;
    if t[k] < lo {
      NoneIn(t[..k + 1], lo, hi);
      CountSplit(t, k + 1, lo, hi);
      CountBound(t[k + 1..], lo, hi);
    } else if t[k] > hi {
      NoneIn(t[k..], lo, hi);
      CountSplit(t, k, lo, hi);
      CountBound(t[..k], lo, hi);
    }
  }

  lemma {:induction false} NoneIn(s: seq<int>, lo: int, hi: int)
    requires (forall i | 0 <= i < |s| :: s[i] < lo) || (forall i | 0 <= i < |s| :: s[i] > hi)
    ensures CountIn(s, lo, hi) == 0
  {
    if s != [] { NoneIn(s[1..], lo, hi); }
  }

  function Widths(s: seq<Size>): seq<int> { seq(|s|, i requires 0 <= i < |s| => s[i].w) }
  function Heights(s: seq<Size>): seq<int> { seq(|s|, i requires 0 <= i < |s| => s[i].h) }

  // ---------- One frame ----------

  datatype TrackerState = TrackerState(
    last: Option<Box>, lastMs: Option<int>, sizes: seq<Size>, learnt: Option<Size>, lastFullMs: Option<int>)

  const INITIAL_TRACKER := TrackerState(None, None, [], None, None)

  function Abs(x: int): nat { if x < 0 then -x else x }

  /** The size searched for: the learnt one unless it is more than half off. */
  function SizeFor(s: TrackerState, side: nat): Size {
    var expected := ExpectedBoxSize(side);
    if s.learnt.Some? && 2 * Abs(s.learnt.value.w - expected.w) <= expected.w &&
       2 * Abs(s.learnt.value.h - expected.h) <= expected.h then s.learnt.value
    else expected
  }

  ghost predicate IsSearch(g: Grid, size: Size, near: Option<Corner>, r: Option<BoxResult>) {
    if Searchable(g, size.w, size.h)
    then IsFound(g, size.w, size.h, SearchWindow(g.w, g.h, size.w, size.h, near, SEARCH_RADIUS), r)
    else r == None
  }

  /** Where the box was last found, to look near. */
  function NearLast(s: TrackerState): Option<Corner> {
    if s.last.Some? then Some(Corner(s.last.value.x0, s.last.value.y0)) else None
  }

  predicate FullDue(s: TrackerState, nowMs: int) {
    s.lastFullMs.None? || nowMs - s.lastFullMs.value >= FULL_SEARCH_EVERY_MS
  }

  predicate Convincing(r: Option<BoxResult>) {
    r.Some? && r.value.score >= LOCAL_MIN_SCORE
  }

  /** Whether this frame searches the whole minimap. */
  predicate RunsFull(s: TrackerState, local: Option<BoxResult>, nowMs: int) {
    !(s.last.Some? && Convincing(local)) && FullDue(s, nowMs)
  }

  /** Each search that runs on this frame gives what it should. */
  ghost predicate SearchedRight(s: TrackerState, g: Grid, local: Option<BoxResult>, full: Option<BoxResult>,
      nowMs: int) {
    && g.w >= 0
    && (s.last.Some? ==> IsSearch(g, SizeFor(s, g.w), NearLast(s), local))
    && (RunsFull(s, local, nowMs) ==> IsSearch(g, SizeFor(s, g.w), None, full))
  }

  function FoundNow(s: TrackerState, local: Option<BoxResult>, full: Option<BoxResult>, nowMs: int): Option<BoxResult> {
    if s.last.Some? && Convincing(local) then local
    else if FullDue(s, nowMs) then full
    else None
  }

  /** The state after a frame whose searches give `local` and `full`. */
  function AfterFrame(s: TrackerState, local: Option<BoxResult>, full: Option<BoxResult>, nowMs: int): TrackerState {
    var found := FoundNow(s, local, full, nowMs);
    s.(last := if found.Some? then Some(found.value.box) else s.last,
       lastMs := if found.Some? then Some(nowMs) else s.lastMs,
       lastFullMs := if RunsFull(s, local, nowMs) then Some(nowMs) else s.lastFullMs)
  }

  /** What the frame reports. */
  function Reported(s: TrackerState, local: Option<BoxResult>, full: Option<BoxResult>, nowMs: int): Option<Box> {
    var found := FoundNow(s, local, full, nowMs);
    if found.Some? then Some(found.value.box)
    else if s.lastMs.Some? && nowMs - s.lastMs.value <= BOX_HOLD_MS then s.last
    else None
  }

  function AfterWholeBox(s: TrackerState, b: Box): TrackerState {
    var grown := s.sizes + [Size(b.x1 - b.x0, b.y1 - b.y0)];
    var kept := if |grown| > SIZES_KEPT then grown[1..] else grown;
    s.(sizes := kept,
       learnt := if |kept| >= SIZES_NEEDED then Some(Size(Median(Widths(kept)), Median(Heights(kept)))) else s.learnt)
  }

  /** A reset forgets where the box was, not how big it is. */
  function AfterReset(s: TrackerState): TrackerState {
    s.(last := None, lastMs := None, lastFullMs := None)
  }

  // ---------- Whole runs ----------

  /** One call: a frame with its mask and what its searches gave, a box read whole,
    * or a reset. */
  datatype Call =
    | Frame(g: Grid, local: Option<BoxResult>, full: Option<BoxResult>, nowMs: int)
    | Whole(box: Box)
    | Restart

  function After(s: TrackerState, c: Call): TrackerState {
    match c
    case Frame(_, local, full, nowMs) => AfterFrame(s, local, full, nowMs)
    case Whole(b) => AfterWholeBox(s, b)
    case Restart => AfterReset(s)
  }

  function Run(calls: seq<Call>): TrackerState {
    if calls == [] then INITIAL_TRACKER else After(Run(calls[..|calls| - 1]), calls[|calls| - 1])
  }

  lemma RunMore(calls: seq<Call>, c: Call)
    ensures Run(calls + [c]) == After(Run(calls), c)
  {
    assert (calls + [c])[..|calls|] == calls;
  }

  predicate FullAt(calls: seq<Call>, i: nat)
    requires i < |calls|
  {
    calls[i].Frame? && RunsFull(Run(calls[..i]), calls[i].local, calls[i].nowMs)
  }

  predicate FoundAt(calls: seq<Call>, i: nat, b: Box)
    requires i < |calls|
  {
    calls[i].Frame? &&
    var f := FoundNow(Run(calls[..i]), calls[i].local, calls[i].full, calls[i].nowMs);
    f.Some? && f.value.box == b
  }

  lemma SamePrefix(calls: seq<Call>, n: nat)
    requires n <= |calls|
    ensures forall i | 0 <= i < n :: FullAt(calls[..n], i) == FullAt(calls, i)
    ensures forall i, b | 0 <= i < n :: FoundAt(calls[..n], i, b) == FoundAt(calls, i, b)
  {
    forall i | 0 <= i < n ensures calls[..n][..i] == calls[..i] && calls[..n][i] == calls[i] {}
  }

  /** No reset after the i-th call and before the k-th. */
  ghost predicate NoRestart(calls: seq<Call>, i: nat, k: nat)
    requires k <= |calls|
  {
    forall j | i < j < k :: !calls[j].Restart?
  }

  // ---------- What a frame does, exactly ----------

  /** The frame found the box, near or by a full search. */
  predicate FindsAt(calls: seq<Call>, i: nat)
    requires i < |calls|
  {
    calls[i].Frame? && FoundNow(Run(calls[..i]), calls[i].local, calls[i].full, calls[i].nowMs).Some?
  }

  /** The latest full search before call k, with no reset since. */
  ghost predicate NewestFull(calls: seq<Call>, i: nat, k: nat)
    requires k <= |calls|
  {
    i < k && FullAt(calls, i) && NoRestart(calls, i, k) && forall j | i < j < k :: !FullAt(calls, j)
  }

  /** The latest frame before call k that found the box, with no reset since. */
  ghost predicate NewestFind(calls: seq<Call>, i: nat, k: nat)
    requires k <= |calls|
  {
    i < k && FindsAt(calls, i) && NoRestart(calls, i, k) && forall j | i < j < k :: !FindsAt(calls, j)
  }

  lemma NewestMore(rest: seq<Call>, c: Call, i: nat)
    ensures var calls, n := rest + [c], |rest|;
            && (NewestFull(calls, i, n + 1) <==>
                  if i == n then FullAt(calls, n)
                  else NewestFull(rest, i, n) && !FullAt(calls, n) && !c.Restart?)
            && (NewestFind(calls, i, n + 1) <==>
                  if i == n then FindsAt(calls, n)
                  else NewestFind(rest, i, n) && !FindsAt(calls, n) && !c.Restart?)
  {
    var calls, n := rest + [c], |rest|;
    assert calls[..n] == rest;
    forall j: nat | j < n ensures FullAt(calls, j) == FullAt(rest, j) && FindsAt(calls, j) == FindsAt(rest, j) {
      assert calls[..j] == rest[..j];
    }
    hide FullAt, FindsAt;
    assert i < n ==> (NoRestart(calls, i, n + 1) <==> NoRestart(rest, i, n) && !calls[n].Restart?);
  }

  ghost predicate ClockIs(calls: seq<Call>, i: nat, clock: Option<int>)
    requires i < |calls|
  {
    calls[i].Frame? && clock == Some(calls[i].nowMs)
  }

  ghost predicate FullClockOk(calls: seq<Call>) {
    && (Run(calls).lastFullMs.Some? ==> exists i: nat :: NewestFull(calls, i, |calls|))
    && (forall i: nat | NewestFull(calls, i, |calls|) :: ClockIs(calls, i, Run(calls).lastFullMs))
  }

  ghost predicate FindClockOk(calls: seq<Call>) {
    && (Run(calls).lastMs.Some? ==> exists i: nat :: NewestFind(calls, i, |calls|))
    && (forall i: nat | NewestFind(calls, i, |calls|) :: FindIs(calls, i, Run(calls)))
  }

  ghost predicate FindIs(calls: seq<Call>, i: nat, s: TrackerState)
    requires i < |calls|
  {
    ClockIs(calls, i, s.lastMs) && s.last.Some? && FoundAt(calls, i, s.last.value)
  }

  /** The tracker's two clocks are the times of the latest full search and of the
    * latest find. */
  lemma {:induction false} ClocksAre(calls: seq<Call>)
    ensures FullClockOk(calls) && FindClockOk(calls) && (Run(calls).last.Some? <==> Run(calls).lastMs.Some?)
  {
    if calls != [] {
      var n := |calls| - 1;
      var rest, c := calls[..n], calls[n];
      assert calls == rest + [c];
      ClocksAre(rest);
      FullClockStep(rest, c);
      FindClockStep(rest, c);
      ClocksStep(rest, c);
    }
  }

  lemma FullClockStep(rest: seq<Call>, c: Call)
    requires FullClockOk(rest)
    ensures FullClockOk(rest + [c])
  {
    var calls, n := rest + [c], |rest|;
    forall i: nat { NewestMore(rest, c, i); }
    ClocksStep(rest, c);
    assert FullAt(calls, n) ==> c.Frame? && NewestFull(calls, n, n + 1);
    hide FullAt, FindsAt, FoundAt, NewestFull, NewestFind;
    if !FullAt(calls, n) && !c.Restart? && Run(rest).lastFullMs.Some? {
      var i: nat :| NewestFull(rest, i, n);
      assert NewestFull(calls, i, n + 1);
    }
    forall i: nat | NewestFull(calls, i, n + 1) ensures ClockIs(calls, i, Run(calls).lastFullMs) {
      if i < n { assert NewestFull(rest, i, n) && ClockIs(rest, i, Run(rest).lastFullMs); }
    }
  }

  lemma FindClockStep(rest: seq<Call>, c: Call)
    requires FindClockOk(rest)
    ensures FindClockOk(rest + [c])
  {
    var calls, n := rest + [c], |rest|;
    forall i: nat { NewestMore(rest, c, i); }
    ClocksStep(rest, c);
    assert calls[..n] == rest;
    SamePrefix(calls, n);
    assert FindsAt(calls, n) ==> c.Frame? && NewestFind(calls, n, n + 1);
    hide FullAt, FindsAt, FoundAt, NewestFull, NewestFind;
    if !FindsAt(calls, n) && !c.Restart? && Run(rest).lastMs.Some? {
      var i: nat :| NewestFind(rest, i, n);
      assert NewestFind(calls, i, n + 1);
    }
    forall i: nat | NewestFind(calls, i, n + 1) ensures FindIs(calls, i, Run(calls)) {
      if i < n { assert NewestFind(rest, i, n) && FindIs(rest, i, Run(rest)); }
    }
  }

  lemma ClocksStep(rest: seq<Call>, c: Call)
    ensures var calls, n, s, t := rest + [c], |rest|, Run(rest), Run(rest + [c]);
            && t.lastFullMs == (if FullAt(calls, n) then Some(c.nowMs) else if c.Restart? then None else s.lastFullMs)
            && t.lastMs == (if FindsAt(calls, n) then Some(c.nowMs) else if c.Restart? then None else s.lastMs)
            && (FindsAt(calls, n) ==> t.last.Some? && FoundAt(calls, n, t.last.value))
            && (!FindsAt(calls, n) ==> t.last == if c.Restart? then None else s.last)
  {
    assert (rest + [c])[..|rest|] == rest;
  }

  /** The search near the box last found came up with one well drawn. */
  ghost predicate FoundNear(calls: seq<Call>, k: nat)
    requires k < |calls|
  {
    && (exists i: nat :: NewestFind(calls, i, k))
    && calls[k].Frame? && calls[k].local.Some? && calls[k].local.value.score >= 0.6
  }

  lemma NewestBefore(calls: seq<Call>, i: nat, k: nat)
    requires k < |calls|
    ensures NewestFull(calls[..k], i, k) == NewestFull(calls, i, k)
    ensures NewestFind(calls[..k], i, k) == NewestFind(calls, i, k)
  {
    var pre := calls[..k];
    forall j: nat | j < k ensures FullAt(pre, j) == FullAt(calls, j) && FindsAt(pre, j) == FindsAt(calls, j) {
      assert pre[..j] == calls[..j];
    }
  }

  lemma MemoryAt(calls: seq<Call>, k: nat)
    requires k < |calls|
    ensures var s := Run(calls[..k]);
            && (s.last.Some? <==> exists i: nat :: NewestFind(calls, i, k))
            && (s.last.Some? <==> s.lastMs.Some?)
            && (s.lastFullMs.Some? <==> exists i: nat :: NewestFull(calls, i, k))
            && (forall i: nat | NewestFull(calls, i, k) :: ClockIs(calls, i, s.lastFullMs))
            && (forall i: nat | NewestFind(calls, i, k) :: FindIs(calls, i, s))
  {
    ClocksAre(calls[..k]);
    forall i: nat { NewestBefore(calls, i, k); }
    SamePrefix(calls, k);
  }

  /** Exactly what a frame of any run does: the whole minimap is searched when the
    * search near the box last found gives nothing of 0.6 or more and the latest full
    * search is 100 ms back; the near find is taken first; and what is not found is
    * reported for 1000 ms after the latest find. */
  lemma FrameExactly(calls: seq<Call>, k: nat, b: Box)
    requires k < |calls| && calls[k].Frame?
    ensures FullAt(calls, k) <==>
            !FoundNear(calls, k) && forall i: nat | NewestFull(calls, i, k) :: calls[k].nowMs - calls[i].nowMs >= 100
    ensures FoundAt(calls, k, b) <==>
            if FoundNear(calls, k) then calls[k].local.value.box == b
            else FullAt(calls, k) && calls[k].full.Some? && calls[k].full.value.box == b
    ensures Reported(Run(calls[..k]), calls[k].local, calls[k].full, calls[k].nowMs) == Some(b) <==>
            || FoundAt(calls, k, b)
            || (!FindsAt(calls, k) && exists i: nat :: NewestFind(calls, i, k) && FoundAt(calls, i, b) &&
                                                      calls[k].nowMs - calls[i].nowMs <= 1000)
  {
    MemoryAt(calls, k);
    hide Run, NewestFind, NewestFull;
  }

  /** Over any run, whatever the clock does, consecutive whole-minimap searches
    * with no reset between them are at least 100 ms apart. */
  lemma FullSearchesSpaced(calls: seq<Call>, i: nat, k: nat)
    requires i < k < |calls| && FullAt(calls, i) && FullAt(calls, k) && NoRestart(calls, i, k)
    requires forall j | i < j < k :: !FullAt(calls, j)
    ensures calls[k].nowMs - calls[i].nowMs >= 100
  {
    assert NewestFull(calls, i, k);
    MemoryAt(calls, k);
  }

  /** Over any run, a box reported was found on this frame, or on an earlier one
    * at most 1000 ms before with no reset since. */
  lemma ReportedWasFound(calls: seq<Call>, k: nat)
    requires k < |calls| && calls[k].Frame?
    requires Reported(Run(calls[..k]), calls[k].local, calls[k].full, calls[k].nowMs).Some?
    ensures var b := Reported(Run(calls[..k]), calls[k].local, calls[k].full, calls[k].nowMs).value;
            exists i :: 0 <= i <= k && FoundAt(calls, i, b) && NoRestart(calls, i, k) &&
                        (i == k || calls[k].nowMs - calls[i].nowMs <= 1000)
  {
    FrameExactly(calls, k, Reported(Run(calls[..k]), calls[k].local, calls[k].full, calls[k].nowMs).value);
  }

  // ---------- What is reported over a run ----------

  ghost predicate SearchedAt(calls: seq<Call>, k: nat)
    requires k < |calls|
  {
    var c := calls[k];
    c.Frame? ==> SearchedRight(Run(calls[..k]), c.g, c.local, c.full, c.nowMs)
  }

  /** On every frame of the run each search gave what it should. */
  ghost predicate Searched(calls: seq<Call>) {
    forall k: nat {:trigger SearchedAt(calls, k)} | k < |calls| :: SearchedAt(calls, k)
  }

  lemma SearchedMore(calls: seq<Call>, c: Call)
    requires Searched(calls)
    requires c.Frame? ==> SearchedRight(Run(calls), c.g, c.local, c.full, c.nowMs)
    ensures Searched(calls + [c])
  {
    hide SearchedRight;
    var more := calls + [c];
    forall k: nat | k < |more| ensures SearchedAt(more, k) {
      assert more[..k] == calls[..k];
      if k < |calls| { assert SearchedAt(calls, k); } else { assert calls[..k] == calls; }
    }
  }

  /** A box of the size looked for, read off this mask: enough of its outline is on
    * the minimap and marked, and no box tried, near the last one or everywhere, beats
    * it. */
  ghost predicate ReadOff(g: Grid, size: Size, near: Option<Corner>, b: Box) {
    && Searchable(g, size.w, size.h)
    && b == BoxAt(Corner(b.x0, b.y0), size.w, size.h) && Admissible(g, b) && Score(g, b) >= 0.4
    && IsFound(g, size.w, size.h, SearchWindow(g.w, g.h, size.w, size.h, near, SEARCH_RADIUS), Some(ResultAt(g, b)))
  }

  /** A box found on a frame was read off that frame's mask. */
  ghost predicate ReadAt(calls: seq<Call>, i: nat, b: Box)
    requires i < |calls|
  {
    calls[i].Frame? && calls[i].g.w >= 0 &&
    var s, g := Run(calls[..i]), calls[i].g;
    ReadOff(g, SizeFor(s, g.w), None, b) || (s.last.Some? && ReadOff(g, SizeFor(s, g.w), NearLast(s), b))
  }

  lemma SearchReads(g: Grid, size: Size, near: Option<Corner>, r: BoxResult)
    requires IsSearch(g, size, near, Some(r))
    ensures ReadOff(g, size, near, r.box)
  {
  }

  lemma FoundWasRead(calls: seq<Call>, i: nat, b: Box)
    requires Searched(calls) && i < |calls| && FoundAt(calls, i, b)
    ensures ReadAt(calls, i, b)
  {
    assert SearchedAt(calls, i);
    hide IsSearch, ReadOff, SizeFor;
    var s, c := Run(calls[..i]), calls[i];
    if s.last.Some? && Convincing(c.local) {
      SearchReads(c.g, SizeFor(s, c.g.w), NearLast(s), c.local.value);
    } else {
      SearchReads(c.g, SizeFor(s, c.g.w), None, c.full.value);
    }
  }

  /** Over any run, every box reported was read off the mask of this frame, or of one
    * at most 1000 ms before with no reset since. */
  lemma ReportedWasRead(calls: seq<Call>, k: nat)
    requires Searched(calls) && k < |calls| && calls[k].Frame?
    requires Reported(Run(calls[..k]), calls[k].local, calls[k].full, calls[k].nowMs).Some?
    ensures var b := Reported(Run(calls[..k]), calls[k].local, calls[k].full, calls[k].nowMs).value;
            exists i: nat :: i <= k && ReadAt(calls, i, b) && NoRestart(calls, i, k) &&
                        (i == k || calls[k].nowMs - calls[i].nowMs <= 1000)
  {
    hide Reported, ReadAt;
    ReportedWasFound(calls, k);
    var b := Reported(Run(calls[..k]), calls[k].local, calls[k].full, calls[k].nowMs).value;
    var i :| 0 <= i <= k && FoundAt(calls, i, b) && NoRestart(calls, i, k) &&
             (i == k || calls[k].nowMs - calls[i].nowMs <= BOX_HOLD_MS);
    FoundWasRead(calls, i, b);
  }

  // ---------- The size learnt over a run ----------

  /** The sizes of all boxes read whole, in order. */
  function WholeSizes(calls: seq<Call>): seq<Size> {
    if calls == [] then []
    else
      var c := calls[|calls| - 1];
      WholeSizes(calls[..|calls| - 1]) + (if c.Whole? then [Size(c.box.x1 - c.box.x0, c.box.y1 - c.box.y0)] else [])
  }

  /** The last 15 of a list. */
  function Latest(sizes: seq<Size>): (r: seq<Size>)
    ensures |r| == if |sizes| > 15 then 15 else |sizes|
  {
    if |sizes| > 15 then sizes[|sizes| - 15..] else sizes
  }

  lemma LatestMore(sizes: seq<Size>, x: Size)
    ensures var grown := Latest(sizes) + [x]; Latest(sizes + [x]) == if |grown| > SIZES_KEPT then grown[1..] else grown
  {
    var grown := Latest(sizes) + [x];
    if |grown| > SIZES_KEPT { assert grown[1..] == (sizes + [x])[|sizes| + 1 - SIZES_KEPT..]; }
  }

  /** The size learnt from the boxes kept. */
  function LearntFrom(kept: seq<Size>): Option<Size> {
    if |kept| < 5 then None else Some(Size(Median(Widths(kept)), Median(Heights(kept))))
  }

  /** Over any run, resets included, the sizes kept are those of the last 15
    * boxes read whole, and the size learnt is their median from five on. */
  lemma {:induction false} LearntIsTheMedian(calls: seq<Call>)
    ensures Run(calls).sizes == Latest(WholeSizes(calls))
    ensures Run(calls).learnt == LearntFrom(Run(calls).sizes)
  {
    hide Median, Latest, Widths, Heights;
    if calls != [] {
      var rest, c := calls[..|calls| - 1], calls[|calls| - 1];
      LearntIsTheMedian(rest);
      if c.Whole? {
        var x := Size(c.box.x1 - c.box.x0, c.box.y1 - c.box.y0);
        LatestMore(WholeSizes(rest), x);
        assert Run(calls).sizes == Latest(WholeSizes(rest) + [x]);
        assert WholeSizes(calls) == WholeSizes(rest) + [x];
      } else {
        assert WholeSizes(calls) == WholeSizes(rest);
      }
    }
  }

  /** Over any run, a minority of misread boxes cannot move the learnt width or
    * height out of the range the majority of the last 15 lies in. */
  lemma LearntResistsMinority(calls: seq<Call>, lo: int, hi: int)
    requires Run(calls).learnt.Some?
    ensures var kept, learnt := Latest(WholeSizes(calls)), Run(calls).learnt.value;
            && (2 * CountIn(Widths(kept), lo, hi) > |kept| ==> lo <= learnt.w <= hi)
            && (2 * CountIn(Heights(kept), lo, hi) > |kept| ==> lo <= learnt.h <= hi)
  {
    LearntIsTheMedian(calls);
    var kept := Latest(WholeSizes(calls));
    if 2 * CountIn(Widths(kept), lo, hi) > |kept| { MedianResistsMinority(Widths(kept), lo, hi); }
    if 2 * CountIn(Heights(kept), lo, hi) > |kept| { MedianResistsMinority(Heights(kept), lo, hi); }
  }

  // ---------- The tracker ----------

  class CameraBoxTracker {
    var last: Option<Box>
    var lastMs: Option<int>
    var sizes: seq<Size>
    var learnt: Option<Size>
    var lastFullMs: Option<int>

    /** Every call so far. */
    ghost var Calls: seq<Call>

    ghost function State(): TrackerState
      reads this
    {
      TrackerState(last, lastMs, sizes, learnt, lastFullMs)
    }

    /** The fields hold what the calls so far make of them, and every search so far
      * gave what it should. */
    ghost predicate Valid()
      reads this
    {
      State() == Run(Calls) && Searched(Calls)
    }

    constructor ()
      ensures Valid() && Calls == []
    {
      last, lastMs, sizes, learnt, lastFullMs, Calls := None, None, [], None, None, [];
    }

    /** The searches this frame runs, and what they yield. */
    method Look(g: Grid, nowMs: int) returns (found: Option<BoxResult>, ghost local: Option<BoxResult>,
        ghost full: Option<BoxResult>)
      requires g.w >= 0
      modifies `lastFullMs
      ensures SearchedRight(old(State()), g, local, full, nowMs) && found == FoundNow(old(State()), local, full, nowMs)
      ensures lastFullMs == if RunsFull(old(State()), local, nowMs) then Some(nowMs) else old(lastFullMs)
    {
      var size := CurrentSize(g.w);
      hide IsFound, SearchWindow, SizeFor;
      local, full, found := None, None, None;
      if last.Some? {
        var near := FindCameraBox(g, size.w, size.h, Some(Corner(last.value.x0, last.value.y0)), SEARCH_RADIUS);
        local := near;
        if near.Some? && near.value.score >= LOCAL_MIN_SCORE { found := near; }
      }
      if found.None? && (lastFullMs.None? || nowMs - lastFullMs.value >= FULL_SEARCH_EVERY_MS) {
        lastFullMs := Some(nowMs);
        found := FindCameraBox(g, size.w, size.h, None, SEARCH_RADIUS);
        full := found;
      }
    }

    /** `local` and `full` are what the two searches yield on this frame; each
      * that runs is the specified search. */
    method Update(g: Grid, nowMs: int) returns (r: Option<Box>, ghost local: Option<BoxResult>,
        ghost full: Option<BoxResult>)
      requires Valid() && g.w >= 0
      modifies this
      ensures Valid() && Calls == old(Calls) + [Frame(g, local, full, nowMs)]
      ensures r == Reported(old(State()), local, full, nowMs)
      ensures SearchedRight(old(State()), g, local, full, nowMs)
    {
      hide SearchedRight, Searched;
      ghost var before := State();
      var found;
      found, local, full := Look(g, nowMs);
      if found.Some? {
        last, lastMs := Some(found.value.box), Some(nowMs);
      }
      assert State() == AfterFrame(before, local, full, nowMs);
      RunMore(Calls, Frame(g, local, full, nowMs));
      SearchedMore(Calls, Frame(g, local, full, nowMs));
      Calls := Calls + [Frame(g, local, full, nowMs)];
      if found.Some? { return Some(found.value.box), local, full; }
      r := if lastMs.Some? && nowMs - lastMs.value <= BOX_HOLD_MS then last else None;
    }

    method CurrentSize(side: nat) returns (r: Size)
      ensures r == SizeFor(State(), side)
    {
      r := ExpectedBoxSize(side);
      if learnt.Some? && Abs(learnt.value.w - r.w) as real <= r.w as real * 0.5 &&
         Abs(learnt.value.h - r.h) as real <= r.h as real * 0.5 {
        r := learnt.value;
      }
    }

    /** Teaches the size: the median of the last 15 boxes read whole, from five on. */
    method NoteWholeBox(b: Box)
      requires Valid()
      modifies this
      ensures Valid() && Calls == old(Calls) + [Whole(b)]
      ensures sizes == Latest(WholeSizes(Calls))
      ensures learnt == LearntFrom(sizes)
    {
      hide Median;
      ghost var before := State();
      sizes := sizes + [Size(b.x1 - b.x0, b.y1 - b.y0)];
      if |sizes| > SIZES_KEPT { sizes := sizes[1..]; }
      if |sizes| >= SIZES_NEEDED {
        learnt := Some(Size(Median(Widths(sizes)), Median(Heights(sizes))));
      }
      assert State() == AfterWholeBox(before, b);
      RunMore(Calls, Whole(b));
      SearchedMore(Calls, Whole(b));
      Calls := Calls + [Whole(b)];
      LearntIsTheMedian(Calls);
    }

    method Reset()
      requires Valid()
      modifies this
      ensures Valid() && Calls == old(Calls) + [Restart]
    {
      last, lastMs, lastFullMs := None, None, None;
      RunMore(Calls, Restart);
      SearchedMore(Calls, Restart);
      Calls := Calls + [Restart];
    }
  }
}
