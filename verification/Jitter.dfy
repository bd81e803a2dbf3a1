/** The jitter buffer: chunks of samples come in, device callbacks take them out
  * (src-tauri/src/audio_out.rs). Samples are exact reals. */
module JitterBuffer {
  const TARGET_MS := 40
  const MAX_MS := 250

  /** The buffer's whole state. */
  datatype Held = Held(buf: seq<real>, target: nat, max: nat, playing: bool, underruns: nat, dropped: nat)

  function Min(a: nat, b: nat): nat { if a <= b then a else b }

  function Silence(n: nat): seq<real> { seq(n, _ => 0.0) }

  function AfterPush(s: Held, samples: seq<real>): Held
    requires s.target <= s.max
  {
    var all := s.buf + samples;
    if |all| > s.max
    then s.(buf := all[|all| - s.target..], dropped := s.dropped + (|all| - s.target))
    else s.(buf := all)
  }

  /** Too little is held to start playing. */
  predicate Waits(s: Held) { !s.playing && |s.buf| < s.target }

  /** Samples skipped by this callback. */
  function Trim(s: Held, n: nat): (d: nat)
    ensures d <= |s.buf|
  {
    if !Waits(s) && |s.buf| > s.target * 2 + n then 1 else 0
  }

  /** Samples played by this callback. */
  function Taken(s: Held, n: nat): (t: nat)
    ensures Trim(s, n) + t <= |s.buf| && t <= n
  {
    if Waits(s) then 0 else Min(n, |s.buf| - Trim(s, n))
  }

  function AfterPull(s: Held, n: nat): Held {
    if Waits(s) then s
    else
      var d, t := Trim(s, n), Taken(s, n);
      Held(s.buf[d + t..], s.target, s.max, t == n, s.underruns + (if t == n then 0 else 1), s.dropped + d)
  }

  /** What the device gets: the samples played, then silence. */
  function Output(s: Held, n: nat): seq<real> {
    s.buf[Trim(s, n)..Trim(s, n) + Taken(s, n)] + Silence(n - Taken(s, n))
  }

  /** A pull is a skip, then playing from the front of what is left. */
  lemma PullPieces(s: Held, n: nat)
    requires !Waits(s)
    ensures var left := s.buf[Trim(s, n)..];
            var t := Min(n, |left|);
            && t == Taken(s, n)
            && AfterPull(s, n).buf == left[t..]
            && Output(s, n) == left[..t] + Silence(n - t)
  {
    var d, t := Trim(s, n), Taken(s, n);
    assert s.buf[d..][t..] == s.buf[d + t..] && s.buf[d..][..t] == s.buf[d..d + t];
  }

  class Jitter {
    var buf: seq<real>
    const target: nat
    const max: nat
    var playing: bool
    var underruns: nat
    var dropped: nat

    ghost predicate Valid()
      reads this
    {
      target <= max && |buf| <= max
    }

    ghost function State(): Held
      reads this
    {
      Held(buf, target, max, playing, underruns, dropped)
    }

    constructor (sampleRate: nat)
      ensures Valid()
      ensures State() == Held([], sampleRate / 1000 * TARGET_MS, sampleRate / 1000 * MAX_MS, false, 0, 0)
    {
      var perMs := sampleRate / 1000;
      buf, playing, underruns, dropped := [], false, 0, 0;
      target := perMs * TARGET_MS;
      max := perMs * MAX_MS;
    }

    method Push(samples: seq<real>)
      requires Valid()
      modifies this
      ensures Valid() && State() == AfterPush(old(State()), samples)
    {
      buf := buf + samples;
      if |buf| > max {
        var extra := |buf| - target;
        buf := buf[extra..];
        dropped := dropped + extra;
      }
    }

    method Pull(out: array<real>)
      requires Valid()
      modifies this, out
      ensures Valid() && State() == AfterPull(old(State()), out.Length)
      ensures out[..] == Output(old(State()), out.Length)
    {
      if !playing {
        if |buf| < target {
          forall k | 0 <= k < out.Length { out[k] := 0.0; }
          assert out[..] == Silence(out.Length);
          return;
        }
        playing := true;
      }
      SkipOne(out.Length);
      Drain(out);
      PullPieces(old(State()), out.Length);
    }

    /** Drops the oldest sample if more than the callback and two targets are held. */
    method SkipOne(n: nat)
      modifies `buf, `dropped
      ensures var d := if |old(buf)| > target * 2 + n then 1 else 0;
              buf == old(buf)[d..] && dropped == old(dropped) + d
    {
      if |buf| > target * 2 + n {
        buf := buf[1..];
        dropped := dropped + 1;
      }
    }

    /** Plays from the front until the callback is filled or the buffer is dry. */
    method Drain(out: array<real>)
      requires playing
      modifies `buf, `playing, `underruns, out
      ensures var queue, t := old(buf), Min(out.Length, |old(buf)|);
              buf == queue[t..] && out[..] == queue[..t] + Silence(out.Length - t) &&
              playing == (t == out.Length) && underruns == old(underruns) + (if t == out.Length then 0 else 1)
    {
      ghost var queue := buf;
      var i := 0;
      while i < out.Length
        invariant 0 <= i <= out.Length && i <= |queue|
        invariant buf == queue[i..] && out[..i] == queue[..i]
        invariant playing && underruns == old(underruns)
      {
        if buf == [] {
          forall k | i <= k < out.Length { out[k] := 0.0; }
          playing := false;
          underruns := underruns + 1;
          assert out[..] == queue[..i] + Silence(out.Length - i);
          return;
        }
        out[i] := buf[0];
        buf := buf[1..];
        i := i + 1;
      }
      assert out[..] == queue[..i] + Silence(0);
    }

    method Clear()
      requires Valid()
      modifies this
      ensures Valid() && State() == old(State()).(buf := [], playing := false)
    {
      buf := [];
      playing := false;
    }
  }

  // ---------- Between two clears ----------

  datatype Event = Push(samples: seq<real>) | Pull(n: nat)

  /** As the buffer starts, and as a clear leaves it. */
  predicate Cleared(s: Held) { s.buf == [] && !s.playing && s.target <= s.max }

  function After(s: Held, e: Event): Held
    requires s.target <= s.max
  {
    match e
    case Push(samples) => AfterPush(s, samples)
    case Pull(n) => AfterPull(s, n)
  }

  function Run(s: Held, es: seq<Event>): (r: Held)
    requires s.target <= s.max
    ensures r.target == s.target && r.max == s.max
  {
    if es == [] then s else After(Run(s, es[..|es| - 1]), es[|es| - 1])
  }

  /** Every sample pushed, in order. */
  function Pushed(es: seq<Event>): seq<real> {
    if es == [] then []
    else Pushed(es[..|es| - 1]) + (if es[|es| - 1].Push? then es[|es| - 1].samples else [])
  }

  /** Every sample played (silence left out), in order. */
  function Played(s: Held, es: seq<Event>): seq<real>
    requires s.target <= s.max
  {
    if es == [] then []
    else
      var before, e := Run(s, es[..|es| - 1]), es[|es| - 1];
      Played(s, es[..|es| - 1]) +
      (if e.Pull? then before.buf[Trim(before, e.n)..Trim(before, e.n) + Taken(before, e.n)] else [])
  }

  /** `at` picks `picked` out of `from`, in order. */
  ghost predicate Picks(from: seq<real>, picked: seq<real>, at: seq<nat>) {
    && |at| == |picked|
    && (forall i | 0 <= i < |at| :: at[i] < |from| && from[at[i]] == picked[i])
    && (forall i, j | 0 <= i < j < |at| :: at[i] < at[j])
  }

  lemma PicksMore(from: seq<real>, picked: seq<real>, at: seq<nat>, more: seq<real>, start: nat)
    requires Picks(from, picked, at) && forall i | 0 <= i < |at| :: at[i] < start
    requires start + |more| <= |from| && from[start..start + |more|] == more
    ensures Picks(from, picked + more, at + seq(|more|, i requires 0 <= i < |more| => start + i))
  {
    forall i | 0 <= i < |more| ensures from[start + i] == more[i] {
      assert from[start..start + |more|][i] == more[i];
    }
  }

  lemma PicksLonger(from: seq<real>, extra: seq<real>, picked: seq<real>, at: seq<nat>)
    requires Picks(from, picked, at)
    ensures Picks(from + extra, picked, at)
  {
  }

  /** The buffer is exactly the newest samples pushed; what was played is an
    * in-order selection of what was pushed before them; nothing is lost
    * uncounted; no more than `max` is held. */
  ghost predicate Refines(r: Held, all: seq<real>, played: seq<real>, at: seq<nat>, lost: int) {
    && r.target <= r.max && |r.buf| <= r.max
    && |r.buf| <= |all| && r.buf == all[|all| - |r.buf|..]
    && Picks(all, played, at)
    && (forall i | 0 <= i < |at| :: at[i] < |all| - |r.buf|)
    && |all| == |played| + lost + |r.buf|
  }

  lemma PushRefines(r: Held, all: seq<real>, played: seq<real>, at: seq<nat>, lost: int, xs: seq<real>)
    requires Refines(r, all, played, at, lost)
    ensures Refines(AfterPush(r, xs), all + xs, played, at, lost + AfterPush(r, xs).dropped - r.dropped)
  {
    PicksLonger(all, xs, played, at);
    assert r.buf + xs == (all + xs)[|all| - |r.buf|..];
  }

  lemma SliceOfSuffix(all: seq<real>, b: seq<real>, d: nat, t: nat)
    requires |b| <= |all| && b == all[|all| - |b|..] && d + t <= |b|
    ensures all[|all| - |b| + d..|all| - |b| + d + t] == b[d..d + t]
  {
    var slice, part := all[|all| - |b| + d..|all| - |b| + d + t], b[d..d + t];
    assert forall i | 0 <= i < t :: slice[i] == part[i];
  }

  lemma PullRefines(r: Held, all: seq<real>, played: seq<real>, at: seq<nat>, lost: int, n: nat) returns (at': seq<nat>)
    requires Refines(r, all, played, at, lost)
    ensures var d, t := Trim(r, n), Taken(r, n);
            Refines(AfterPull(r, n), all, played + r.buf[d..d + t], at', lost + AfterPull(r, n).dropped - r.dropped)
  {
    var d, t := Trim(r, n), Taken(r, n);
    var more, start := r.buf[d..d + t], |all| - |r.buf| + d;
    SliceOfSuffix(all, r.buf, d, t);
    PicksMore(all, played, at, more, start);
    at' := at + seq(|more|, i requires 0 <= i < |more| => start + i);
    PullKeepsNewest(r, all, n);
  }

  lemma PullKeepsNewest(r: Held, all: seq<real>, n: nat)
    requires |r.buf| <= |all| && r.buf == all[|all| - |r.buf|..]
    ensures var d, t, b := Trim(r, n), Taken(r, n), AfterPull(r, n).buf;
            |b| == |r.buf| - d - t && b == all[|all| - |b|..]
  {
  }

  /** The stream refinement between clears, over any pushes and pulls. */
  lemma {:induction false} StreamRefinement(s: Held, es: seq<Event>) returns (at: seq<nat>)
    requires Cleared(s)
    ensures Refines(Run(s, es), Pushed(es), Played(s, es), at, Run(s, es).dropped - s.dropped)
  {
    if es == [] {
      at := [];
    } else {
      var rest, e := es[..|es| - 1], es[|es| - 1];
      at := StreamRefinement(s, rest);
      var r, all, played := Run(s, rest), Pushed(rest), Played(s, rest);
      var lost := r.dropped - s.dropped;
      match e {
        case Push(xs) =>
          PushRefines(r, all, played, at, lost, xs);
          assert Played(s, es) == played;
        case Pull(n) =>
          at := PullRefines(r, all, played, at, lost, n);
          assert Pushed(es) == all;
      }
    }
  }

  // ---------- When it plays ----------

  /** A pull that finds the target held. */
  predicate FindsTarget(s: Held, es: seq<Event>, k: nat)
    requires k < |es| && s.target <= s.max
  {
    es[k].Pull? && |Run(s, es[..k]).buf| >= s.target
  }

  /** A pull that asks for more than is held. */
  predicate RunsDry(s: Held, es: seq<Event>, k: nat)
    requires k < |es| && s.target <= s.max
  {
    es[k].Pull? && |Run(s, es[..k]).buf| < es[k].n
  }

  /** A pull found the target held, and from that one on none has run dry. */
  ghost predicate Started(s: Held, es: seq<Event>)
    requires s.target <= s.max
  {
    exists j: nat | j < |es| ::
      FindsTarget(s, es, j) && forall k | j <= k < |es| :: !RunsDry(s, es, k)
  }

  lemma StartedStep(s: Held, es: seq<Event>, e: Event)
    requires s.target <= s.max
    ensures Started(s, es + [e]) <==>
            (Started(s, es) || FindsTarget(s, es + [e], |es|)) && !RunsDry(s, es + [e], |es|)
  {
    var all, n := es + [e], |es|;
    hide Run;
    forall k: nat | k < n
      ensures FindsTarget(s, all, k) == FindsTarget(s, es, k) && RunsDry(s, all, k) == RunsDry(s, es, k)
    {
      assert all[..k] == es[..k];
    }
    if Started(s, es) && !RunsDry(s, all, n) {
      var j: nat :| j < n && FindsTarget(s, es, j) && forall k | j <= k < n :: !RunsDry(s, es, k);
      assert FindsTarget(s, all, j) && forall k | j <= k < |all| :: !RunsDry(s, all, k);
    }
    if Started(s, all) && !FindsTarget(s, all, n) {
      var j: nat :| j <= n && FindsTarget(s, all, j) && forall k | j <= k <= n :: !RunsDry(s, all, k);
      assert FindsTarget(s, es, j) && forall k | j <= k < n :: !RunsDry(s, es, k);
    }
  }

  lemma PlayingStep(r: Held, e: Event)
    requires r.target <= r.max
    ensures After(r, e).playing <==>
            (r.playing || (e.Pull? && |r.buf| >= r.target)) && !(e.Pull? && |r.buf| < e.n)
  {
  }

  /** It is playing exactly when a pull found the target held and none has run dry
    * since. */
  lemma {:induction false} PlayingIff(s: Held, es: seq<Event>)
    requires Cleared(s)
    ensures Run(s, es).playing <==> Started(s, es)
  {
    if es != [] {
      var n := |es| - 1;
      var rest, e := es[..n], es[n];
      PlayingIff(s, rest);
      assert es == rest + [e];
      StartedStep(s, rest, e);
      PlayingStep(Run(s, rest), e);
    }
  }

  lemma PullHeard(r: Held, n: nat)
    ensures var left := if |r.buf| > 2 * r.target + n then r.buf[1..] else r.buf;
            Output(r, n) ==
            if |r.buf| < r.target && !r.playing then Silence(n)
            else if n <= |left| then left[..n]
            else left + Silence(n - |left|)
  {
    if Waits(r) {
      assert Output(r, n) == Silence(n);
    } else {
      PullPieces(r, n);
      assert r.buf[0..] == r.buf;
    }
  }

  /** What a callback hears after any run: silence until a pull has found the
    * target held, and again once one has run dry; otherwise what is held from the
    * front, past one sample when more than two targets and the callback are held. */
  lemma HeardExactly(s: Held, es: seq<Event>, n: nat)
    requires Cleared(s)
    ensures var held := Run(s, es).buf;
            var left := if |held| > 2 * s.target + n then held[1..] else held;
            Output(Run(s, es), n) ==
            if |held| < s.target && !Started(s, es) then Silence(n)
            else if n <= |left| then left[..n]
            else left + Silence(n - |left|)
  {
    PlayingIff(s, es);
    PullHeard(Run(s, es), n);
  }

  /** How much is held: a push past the maximum leaves the target, and a callback
    * takes what it hears and the sample it skips. */
  lemma HoldsExactly(s: Held, es: seq<Event>, e: Event)
    requires Cleared(s)
    ensures var held, after := |Run(s, es).buf|, |Run(s, es + [e]).buf|;
            && (e.Push? ==> after == if held + |e.samples| > s.max then s.target else held + |e.samples|)
            && (e.Pull? && held < s.target && !Started(s, es) ==> after == held)
            && (e.Pull? && (held >= s.target || Started(s, es)) ==>
                  after == if held > 2 * s.target + e.n then held - 1 - e.n else if held > e.n then held - e.n else 0)
  {
    PlayingIff(s, es);
    assert (es + [e])[..|es|] == es;
  }

  // ---------- A steady page and device ----------

  /** Samples pushed since the last pull. */
  function SincePull(es: seq<Event>): nat {
    if es == [] || es[|es| - 1].Pull? then 0
    else SincePull(es[..|es| - 1]) + |es[|es| - 1].samples|
  }

  /** Every pull asks for n samples, and at most n + 1 arrive between pulls. */
  ghost predicate Steady(es: seq<Event>, n: nat) {
    && (forall e | e in es && e.Pull? :: e.n == n)
    && (forall k | 0 <= k <= |es| :: SincePull(es[..k]) <= n + 1)
  }

  lemma SteadyPrefix(es: seq<Event>, n: nat)
    requires Steady(es, n) && es != []
    ensures Steady(es[..|es| - 1], n)
  {
    var rest := es[..|es| - 1];
    forall k | 0 <= k <= |rest| ensures SincePull(rest[..k]) <= n + 1 {
      assert rest[..k] == es[..k];
    }
  }

  /** With a steady page, what is held stays within two targets plus what came
    * since the last pull, however small the maximum and whatever pushes drop. */
  lemma {:induction false} SteadyBound(s: Held, es: seq<Event>, n: nat)
    requires Cleared(s) && Steady(es, n)
    ensures |Run(s, es).buf| <= 2 * s.target + SincePull(es) <= 2 * s.target + n + 1
  {
    assert es[..|es|] == es;
    if es != [] {
      SteadyPrefix(es, n);
      SteadyBound(s, es[..|es| - 1], n);
      assert es[|es| - 1] in es;
    }
  }

  /** When that fits in the maximum, only the one-sample trims of pulls ever drop
    * anything. */
  lemma SteadyOnlyTrims(s: Held, es: seq<Event>, e: Event, n: nat)
    requires Cleared(s) && Steady(es + [e], n) && 2 * s.target + n + 1 <= s.max
    ensures var before := Run(s, es);
            After(before, e).dropped - before.dropped == if e.Pull? then Trim(before, n) else 0
    ensures Trim(Run(s, es), n) <= 1
  {
    assert (es + [e])[..|es|] == es;
    SteadyPrefix(es + [e], n);
    SteadyBound(s, es, n);
    SteadyBound(s, es + [e], n);
    assert (es + [e])[|es|] in es + [e];
    assert SincePull((es + [e])[..|es| + 1]) <= n + 1;
    assert (es + [e])[..|es| + 1] == es + [e];
  }
}
