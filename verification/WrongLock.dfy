/** The evidence that the tracker is locked on the wrong blob:
  * nextWrongLockEvidence in src/services/tracking-helpers.ts. The distance
  * function is a parameter: the results hold for any that gives 0 at 0. */
module WrongLock {
  import opened Options
  import opened Plane

  const WRONG_LOCK_RUNS := 6
  const WRONG_LOCK_MIN_MS := 4000
  const WRONG_LOCK_STALE_MS := 3000
  const WRONG_LOCK_STILL_FRACTION := 0.25

  datatype Scored = Scored(at: Point, score: real)

  datatype Evidence = Evidence(anchor: Option<Point>, best: Option<Point>, runs: nat, firstMs: int, lastMs: int)

  const EMPTY_EVIDENCE := Evidence(None, None, 0, 0, 0)

  /** One classifier run. */
  datatype LockRun = LockRun(followed: Option<Point>, followedScore: real, best: Option<Scored>, discriminating: bool)

  /** An icon's diameter in pixels and the length of a vector. */
  datatype Scale = Scale(iconDiam: real, hypot: (real, real) -> real)

  /** The distance from p to q exceeds r. */
  predicate Beyond(d: Scale, p: Point, q: Point, r: real) {
    d.hypot(p.x - q.x, p.y - q.y) > r
  }

  /** Within this distance of where it was, the followed blob is still. */
  function StillRadius(d: Scale): real {
    var r := d.iconDiam * WRONG_LOCK_STILL_FRACTION;
    if r >= 3.0 then r else 3.0
  }

  /** The run says: the followed blob is wrong, a distinct one is the favourite. */
  predicate Supports(run: LockRun, d: Scale) {
    && run.discriminating && run.followed.Some? && run.best.Some?
    && run.followedScore <= 0.1 && run.best.value.score >= 0.99
    && Beyond(d, run.best.value.at, run.followed.value, d.iconDiam)
  }

  function DropStale(ev: Evidence, nowMs: int): Evidence {
    if ev.runs > 0 && nowMs - ev.lastMs > WRONG_LOCK_STALE_MS then EMPTY_EVIDENCE else ev
  }

  function DropMoved(ev: Evidence, run: LockRun, d: Scale): Evidence
    requires run.followed.Some? && run.best.Some?
  {
    var ev1 := if ev.anchor.Some? && Beyond(d, run.followed.value, ev.anchor.value, StillRadius(d))
               then EMPTY_EVIDENCE else ev;
    if ev1.best.Some? && Beyond(d, run.best.value.at, ev1.best.value, d.iconDiam) then EMPTY_EVIDENCE else ev1
  }

  datatype Outcome = Outcome(evidence: Evidence, switchTo: Option<Point>)

  function NextWrongLockEvidence(ev: Evidence, run: LockRun, nowMs: int, d: Scale): Outcome {
    var ev1 := DropStale(ev, nowMs);
    if !run.discriminating then Outcome(ev1, None)
    else if run.followed.None? then Outcome(EMPTY_EVIDENCE, None)
    else if !Supports(run, d) then Outcome(EMPTY_EVIDENCE, None)
    else
      var ev2 := DropMoved(ev1, run, d);
      var next := Evidence(if ev2.anchor.Some? then ev2.anchor else run.followed,
                           Some(run.best.value.at),
                           ev2.runs + 1,
                           if ev2.runs > 0 then ev2.firstMs else nowMs,
                           nowMs);
      if next.runs >= WRONG_LOCK_RUNS && nowMs - next.firstMs >= WRONG_LOCK_MIN_MS
      then Outcome(EMPTY_EVIDENCE, Some(run.best.value.at))
      else Outcome(next, None)
  }

  // ---------- Whole traces ----------

  datatype Timed = Timed(run: LockRun, nowMs: int)

  /** The evidence after the first n runs. */
  function EvidenceAt(tr: seq<Timed>, n: nat, d: Scale): Evidence
    requires n <= |tr|
  {
    if n == 0 then EMPTY_EVIDENCE
    else NextWrongLockEvidence(EvidenceAt(tr, n - 1, d), tr[n - 1].run, tr[n - 1].nowMs, d).evidence
  }

  /** What run n returns. */
  function SwitchAt(tr: seq<Timed>, n: nat, d: Scale): Option<Point>
    requires n < |tr|
  {
    NextWrongLockEvidence(EvidenceAt(tr, n, d), tr[n].run, tr[n].nowMs, d).switchTo
  }

  function Followed(tr: seq<Timed>, i: nat): Point
    requires i < |tr| && tr[i].run.followed.Some?
  {
    tr[i].run.followed.value
  }

  function Favourite(tr: seq<Timed>, i: nat): Point
    requires i < |tr| && tr[i].run.best.Some?
  {
    tr[i].run.best.value.at
  }

  /** Run i tells blobs apart, scores the followed one 0.1 at most and another, more
    * than an icon away, 0.99 at least. */
  predicate SaysWrong(tr: seq<Timed>, i: nat, d: Scale)
    requires i < |tr|
  {
    var run := tr[i].run;
    && run.discriminating && run.followed.Some? && run.best.Some?
    && run.followedScore <= 0.1 && run.best.value.score >= 0.99
    && d.hypot(run.best.value.at.x - run.followed.value.x, run.best.value.at.y - run.followed.value.y) > d.iconDiam
  }

  /** The followed blob at run j is at most 3 pixels or a quarter of an icon from
    * where it was at run i. */
  predicate StillThere(tr: seq<Timed>, i: nat, j: nat, d: Scale)
    requires i < |tr| && j < |tr| && tr[i].run.followed.Some? && tr[j].run.followed.Some?
  {
    var moved := d.hypot(Followed(tr, j).x - Followed(tr, i).x, Followed(tr, j).y - Followed(tr, i).y);
    moved <= 3.0 || moved <= d.iconDiam * 0.25
  }

  /** Run st[k] supports, and the followed blob is still where the streak began. */
  ghost predicate Support(tr: seq<Timed>, st: seq<nat>, k: nat, d: Scale) {
    && k < |st| && st[k] < |tr| && st[0] < |tr|
    && SaysWrong(tr, st[k], d) && SaysWrong(tr, st[0], d)
    && StillThere(tr, st[0], st[k], d)
  }

  /** From run i to the next support j: no gap over the limit, and the favourite
    * moved at most one icon. */
  ghost predicate Link(tr: seq<Timed>, i: nat, j: nat, d: Scale) {
    && i < j < |tr| && SaysWrong(tr, i, d) && SaysWrong(tr, j, d)
    && tr[j].nowMs - tr[i].nowMs <= 3000
    && d.hypot(Favourite(tr, j).x - Favourite(tr, i).x, Favourite(tr, j).y - Favourite(tr, i).y) <= d.iconDiam
  }

  ghost predicate Linked(tr: seq<Timed>, st: seq<nat>, k: nat, d: Scale) {
    k + 1 < |st| && Link(tr, st[k], st[k + 1], d)
  }

  /** `st` lists the supporting runs of one streak among the first n runs: no
    * gap over the limit, no other run that said anything since it began, the
    * followed blob within the still radius of where the streak began, the
    * favourite moving at most one icon from support to support. */
  ghost predicate IsStreak(tr: seq<Timed>, st: seq<nat>, n: nat, d: Scale)
    requires n <= |tr|
  {
    && (forall k: nat | k < |st| :: Support(tr, st, k, d))
    && (forall k: nat | k + 1 < |st| :: Linked(tr, st, k, d))
    && (forall i, j | 0 <= i < j < |st| :: st[i] < st[j])
    && (st != [] ==> st[|st| - 1] < n)
    && (st != [] ==> forall i | st[0] <= i < n && tr[i].run.discriminating :: i in st)
  }

  /** The evidence sums the streak up. */
  ghost predicate Sums(tr: seq<Timed>, st: seq<nat>, n: nat, d: Scale, ev: Evidence)
    requires n <= |tr| && IsStreak(tr, st, n, d)
  {
    if st == [] then ev == EMPTY_EVIDENCE
    else
      Support(tr, st, 0, d) && Support(tr, st, |st| - 1, d) &&
      ev == Evidence(Some(Followed(tr, st[0])), Some(Favourite(tr, st[|st| - 1])), |st|,
                        tr[st[0]].nowMs, tr[st[|st| - 1]].nowMs)
  }

  lemma Single(tr: seq<Timed>, n: nat, d: Scale)
    requires d.hypot(0.0, 0.0) == 0.0 && n < |tr| && SaysWrong(tr, n, d)
    ensures IsStreak(tr, [n], n + 1, d)
  {
    assert Support(tr, [n], 0, d);
  }

  lemma Longer(tr: seq<Timed>, st: seq<nat>, n: nat, d: Scale)
    requires n < |tr| && IsStreak(tr, st, n, d) && st != []
    requires Support(tr, st, 0, d) && Link(tr, st[|st| - 1], n, d) && StillThere(tr, st[0], n, d)
    ensures IsStreak(tr, st + [n], n + 1, d)
  {
    var all := st + [n];
    forall k: nat | k < |all| ensures Support(tr, all, k, d) {
      if k < |st| { assert Support(tr, st, k, d); }
    }
    forall k: nat | k + 1 < |all| ensures Linked(tr, all, k, d) {
      if k + 1 < |st| { assert Linked(tr, st, k, d); }
    }
    forall i | all[0] <= i < n + 1 && tr[i].run.discriminating ensures i in all {
      if i < n { assert i in st; } else { assert all[|st|] == n; }
    }
  }

  /** Soundness of the evidence: it always sums up some streak, one that began
    * after every earlier switch. */
  lemma {:induction false} EvidenceIsAStreak(tr: seq<Timed>, n: nat, d: Scale) returns (st: seq<nat>)
    requires d.hypot(0.0, 0.0) == 0.0 && n <= |tr|
    ensures IsStreak(tr, st, n, d) && Sums(tr, st, n, d, EvidenceAt(tr, n, d))
    ensures forall i | 0 <= i < n && SwitchAt(tr, i, d).Some? :: st != [] ==> i < st[0]
  {
    st := [];
    if n > 0 {
      var before := EvidenceIsAStreak(tr, n - 1, d);
      st := StreakStep(tr, before, n - 1, d);
    }
  }

  /** A support that continues the evidence. */
  lemma NextOnLink(ev: Evidence, run: LockRun, nowMs: int, d: Scale)
    requires ev.runs > 0 && ev.anchor.Some? && ev.best.Some? && Supports(run, d)
    requires nowMs - ev.lastMs <= WRONG_LOCK_STALE_MS
    requires !Beyond(d, run.followed.value, ev.anchor.value, StillRadius(d))
    requires !Beyond(d, run.best.value.at, ev.best.value, d.iconDiam)
    ensures NextWrongLockEvidence(ev, run, nowMs, d) ==
            if ev.runs + 1 >= WRONG_LOCK_RUNS && nowMs - ev.firstMs >= WRONG_LOCK_MIN_MS
            then Outcome(EMPTY_EVIDENCE, Some(run.best.value.at))
            else Outcome(Evidence(ev.anchor, Some(run.best.value.at), ev.runs + 1, ev.firstMs, nowMs), None)
  {
  }

  /** A support on evidence that is empty, stale or about another place. */
  lemma NextOnFresh(ev: Evidence, run: LockRun, nowMs: int, d: Scale)
    requires Supports(run, d) && DropMoved(DropStale(ev, nowMs), run, d) == EMPTY_EVIDENCE
    ensures NextWrongLockEvidence(ev, run, nowMs, d) ==
            Outcome(Evidence(run.followed, Some(run.best.value.at), 1, nowMs, nowMs), None)
  {
  }

  /** A support leaves the evidence it found, or none. */
  lemma KeptOrDropped(ev: Evidence, run: LockRun, nowMs: int, d: Scale)
    requires Supports(run, d) && (ev == EMPTY_EVIDENCE || (ev.runs > 0 && ev.anchor.Some? && ev.best.Some?))
    ensures var ev2 := DropMoved(DropStale(ev, nowMs), run, d);
            || ev2 == EMPTY_EVIDENCE
            || (ev2 == ev && nowMs - ev.lastMs <= WRONG_LOCK_STALE_MS
                && !Beyond(d, run.followed.value, ev.anchor.value, StillRadius(d))
                && !Beyond(d, run.best.value.at, ev.best.value, d.iconDiam))
  {
  }

  lemma SupportStep(tr: seq<Timed>, before: seq<nat>, n: nat, d: Scale) returns (st: seq<nat>)
    requires d.hypot(0.0, 0.0) == 0.0 && n < |tr| && IsStreak(tr, before, n, d) &&
            Sums(tr, before, n, d, EvidenceAt(tr, n, d))
    requires Supports(tr[n].run, d) && SwitchAt(tr, n, d).None?
    ensures IsStreak(tr, st, n + 1, d) && Sums(tr, st, n + 1, d, EvidenceAt(tr, n + 1, d))
    ensures st == [n] || (before != [] && st == before + [n])
  {
    var ev, run, now := EvidenceAt(tr, n, d), tr[n].run, tr[n].nowMs;
    KeptOrDropped(ev, run, now, d);
    Single(tr, n, d);
    if DropMoved(DropStale(ev, now), run, d) == EMPTY_EVIDENCE {
      NextOnFresh(ev, run, now, d);
      st := [n];
    } else {
      NextOnLink(ev, run, now, d);
      assert Link(tr, before[|before| - 1], n, d);
      Longer(tr, before, n, d);
      st := before + [n];
    }
  }

  lemma StreakStep(tr: seq<Timed>, before: seq<nat>, n: nat, d: Scale) returns (st: seq<nat>)
    requires d.hypot(0.0, 0.0) == 0.0 && n < |tr| && IsStreak(tr, before, n, d) &&
            Sums(tr, before, n, d, EvidenceAt(tr, n, d))
    requires forall i | 0 <= i < n && SwitchAt(tr, i, d).Some? :: before != [] ==> i < before[0]
    ensures IsStreak(tr, st, n + 1, d) && Sums(tr, st, n + 1, d, EvidenceAt(tr, n + 1, d))
    ensures forall i | 0 <= i < n + 1 && SwitchAt(tr, i, d).Some? :: st != [] ==> i < st[0]
  {
    if Supports(tr[n].run, d) && SwitchAt(tr, n, d).None? {
      st := SupportStep(tr, before, n, d);
    } else if !tr[n].run.discriminating && DropStale(EvidenceAt(tr, n, d), tr[n].nowMs) == EvidenceAt(tr, n, d) {
      st := before;
    } else {
      st := [];
    }
  }

  /** Soundness of switching: every switch is to the favourite of its own run,
    * after a streak ending there of enough supporting runs over enough time,
    * and no run of that streak counted towards an earlier switch. */
  lemma SwitchNeedsAStreak(tr: seq<Timed>, n: nat, d: Scale) returns (st: seq<nat>)
    requires d.hypot(0.0, 0.0) == 0.0 && n < |tr| && SwitchAt(tr, n, d).Some?
    ensures IsStreak(tr, st, n + 1, d) && |st| >= 6 && st[|st| - 1] == n
    ensures tr[n].nowMs - tr[st[0]].nowMs >= 4000
    ensures SwitchAt(tr, n, d) == Some(Favourite(tr, n))
    ensures forall i | 0 <= i < n && SwitchAt(tr, i, d).Some? :: i < st[0]
  {
    var before := EvidenceIsAStreak(tr, n, d);
    KeptOrDropped(EvidenceAt(tr, n, d), tr[n].run, tr[n].nowMs, d);
    assert Link(tr, before[|before| - 1], n, d);
    Longer(tr, before, n, d);
    st := before + [n];
  }

  /** Exactly when a run switches: over any trace, when it continues the streak the
    * evidence sums up, and makes that enough runs over enough time. */
  lemma SwitchesExactly(tr: seq<Timed>, n: nat, d: Scale) returns (st: seq<nat>)
    requires d.hypot(0.0, 0.0) == 0.0 && n < |tr|
    ensures IsStreak(tr, st, n, d) && Sums(tr, st, n, d, EvidenceAt(tr, n, d))
    ensures SwitchAt(tr, n, d).Some? <==>
            && SaysWrong(tr, n, d) && |st| + 1 >= 6
            && Support(tr, st, 0, d) && Link(tr, st[|st| - 1], n, d) && StillThere(tr, st[0], n, d)
            && tr[n].nowMs - tr[st[0]].nowMs >= 4000
  {
    st := EvidenceIsAStreak(tr, n, d);
    var ev, run, now := EvidenceAt(tr, n, d), tr[n].run, tr[n].nowMs;
    if Supports(run, d) {
      KeptOrDropped(ev, run, now, d);
      if st != [] && Support(tr, st, 0, d) && Link(tr, st[|st| - 1], n, d) && StillThere(tr, st[0], n, d) {
        NextOnLink(ev, run, now, d);
      } else {
        NextOnFresh(ev, run, now, d);
      }
    }
  }

  ghost predicate ClockForward(tr: seq<Timed>) {
    forall i, j | 0 <= i <= j < |tr| :: tr[i].nowMs <= tr[j].nowMs
  }

  /** The streak is still fresh at run n: nothing since its last support came
    * too late. */
  ghost predicate Fresh(tr: seq<Timed>, st: seq<nat>, n: nat)
    requires n <= |tr| && st != [] && st[|st| - 1] < |tr|
  {
    forall i | st[|st| - 1] < i < n :: tr[i].nowMs - tr[st[|st| - 1]].nowMs <= 3000
  }

  /** The converse: a fresh streak that began on empty evidence, with no switch
    * since, is summed up whole. */
  lemma {:induction false} StreakIsCounted(tr: seq<Timed>, st: seq<nat>, n: nat, d: Scale)
    requires n <= |tr| && ClockForward(tr) && st != [] && IsStreak(tr, st, n, d) && Fresh(tr, st, n)
    requires EvidenceAt(tr, st[0], d) == EMPTY_EVIDENCE
    requires forall i | st[0] <= i < n :: SwitchAt(tr, i, d).None?
    ensures Sums(tr, st, n, d, EvidenceAt(tr, n, d))
    decreases n, 0
  {
    var m := n - 1;
    if st[|st| - 1] == m {
      CountedSupport(tr, st, m, d);
    } else {
      assert tr[m].run.discriminating ==> m in st;
      SilentTail(tr, st, n, d);
      StreakIsCounted(tr, st, m, d);
    }
  }

  /** The last support of the streak finds the rest of it summed up. */
  lemma {:induction false} CountedSupport(tr: seq<Timed>, st: seq<nat>, n: nat, d: Scale)
    requires n < |tr| && ClockForward(tr) && st != [] && IsStreak(tr, st, n + 1, d) && st[|st| - 1] == n
    requires EvidenceAt(tr, st[0], d) == EMPTY_EVIDENCE
    requires forall i | st[0] <= i < n :: SwitchAt(tr, i, d).None?
    ensures SwitchAt(tr, n, d).Some? <==>
            |st| >= 6 && tr[n].nowMs - tr[st[0]].nowMs >= 4000
    ensures SwitchAt(tr, n, d).None? ==> Sums(tr, st, n + 1, d, EvidenceAt(tr, n + 1, d))
    decreases n, 1
  {
    if |st| > 1 {
      var rest := st[..|st| - 1];
      StreakPrefix(tr, st, n + 1, d);
      hide IsStreak, Fresh, Sums, SwitchAt, ClockForward;
      StreakIsCounted(tr, rest, n, d);
      assert st == rest + [n];
      CountedLink(tr, rest, st, n, d);
    } else {
      assert Support(tr, st, 0, d);
      NextOnFresh(EvidenceAt(tr, n, d), tr[n].run, tr[n].nowMs, d);
    }
  }

  lemma CountedLink(tr: seq<Timed>, rest: seq<nat>, st: seq<nat>, n: nat, d: Scale)
    requires n < |tr| && rest != [] && st == rest + [n] && IsStreak(tr, st, n + 1, d)
    requires IsStreak(tr, rest, n, d) && Sums(tr, rest, n, d, EvidenceAt(tr, n, d))
    ensures SwitchAt(tr, n, d).Some? <==> |st| >= 6 && tr[n].nowMs - tr[st[0]].nowMs >= 4000
    ensures SwitchAt(tr, n, d).None? ==> Sums(tr, st, n + 1, d, EvidenceAt(tr, n + 1, d))
  {
    assert Support(tr, st, |st| - 1, d) && Support(tr, st, 0, d) && Linked(tr, st, |st| - 2, d);
    assert Followed(tr, st[0]) == Followed(tr, rest[0]);
    hide IsStreak;
    NextOnLink(EvidenceAt(tr, n, d), tr[n].run, tr[n].nowMs, d);
  }

  lemma SilentTail(tr: seq<Timed>, st: seq<nat>, n: nat, d: Scale)
    requires 0 < n <= |tr| && st != [] && IsStreak(tr, st, n, d) && st[|st| - 1] != n - 1
    ensures IsStreak(tr, st, n - 1, d)
  {
  }

  lemma StreakPrefix(tr: seq<Timed>, st: seq<nat>, n: nat, d: Scale)
    requires 0 < n <= |tr| && |st| > 1 && IsStreak(tr, st, n, d) && st[|st| - 1] == n - 1 && ClockForward(tr)
    ensures IsStreak(tr, st[..|st| - 1], n - 1, d) && Fresh(tr, st[..|st| - 1], n - 1)
  {
    var rest := st[..|st| - 1];
    forall k: nat | k < |rest| ensures Support(tr, rest, k, d) {
      assert Support(tr, st, k, d);
    }
    forall k: nat | k + 1 < |rest| ensures Linked(tr, rest, k, d) {
      assert Linked(tr, st, k, d);
    }
    forall i | rest[0] <= i < n - 1 && tr[i].run.discriminating ensures i in rest {
      var k :| 0 <= k < |st| && st[k] == i;
      assert rest[k] == i;
    }
    assert Linked(tr, st, |st| - 2, d);
    forall i | rest[|rest| - 1] < i < n - 1 ensures tr[i].nowMs - tr[rest[|rest| - 1]].nowMs <= 3000 {
      assert tr[i].nowMs <= tr[n - 1].nowMs;
    }
  }

  /** A steady wrong lock is caught, and exactly when due: on a streak that
    * began on empty evidence with no switch since, the run that ends it
    * switches if and only if enough runs support over enough time. */
  lemma SteadyWrongLockIsCaught(tr: seq<Timed>, st: seq<nat>, n: nat, d: Scale)
    requires n < |tr| && ClockForward(tr) && st != [] && IsStreak(tr, st, n + 1, d) && st[|st| - 1] == n
    requires EvidenceAt(tr, st[0], d) == EMPTY_EVIDENCE
    requires forall i | st[0] <= i < n :: SwitchAt(tr, i, d).None?
    ensures SwitchAt(tr, n, d).Some? <==>
            |st| >= 6 && tr[n].nowMs - tr[st[0]].nowMs >= 4000
  {
    CountedSupport(tr, st, n, d);
  }
}
