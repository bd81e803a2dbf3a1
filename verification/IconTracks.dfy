/** How icons become tracks (src/services/camera-hearing.ts,
  * ingest), as values: what one tick's observations make of the tracks, and what
  * every tick keeps of them. The objects that are updated in place are in
  * CameraHearing.dfy. */
module IconTracks {
  import opened Options
  import opened Elimination

  const TRACK_TTL_MS := 1000
  const TRACK_REACH_DIAMS := 0.9
  const COVERED_MAX_MS := 6000
  const MOVE_NAME_MIN_SCORE := 0.8

  datatype Observation = Observation(
    side: Side, x: real, y: real, id: Option<string>, scores: Option<map<string, real>>)

  /** A region in which a ring of a side was found. */
  datatype Trace = Trace(side: Side, minX: real, maxX: real, minY: real, maxY: real)

  /** A track: an icon followed, with the name it has if any. */
  datatype Mark = Mark(
    side: Side, bornMs: int, x: real, y: real, id: Option<string>, seenMs: int, observedMs: int,
    checkedMs: Option<int>, scores: Option<map<string, real>>)

  /** How far icons are apart, and how wide one is. */
  datatype Eye = Eye(hypot: (real, real) -> real, diam: real)

  function Far(e: Eye, m: Mark, x: real, y: real): real { e.hypot(m.x - x, m.y - y) }

  function Reach(e: Eye): real { e.diam * TRACK_REACH_DIAMS }

  predicate Plays(players: seq<Player>, id: string, side: Side) {
    exists p | p in players :: p.id == id && p.side == side
  }

  ghost predicate DistinctIds(players: seq<Player>) {
    forall i, j | 0 <= i < j < |players| :: players[i].id != players[j].id
  }

  lemma OneSide(players: seq<Player>, id: string, a: Side, b: Side)
    requires DistinctIds(players) && Plays(players, id, a) && Plays(players, id, b)
    ensures a == b
  {
    var p :| p in players && p.id == id && p.side == a;
    var q :| q in players && q.id == id && q.side == b;
    var i :| 0 <= i < |players| && players[i] == p;
    var j :| 0 <= j < |players| && players[j] == q;
  }

  // ---------- Which track an observation continues ----------

  /** A track near enough that carries the observation's own name. */
  predicate Carries(e: Eye, m: Mark, o: Observation) {
    o.id.Some? && m.id == o.id && Far(e, m, o.x, o.y) <= Reach(e) * 2.0
  }

  /** A track that can be the observed icon a step further on. */
  predicate CanContinue(e: Eye, m: Mark, o: Observation) {
    m.side == o.side && (o.id == None || m.id == None || m.id == o.id) && Far(e, m, o.x, o.y) <= Reach(e)
  }

  predicate Within(free: seq<nat>, n: nat) { forall j | 0 <= j < |free| :: free[j] < n }

  ghost predicate Positions(ms: seq<Mark>, free: seq<nat>) { Distinct(free) && Within(free, |ms|) }

  /** The first of the free tracks carrying the observation's name. */
  function FirstCarrier(e: Eye, ms: seq<Mark>, free: seq<nat>, o: Observation): (r: Option<nat>)
    requires Within(free, |ms|)
    ensures r.Some? ==> r.value in free && Carries(e, ms[r.value], o)
    ensures r.None? ==> forall i | i in free :: !Carries(e, ms[i], o)
  {
    if free == [] then None
    else
      assert free == [free[0]] + free[1..];
      assert free[0] in free;
      if Carries(e, ms[free[0]], o) then Some(free[0]) else FirstCarrier(e, ms, free[1..], o)
  }

  /** The nearest of the free tracks that can continue, the last on a tie. */
  function Nearest(e: Eye, ms: seq<Mark>, free: seq<nat>, o: Observation): (r: Option<nat>)
    requires Within(free, |ms|)
    ensures r.Some? ==> r.value in free && CanContinue(e, ms[r.value], o)
    ensures r.Some? ==> forall i | i in free && CanContinue(e, ms[i], o) ::
            Far(e, ms[r.value], o.x, o.y) <= Far(e, ms[i], o.x, o.y)
    ensures r.None? ==> forall i | i in free :: !CanContinue(e, ms[i], o)
  {
    if free == [] then None
    else
      var init, last := free[..|free| - 1], free[|free| - 1];
      assert free == init + [last];
      assert last in free;
      var best := Nearest(e, ms, init, o);
      if CanContinue(e, ms[last], o) && (best.None? || Far(e, ms[last], o.x, o.y) <= Far(e, ms[best.value], o.x, o.y))
      then Some(last) else best
  }

  /** The free track an observation continues: a near one with its name before any
    * other. */
  function Pick(e: Eye, ms: seq<Mark>, free: seq<nat>, o: Observation): (r: Option<nat>)
    requires Within(free, |ms|)
    ensures r.Some? ==> r.value in free && (Carries(e, ms[r.value], o) || CanContinue(e, ms[r.value], o))
    ensures r.None? ==> forall i | i in free :: !Carries(e, ms[i], o) && !CanContinue(e, ms[i], o)
  {
    var same := FirstCarrier(e, ms, free, o);
    if same.Some? then same else Nearest(e, ms, free, o)
  }

  // ---------- Folding one observation in ----------

  /** Whether these scores put someone 0.3 or more above the player named. */
  predicate LooksLikeAnother(scores: map<string, real>, id: string) {
    if id in scores then exists k | k in scores :: scores[k] - scores[id] >= 0.3 else scores != map[]
  }

  function NameAfter(id: Option<string>, o: Observation): Option<string> {
    if o.id.Some? then o.id
    else if o.scores.Some? && id.Some? && LooksLikeAnother(o.scores.value, id.value) then None
    else id
  }

  function NewMark(o: Observation, nowMs: int): Mark { Mark(o.side, nowMs, o.x, o.y, None, nowMs, nowMs, None, None) }

  /** A track with an observation of its icon taken in. */
  function Updated(m: Mark, o: Observation, nowMs: int): Mark {
    Mark(m.side, m.bornMs, o.x, o.y, NameAfter(m.id, o), nowMs, nowMs,
         if o.id.Some? || o.scores.Some? then Some(nowMs) else m.checkedMs,
         if o.scores.Some? then o.scores else m.scores)
  }

  /** Another track: a name the observation carries comes off it. */
  function Stripped(m: Mark, o: Observation): Mark {
    m.(id := if o.id.Some? && m.id == o.id then None else m.id)
  }

  /** The k-th track becomes the observation; a new one when there is no k-th. */
  function FoldAt(ms: seq<Mark>, o: Observation, nowMs: int, k: nat): (r: seq<Mark>)
    requires k <= |ms|
    ensures |r| == if k == |ms| then |ms| + 1 else |ms|
    ensures forall i | 0 <= i < |ms| && i != k :: r[i] == Stripped(ms[i], o)
    ensures r[k] == Updated(if k == |ms| then NewMark(o, nowMs) else ms[k], o, nowMs)
  {
    var base := if k == |ms| then ms + [NewMark(o, nowMs)] else ms;
    seq(|base|, i requires 0 <= i < |base| => if i == k then Updated(base[k], o, nowMs) else Stripped(base[i], o))
  }

  function Minus(free: seq<nat>, k: nat): seq<nat> {
    if free == [] then [] else if free[0] == k then free[1..] else [free[0]] + Minus(free[1..], k)
  }

  datatype Folding = Folding(ms: seq<Mark>, free: seq<nat>)

  /** The position an observation goes to: that of the track it continues, else
    * the next. */
  function Spot(e: Eye, f: Folding, o: Observation): (k: nat)
    requires Within(f.free, |f.ms|)
    ensures k <= |f.ms| && (k in f.free || k == |f.ms|)
  {
    var at := Pick(e, f.ms, f.free, o);
    if at.Some? then at.value else |f.ms|
  }

  function FoldOne(e: Eye, f: Folding, o: Observation, nowMs: int): Folding
    requires Within(f.free, |f.ms|)
  {
    var k := Spot(e, f, o);
    Folding(FoldAt(f.ms, o, nowMs, k), Minus(f.free, k))
  }

  lemma {:induction false} MinusHas(free: seq<nat>, k: nat)
    requires Distinct(free)
    ensures Distinct(Minus(free, k)) && forall i :: i in Minus(free, k) <==> i in free && i != k
  {
    if free != [] {
      var tail := free[1..];
      assert free == [free[0]] + tail;
      forall i | i in tail ensures i != free[0] {
        var j :| 0 <= j < |tail| && tail[j] == i;
        assert free[j + 1] != free[0];
      }
      MinusHas(tail, k);
      if free[0] != k {
        var r := Minus(tail, k);
        assert Minus(free, k) == [free[0]] + r && free[0] !in r;
      }
    }
  }

  // ---------- What is kept of the tracks ----------

  ghost predicate ApartAt(ms: seq<Mark>, i: nat, j: nat) {
    i < j < |ms| && ms[i].id.Some? ==> ms[i].id != ms[j].id
  }

  /** Each name is on one track at most. */
  ghost predicate NamesApart(ms: seq<Mark>) { forall i: nat, j: nat {:trigger ApartAt(ms, i, j)} :: ApartAt(ms, i, j) }

  /** A track has the name of a player of its own side, if any, and is kept alive
    * for at most 6000 ms past its last observation. */
  ghost predicate MarkOk(players: seq<Player>, m: Mark) {
    (m.id.Some? ==> Plays(players, m.id.value, m.side)) && m.seenMs <= m.observedMs + COVERED_MAX_MS
  }

  ghost predicate AllOk(players: seq<Player>, ms: seq<Mark>) {
    forall i: nat {:trigger ms[i]} | i < |ms| :: MarkOk(players, ms[i])
  }

  ghost predicate MarksOk(players: seq<Player>, ms: seq<Mark>) { NamesApart(ms) && AllOk(players, ms) }

  /** An observation named after a player of its side. */
  ghost predicate OwnName(players: seq<Player>, o: Observation) { o.id.Some? ==> Plays(players, o.id.value, o.side) }

  lemma SpotOfItsSide(e: Eye, f: Folding, o: Observation, players: seq<Player>)
    requires DistinctIds(players) && OwnName(players, o)
    requires Positions(f.ms, f.free) && MarksOk(players, f.ms)
    ensures Spot(e, f, o) < |f.ms| ==> f.ms[Spot(e, f, o)].side == o.side
  {
    var k := Spot(e, f, o);
    if k < |f.ms| && Carries(e, f.ms[k], o) {
      assert MarkOk(players, f.ms[k]);
      OneSide(players, o.id.value, f.ms[k].side, o.side);
    }
  }

  lemma FoldKeeps(e: Eye, f: Folding, o: Observation, nowMs: int, players: seq<Player>)
    requires DistinctIds(players) && OwnName(players, o)
    requires Positions(f.ms, f.free) && MarksOk(players, f.ms)
    ensures var g := FoldOne(e, f, o, nowMs);
            && Positions(g.ms, g.free) && MarksOk(players, g.ms)
            && g.ms[Spot(e, f, o)].side == o.side && Spot(e, f, o) !in g.free
  {
    var k, g := Spot(e, f, o), FoldOne(e, f, o, nowMs);
    MinusHas(f.free, k);
    SpotOfItsSide(e, f, o, players);
    forall j | 0 <= j < |g.free| ensures g.free[j] < |g.ms| {
      assert g.free[j] in g.free;
      var l :| 0 <= l < |f.free| && f.free[l] == g.free[j];
    }
    forall i: nat, j: nat ensures ApartAt(g.ms, i, j) { assert ApartAt(f.ms, i, j); }
  }

  // ---------- One tick's observations ----------

  /** Named observations first, each kind in its own order. */
  function OfKind(obs: seq<Observation>, named: bool): seq<Observation> {
    if obs == [] then []
    else OfKind(obs[..|obs| - 1], named) + (if obs[|obs| - 1].id.Some? == named then [obs[|obs| - 1]] else [])
  }

  /** Whether a name is on a track too far from here for its icon to have moved. */
  predicate NamedElsewhere(e: Eye, ms: seq<Mark>, o: Observation) {
    exists m | m in ms :: m.id == o.id && Far(e, m, o.x, o.y) > Reach(e) * 2.0
  }

  /** How strongly an observation looks like the player it is named after. */
  predicate StrongMatch(o: Observation) {
    o.id.Some? && o.scores.Some? && o.id.value in o.scores.value && o.scores.value[o.id.value] >= MOVE_NAME_MIN_SCORE
  }

  /** The observation without its name, if the name is elsewhere and the match weak. */
  function Demoted(e: Eye, ms: seq<Mark>, o: Observation): Observation {
    o.(id := if o.id.Some? && NamedElsewhere(e, ms, o) && !StrongMatch(o) then None else o.id)
  }

  function Ordered(e: Eye, ms: seq<Mark>, obs: seq<Observation>): seq<Observation> {
    var sorted := OfKind(obs, true) + OfKind(obs, false);
    seq(|sorted|, i requires 0 <= i < |sorted| => Demoted(e, ms, sorted[i]))
  }

  lemma {:induction false} OfKindIn(obs: seq<Observation>, named: bool)
    ensures forall o | o in OfKind(obs, named) :: o in obs
  {
    if obs != [] {
      OfKindIn(obs[..|obs| - 1], named);
      assert obs == obs[..|obs| - 1] + [obs[|obs| - 1]];
    }
  }

  lemma {:induction false} OfKindLength(obs: seq<Observation>)
    ensures |OfKind(obs, true)| + |OfKind(obs, false)| == |obs|
  {
    if obs != [] { OfKindLength(obs[..|obs| - 1]); }
  }

  lemma OrderedOwn(e: Eye, ms: seq<Mark>, obs: seq<Observation>, players: seq<Player>)
    requires forall o | o in obs :: OwnName(players, o)
    ensures forall o | o in Ordered(e, ms, obs) :: OwnName(players, o)
    ensures |Ordered(e, ms, obs)| == |obs|
  {
    OfKindIn(obs, true);
    OfKindIn(obs, false);
    OfKindLength(obs);
    var sorted := OfKind(obs, true) + OfKind(obs, false);
    forall o | o in Ordered(e, ms, obs) ensures OwnName(players, o) {
      var i :| 0 <= i < |sorted| && o == Demoted(e, ms, sorted[i]);
      assert sorted[i] in obs;
    }
  }

  ghost predicate FoldingOk(players: seq<Player>, f: Folding) { Positions(f.ms, f.free) && MarksOk(players, f.ms) }

  function Upto(n: nat): (r: seq<nat>)
    ensures |r| == n && forall i | 0 <= i < n :: r[i] == i
  {
    seq(n, i => i)
  }

  /** The observations folded in one after another, every track free at first. */
  function FoldAll(e: Eye, ms: seq<Mark>, obs: seq<Observation>, nowMs: int): (f: Folding)
    ensures Within(f.free, |f.ms|)
  {
    if obs == [] then Folding(ms, Upto(|ms|))
    else
      var f := FoldAll(e, ms, obs[..|obs| - 1], nowMs);
      MinusWithin(f.free, Spot(e, f, obs[|obs| - 1]), |f.ms|);
      FoldOne(e, f, obs[|obs| - 1], nowMs)
  }

  lemma {:induction false} MinusWithin(free: seq<nat>, k: nat, n: nat)
    requires Within(free, n)
    ensures Within(Minus(free, k), n)
  {
    if free != [] && free[0] != k { MinusWithin(free[1..], k, n); }
  }

  /** The track each observation became. */
  function Spots(e: Eye, ms: seq<Mark>, obs: seq<Observation>, nowMs: int): (r: seq<nat>)
    ensures |r| == |obs|
  {
    if obs == [] then []
    else
      Spots(e, ms, obs[..|obs| - 1], nowMs) + [Spot(e, FoldAll(e, ms, obs[..|obs| - 1], nowMs), obs[|obs| - 1])]
  }

  lemma {:induction false} FoldAllKeeps(e: Eye, ms: seq<Mark>, obs: seq<Observation>, nowMs: int, players: seq<Player>)
    requires DistinctIds(players) && MarksOk(players, ms) && forall o | o in obs :: OwnName(players, o)
    ensures FoldingOk(players, FoldAll(e, ms, obs, nowMs)) && |FoldAll(e, ms, obs, nowMs).ms| >= |ms|
  {
    if obs != [] {
      var init, last := obs[..|obs| - 1], obs[|obs| - 1];
      assert obs == init + [last];
      FoldAllKeeps(e, ms, init, nowMs, players);
      FoldKeeps(e, FoldAll(e, ms, init, nowMs), last, nowMs, players);
    }
  }

  /** The k-th observation has its track: of its side, where it is, seen now. */
  ghost predicate OnItsTrack(f: Folding, spots: seq<nat>, obs: seq<Observation>, nowMs: int, k: nat) {
    k < |spots| && k < |obs| && spots[k] < |f.ms| && spots[k] !in f.free &&
    var m, o := f.ms[spots[k]], obs[k];
    m.side == o.side && m.x == o.x && m.y == o.y && m.seenMs == nowMs && m.observedMs == nowMs
  }

  /** The next observation takes a track that is still free. */
  lemma StillOnItsTrack(e: Eye, f: Folding, o: Observation, nowMs: int, spots: seq<nat>, obs: seq<Observation>, k: nat)
    requires Positions(f.ms, f.free) && OnItsTrack(f, spots, obs, nowMs, k)
    ensures spots[k] != Spot(e, f, o)
    ensures OnItsTrack(FoldOne(e, f, o, nowMs), spots + [Spot(e, f, o)], obs + [o], nowMs, k)
  {
    MinusHas(f.free, Spot(e, f, o));
  }

  lemma NowOnItsTrack(e: Eye, f: Folding, o: Observation, nowMs: int, spots: seq<nat>, obs: seq<Observation>)
    requires Positions(f.ms, f.free) && |spots| == |obs|
    requires Spot(e, f, o) < |f.ms| ==> f.ms[Spot(e, f, o)].side == o.side
    ensures OnItsTrack(FoldOne(e, f, o, nowMs), spots + [Spot(e, f, o)], obs + [o], nowMs, |obs|)
  {
    MinusHas(f.free, Spot(e, f, o));
  }

  /** Each observation ends on a track of its own: no two share one. */
  lemma {:induction false} EachOnItsTrack(e: Eye, ms: seq<Mark>, obs: seq<Observation>, nowMs: int,
      players: seq<Player>)
    requires DistinctIds(players) && MarksOk(players, ms) && forall o | o in obs :: OwnName(players, o)
    ensures var f, spots := FoldAll(e, ms, obs, nowMs), Spots(e, ms, obs, nowMs);
            Distinct(spots) && forall k: nat | k < |obs| :: OnItsTrack(f, spots, obs, nowMs, k)
  {
    hide FoldOne, Spot, OnItsTrack, MarksOk, OwnName, DistinctIds;
    if obs != [] {
      var init, last := obs[..|obs| - 1], obs[|obs| - 1];
      assert obs == init + [last];
      var f0, spots0 := FoldAll(e, ms, init, nowMs), Spots(e, ms, init, nowMs);
      EachOnItsTrack(e, ms, init, nowMs, players);
      FoldAllKeeps(e, ms, init, nowMs, players);
      SpotOfItsSide(e, f0, last, players);
      forall k: nat | k < |init|
        ensures spots0[k] != Spot(e, f0, last)
        ensures OnItsTrack(FoldOne(e, f0, last, nowMs), spots0 + [Spot(e, f0, last)], init + [last], nowMs, k)
      {
        StillOnItsTrack(e, f0, last, nowMs, spots0, init, k);
      }
      NowOnItsTrack(e, f0, last, nowMs, spots0, init);
    }
  }

  // ---------- A whole tick ----------

  predicate IsLive(m: Mark, nowMs: int) { nowMs - m.seenMs <= TRACK_TTL_MS }

  ghost predicate AllLive(ms: seq<Mark>, nowMs: int) {
    forall i: nat {:trigger ms[i]} | i < |ms| :: IsLive(ms[i], nowMs)
  }

  /** The positions, among the first n, of the tracks seen lately. */
  function LivePositions(ms: seq<Mark>, nowMs: int, n: nat): (r: seq<nat>)
    requires n <= |ms|
    ensures forall j | 0 <= j < |r| :: r[j] < n && IsLive(ms[r[j]], nowMs)
    ensures forall j, k | 0 <= j < k < |r| :: r[j] < r[k]
  {
    if n == 0 then [] else LivePositions(ms, nowMs, n - 1) + (if IsLive(ms[n - 1], nowMs) then [n - 1] else [])
  }

  function At(ms: seq<Mark>, idx: seq<nat>): (r: seq<Mark>)
    requires Within(idx, |ms|)
    ensures |r| == |idx| && forall j | 0 <= j < |idx| :: r[j] == ms[idx[j]]
  {
    seq(|idx|, j requires 0 <= j < |idx| => ms[idx[j]])
  }

  function Live(ms: seq<Mark>, nowMs: int): seq<Mark> { At(ms, LivePositions(ms, nowMs, |ms|)) }

  /** Whether some ring of its side shows where the track was. */
  predicate IsCovered(e: Eye, m: Mark, traces: seq<Trace>) {
    var r := e.diam * 0.5;
    exists t | t in traces ::
      t.side == m.side && t.minX - r <= m.x <= t.maxX + r && t.minY - r <= m.y <= t.maxY + r
  }

  function Covered(e: Eye, m: Mark, traces: seq<Trace>, nowMs: int): Mark {
    m.(seenMs := if nowMs - m.observedMs <= COVERED_MAX_MS && IsCovered(e, m, traces) then nowMs else m.seenMs)
  }

  /** Free tracks that are covered, not gone, count as seen. */
  function Cover(e: Eye, f: Folding, traces: seq<Trace>, nowMs: int): (r: seq<Mark>)
    ensures |r| == |f.ms|
    ensures forall i | 0 <= i < |r| :: r[i] == if i in f.free then Covered(e, f.ms[i], traces, nowMs) else f.ms[i]
  {
    seq(|f.ms|, i requires 0 <= i < |f.ms| => if i in f.free then Covered(e, f.ms[i], traces, nowMs) else f.ms[i])
  }

  /** A tick's observations folded in, named ones first. */
  function Folded(e: Eye, ms: seq<Mark>, obs: seq<Observation>, nowMs: int): Folding {
    FoldAll(e, ms, Ordered(e, ms, obs), nowMs)
  }

  /** What a tick makes of the tracks. */
  function Ingested(e: Eye, ms: seq<Mark>, obs: seq<Observation>, nowMs: int, traces: seq<Trace>): seq<Mark> {
    Cover(e, Folded(e, Live(ms, nowMs), obs, nowMs), traces, nowMs)
  }

  lemma LiveKeeps(ms: seq<Mark>, nowMs: int, players: seq<Player>)
    requires MarksOk(players, ms)
    ensures MarksOk(players, Live(ms, nowMs)) && AllLive(Live(ms, nowMs), nowMs)
  {
    var idx, live := LivePositions(ms, nowMs, |ms|), Live(ms, nowMs);
    forall i: nat, j: nat ensures ApartAt(live, i, j) {
      if i < j < |live| { assert ApartAt(ms, idx[i], idx[j]); }
    }
    forall i: nat | i < |live| ensures MarkOk(players, live[i]) { assert MarkOk(players, ms[idx[i]]); }
  }

  lemma {:induction false} FoldAllLive(e: Eye, ms: seq<Mark>, obs: seq<Observation>, nowMs: int)
    requires AllLive(ms, nowMs)
    ensures AllLive(FoldAll(e, ms, obs, nowMs).ms, nowMs)
  {
    if obs != [] {
      var f0, f := FoldAll(e, ms, obs[..|obs| - 1], nowMs), FoldAll(e, ms, obs, nowMs);
      FoldAllLive(e, ms, obs[..|obs| - 1], nowMs);
      forall i: nat | i < |f.ms| ensures IsLive(f.ms[i], nowMs) {
        if i != Spot(e, f0, obs[|obs| - 1]) { assert IsLive(f0.ms[i], nowMs); }
      }
    }
  }

  lemma CoverKeeps(e: Eye, f: Folding, traces: seq<Trace>, nowMs: int, players: seq<Player>)
    requires MarksOk(players, f.ms) && AllLive(f.ms, nowMs)
    ensures var r := Cover(e, f, traces, nowMs); MarksOk(players, r) && AllLive(r, nowMs)
  {
    var r := Cover(e, f, traces, nowMs);
    forall i: nat, j: nat ensures ApartAt(r, i, j) { assert ApartAt(f.ms, i, j); }
    forall i: nat | i < |r| ensures MarkOk(players, r[i]) && IsLive(r[i], nowMs) {
      assert MarkOk(players, f.ms[i]) && IsLive(f.ms[i], nowMs);
    }
  }

  /** After every tick each name is on one track at most and of that track's side,
    * and no track still listed was last observed more than 7000 ms before: kept
    * alive 6000 ms past its last observation, forgotten 1000 ms after that. */
  lemma IngestKeeps(e: Eye, ms: seq<Mark>, obs: seq<Observation>, nowMs: int, traces: seq<Trace>, players: seq<Player>)
    requires DistinctIds(players) && MarksOk(players, ms) && forall o | o in obs :: OwnName(players, o)
    ensures var r := Ingested(e, ms, obs, nowMs, traces);
            MarksOk(players, r) && forall i: nat | i < |r| ::
              nowMs <= r[i].seenMs + 1000 && nowMs <= r[i].observedMs + 7000
  {
    var live := Live(ms, nowMs);
    var ordered := Ordered(e, live, obs);
    LiveKeeps(ms, nowMs, players);
    OrderedOwn(e, live, obs, players);
    FoldAllKeeps(e, live, ordered, nowMs, players);
    FoldAllLive(e, live, ordered, nowMs);
    CoverKeeps(e, FoldAll(e, live, ordered, nowMs), traces, nowMs, players);
    var r := Ingested(e, ms, obs, nowMs, traces);
    forall i: nat | i < |r|
      ensures nowMs <= r[i].seenMs + 1000 && nowMs <= r[i].observedMs + 7000
    {
      assert MarkOk(players, r[i]) && IsLive(r[i], nowMs);
    }
  }

  // ---------- Which tracks a tick lists ----------

  lemma {:induction false} LiveExactly(ms: seq<Mark>, nowMs: int, n: nat, i: nat)
    requires n <= |ms|
    ensures i in LivePositions(ms, nowMs, n) <==> i < n && IsLive(ms[i], nowMs)
  {
    if n > 0 { LiveExactly(ms, nowMs, n - 1, i); }
  }

  /** The same track, perhaps with its name taken off. */
  predicate LeftAlone(m: Mark, was: Mark) { m == was || m == was.(id := None) }

  /** A track after folding: one of those there were, left alone and free, or one
    * observed now. */
  ghost predicate FreeOrSeen(ms: seq<Mark>, f: Folding, nowMs: int, i: nat) {
    i < |f.ms| &&
    if i in f.free then i < |ms| && LeftAlone(f.ms[i], ms[i])
    else f.ms[i].seenMs == nowMs && f.ms[i].observedMs == nowMs
  }

  ghost predicate AllFreeOrSeen(ms: seq<Mark>, f: Folding, nowMs: int) {
    && Positions(f.ms, f.free) && |ms| <= |f.ms|
    && forall i: nat {:trigger FreeOrSeen(ms, f, nowMs, i)} | i < |f.ms| :: FreeOrSeen(ms, f, nowMs, i)
  }

  lemma FoldOneSpares(e: Eye, ms: seq<Mark>, f: Folding, o: Observation, nowMs: int)
    requires AllFreeOrSeen(ms, f, nowMs)
    ensures AllFreeOrSeen(ms, FoldOne(e, f, o, nowMs), nowMs)
  {
    var k, g := Spot(e, f, o), FoldOne(e, f, o, nowMs);
    MinusHas(f.free, k);
    MinusWithin(f.free, k, |f.ms|);
    forall i: nat | i < |g.ms| ensures FreeOrSeen(ms, g, nowMs, i) {
      if i < |f.ms| { assert FreeOrSeen(ms, f, nowMs, i); }
    }
  }

  lemma {:induction false} FoldAllSpares(e: Eye, ms: seq<Mark>, obs: seq<Observation>, nowMs: int)
    ensures AllFreeOrSeen(ms, FoldAll(e, ms, obs, nowMs), nowMs)
  {
    if obs == [] {
      var f := FoldAll(e, ms, obs, nowMs);
      forall i: nat | i < |ms| ensures FreeOrSeen(ms, f, nowMs, i) { assert f.free[i] in f.free; }
    } else {
      FoldAllSpares(e, ms, obs[..|obs| - 1], nowMs);
      FoldOneSpares(e, ms, FoldAll(e, ms, obs[..|obs| - 1], nowMs), obs[|obs| - 1], nowMs);
    }
  }

  /** Whether a track with no icon this tick is kept alive by it: observed within 6 s,
    * and at most half an icon from where a ring of its side was found. */
  predicate KeptAlive(e: Eye, m: Mark, traces: seq<Trace>, nowMs: int) {
    && nowMs - m.observedMs <= 6000
    && exists t | t in traces :: t.side == m.side &&
         2.0 * (t.minX - m.x) <= e.diam && 2.0 * (m.x - t.maxX) <= e.diam &&
         2.0 * (t.minY - m.y) <= e.diam && 2.0 * (m.y - t.maxY) <= e.diam
  }

  lemma KeptAliveIs(e: Eye, m: Mark, traces: seq<Trace>, nowMs: int)
    ensures KeptAlive(e, m, traces, nowMs) <==> nowMs - m.observedMs <= COVERED_MAX_MS && IsCovered(e, m, traces)
  {
    if t :| t in traces && t.side == m.side &&
           2.0 * (t.minX - m.x) <= e.diam && 2.0 * (m.x - t.maxX) <= e.diam &&
           2.0 * (t.minY - m.y) <= e.diam && 2.0 * (m.y - t.maxY) <= e.diam {
      assert t.minX - e.diam * 0.5 <= m.x <= t.maxX + e.diam * 0.5 &&
          t.minY - e.diam * 0.5 <= m.y <= t.maxY + e.diam * 0.5;
    }
  }

  /** Track j after a tick: if no observation took it, the j-th of those listed as it
    * was, but for its name, counted as seen again exactly if it is kept alive; and
    * otherwise observed now. */
  ghost predicate AfterTick(e: Eye, live: seq<Mark>, free: seq<nat>, r: seq<Mark>, traces: seq<Trace>, nowMs: int,
      j: nat) {
    j < |r| &&
    if j in free then
      && j < |live|
      && LeftAlone(r[j], live[j].(seenMs := if KeptAlive(e, live[j], traces, nowMs) then nowMs else live[j].seenMs))
    else r[j].seenMs == nowMs && r[j].observedMs == nowMs
  }

  /** What a tick lists, for any tracks, observations and covered places: a track
    * goes on being listed exactly if it was last seen, or found covered, at most
    * 1000 ms before; the others listed are new; and of those no observation took,
    * exactly those covered and observed at most 6000 ms before count as seen. */
  lemma TickListsExactly(e: Eye, ms: seq<Mark>, obs: seq<Observation>, nowMs: int, traces: seq<Trace>)
    ensures var idx, live, r := LivePositions(ms, nowMs, |ms|), Live(ms, nowMs), Ingested(e, ms, obs, nowMs, traces);
            && (forall i: nat :: i in idx <==> i < |ms| && nowMs - ms[i].seenMs <= 1000)
            && |idx| == |live| <= |r| && (forall j | 0 <= j < |idx| :: live[j] == ms[idx[j]])
            && forall j: nat | j < |r| :: AfterTick(e, live, Folded(e, live, obs, nowMs).free, r, traces, nowMs, j)
  {
    var live := Live(ms, nowMs);
    var f, r := Folded(e, live, obs, nowMs), Ingested(e, ms, obs, nowMs, traces);
    forall i: nat ensures i in LivePositions(ms, nowMs, |ms|) <==> i < |ms| && IsLive(ms[i], nowMs) {
      LiveExactly(ms, nowMs, |ms|, i);
    }
    FoldAllSpares(e, live, Ordered(e, live, obs), nowMs);
    forall j: nat | j < |r| ensures AfterTick(e, live, f.free, r, traces, nowMs, j) {
      assert FreeOrSeen(live, f, nowMs, j);
      if j in f.free {
        CoveredAnyName(e, f.ms[j], live[j], traces);
        KeptAliveIs(e, live[j], traces, nowMs);
      }
    }
  }

  /** Whether a track is covered has nothing to do with its name. */
  lemma CoveredAnyName(e: Eye, m: Mark, was: Mark, traces: seq<Trace>)
    requires LeftAlone(m, was)
    ensures IsCovered(e, m, traces) == IsCovered(e, was, traces)
  {
  }

  /** With no observations at all, the tracks listed are those listed before and
    * still live, each as it was but for being kept alive. */
  lemma QuietTick(e: Eye, ms: seq<Mark>, nowMs: int, traces: seq<Trace>)
    ensures var live := Live(ms, nowMs);
            Ingested(e, ms, [], nowMs, traces) ==
              seq(|live|, j requires 0 <= j < |live| => Covered(e, live[j], traces, nowMs))
  {
    var live := Live(ms, nowMs);
    assert Ordered(e, live, []) == [];
    var f := Folded(e, live, [], nowMs);
    assert f == Folding(live, Upto(|live|));
    forall j | 0 <= j < |live| ensures Ingested(e, ms, [], nowMs, traces)[j] == Covered(e, live[j], traces, nowMs) {
      assert f.free[j] in f.free;
    }
  }

  lemma QuietTickOfOne(e: Eye, m: Mark, nowMs: int, traces: seq<Trace>)
    requires IsLive(m, nowMs)
    ensures Ingested(e, [m], [], nowMs, traces) == [Covered(e, m, traces, nowMs)]
  {
    assert LivePositions([m], nowMs, 0) == [];
    assert LivePositions([m], nowMs, 1) == [0];
    assert Live([m], nowMs) == [m];
    QuietTick(e, [m], nowMs, traces);
  }

  lemma FirstIcon(e: Eye, o: Observation, nowMs: int)
    requires o.id == None && o.scores == None
    ensures Ingested(e, [], [o], nowMs, []) == [NewMark(o, nowMs)]
  {
    assert Live([], nowMs) == [];
    var one := [o];
    assert one[..|one| - 1] == [];
    assert !o.id.Some? && OfKind(one[..|one| - 1], false) == [];
    assert OfKind(one, true) == [];
    assert OfKind(one, false) == one;
    assert Ordered(e, [], [o]) == [o];
    assert FoldAll(e, [], one[..0], nowMs) == Folding([], Upto(0));
    assert FoldAll(e, [], [o], nowMs).ms == [NewMark(o, nowMs)];
  }

  /** The tracks of an icon observed once, at 0, and found covered every second. */
  function Watched(e: Eye, o: Observation, n: nat): seq<Mark> {
    if n == 0 then Ingested(e, [], [o], 0, [])
    else Ingested(e, Watched(e, o, n - 1), [], 1000 * n, [Trace(o.side, o.x, o.x, o.y, o.y)])
  }

  lemma CoveredTick(e: Eye, o: Observation, m: Mark, nowMs: int)
    requires e.diam >= 0.0 && m.side == o.side && m.x == o.x && m.y == o.y
    requires IsLive(m, nowMs) && nowMs - m.observedMs <= COVERED_MAX_MS
    ensures Ingested(e, [m], [], nowMs, [Trace(o.side, o.x, o.x, o.y, o.y)]) == [m.(seenMs := nowMs)]
  {
    var traces := [Trace(o.side, o.x, o.x, o.y, o.y)];
    assert traces[0] in traces;
    QuietTickOfOne(e, m, nowMs, traces);
  }

  lemma {:induction false} WatchedIs(e: Eye, o: Observation, n: nat)
    requires o.id == None && o.scores == None && e.diam >= 0.0 && n <= 6
    ensures Watched(e, o, n) == [NewMark(o, 0).(seenMs := 1000 * n)]
  {
    hide Ingested;
    if n == 0 {
      FirstIcon(e, o, 0);
    } else {
      WatchedIs(e, o, n - 1);
      CoveredTick(e, o, NewMark(o, 0).(seenMs := 1000 * (n - 1)), 1000 * n);
    }
  }

  /** So a covered track outlives the 6000 ms: seven seconds after it was last
    * observed it is still listed. */
  lemma ListedPastSixSeconds(e: Eye, o: Observation)
    requires o.id == None && o.scores == None && e.diam >= 0.0
    ensures |Watched(e, o, 7)| == 1 && Watched(e, o, 7)[0].observedMs == 0 && COVERED_MAX_MS < 7000
  {
    WatchedIs(e, o, 6);
    QuietTickOfOne(e, NewMark(o, 0).(seenMs := 6000), 7000, [Trace(o.side, o.x, o.x, o.y, o.y)]);
  }

  lemma KthOnItsTrack(e: Eye, ms: seq<Mark>, obs: seq<Observation>, nowMs: int, players: seq<Player>, k: nat)
    requires DistinctIds(players) && MarksOk(players, ms) && (forall o | o in obs :: OwnName(players, o)) && k < |obs|
    ensures OnItsTrack(FoldAll(e, ms, obs, nowMs), Spots(e, ms, obs, nowMs), obs, nowMs, k)
  {
    EachOnItsTrack(e, ms, obs, nowMs, players);
  }

  /** Covering touches no track an observation became. */
  lemma CoverSpares(e: Eye, f: Folding, traces: seq<Trace>, spots: seq<nat>, obs: seq<Observation>, nowMs: int, k: nat)
    requires OnItsTrack(f, spots, obs, nowMs, k)
    ensures OnItsTrack(Folding(Cover(e, f, traces, nowMs), []), spots, obs, nowMs, k)
  {
  }

  /** Every icon of a tick ends on a track of its own, where it is. */
  lemma EveryIconIsTracked(e: Eye, ms: seq<Mark>, obs: seq<Observation>, nowMs: int, traces: seq<Trace>,
      players: seq<Player>)
    requires DistinctIds(players) && MarksOk(players, ms) && forall o | o in obs :: OwnName(players, o)
    ensures var live, r := Live(ms, nowMs), Ingested(e, ms, obs, nowMs, traces);
            var ordered := Ordered(e, live, obs);
            var spots := Spots(e, live, ordered, nowMs);
            && |ordered| == |obs| && Distinct(spots)
            && forall k: nat | k < |ordered| :: OnItsTrack(Folding(r, []), spots, ordered, nowMs, k)
  {
    var live := Live(ms, nowMs);
    var ordered := Ordered(e, live, obs);
    LiveKeeps(ms, nowMs, players);
    OrderedOwn(e, live, obs, players);
    EachOnItsTrack(e, live, ordered, nowMs, players);
    var f, spots := FoldAll(e, live, ordered, nowMs), Spots(e, live, ordered, nowMs);
    forall k: nat | k < |ordered|
      ensures OnItsTrack(Folding(Ingested(e, ms, obs, nowMs, traces), []), spots, ordered, nowMs, k)
    {
      KthOnItsTrack(e, live, ordered, nowMs, players, k);
      CoverSpares(e, f, traces, spots, ordered, nowMs, k);
    }
  }

  // ---------- Where players were last named ----------

  /** The last sightings, with the first n tracks taken in. */
  function SeenAfter(seen: map<string, Seen>, ms: seq<Mark>, nowMs: int, n: nat): map<string, Seen>
    requires n <= |ms|
  {
    if n == 0 then seen
    else
      var m, r := ms[n - 1], SeenAfter(seen, ms, nowMs, n - 1);
      if m.id.Some? && m.seenMs == nowMs then r[m.id.value := Seen(m.x, m.y, nowMs)] else r
  }

  predicate NamedNow(ms: seq<Mark>, i: nat, id: string, nowMs: int) {
    i < |ms| && ms[i].id == Some(id) && ms[i].seenMs == nowMs
  }

  ghost predicate NobodyNow(ms: seq<Mark>, n: nat, id: string, nowMs: int) {
    forall i: nat {:trigger NamedNow(ms, i, id, nowMs)} | i < n :: !NamedNow(ms, i, id, nowMs)
  }

  /** A player named on an icon seen now was last seen there; for anyone else
    * nothing changes. */
  lemma {:induction false} SeenAfterIs(seen: map<string, Seen>, ms: seq<Mark>, nowMs: int, n: nat, id: string)
    requires NamesApart(ms) && n <= |ms|
    ensures var r := SeenAfter(seen, ms, nowMs, n);
            && (forall i: nat {:trigger NamedNow(ms, i, id, nowMs)} | i < n && NamedNow(ms, i, id, nowMs) ::
                  id in r && r[id] == Seen(ms[i].x, ms[i].y, nowMs))
            && (NobodyNow(ms, n, id, nowMs) ==> (id in r <==> id in seen) && (id in seen ==> r[id] == seen[id]))
  {
    if n > 0 {
      SeenAfterIs(seen, ms, nowMs, n - 1, id);
      var last := n - 1;
      forall i: nat | i < last ensures ApartAt(ms, i, last) {}
      assert ms[last].id == Some(id) && ms[last].seenMs == nowMs <==> NamedNow(ms, last, id, nowMs);
      forall i: nat | i < last && NamedNow(ms, i, id, nowMs) ensures ms[last].id != Some(id) {
        assert ApartAt(ms, i, last);
      }
    }
  }
}
