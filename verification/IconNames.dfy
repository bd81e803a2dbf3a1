/** Which track has which name after a tick (src/services/camera-hearing.ts, ingest),
  * told from the tick's observations alone: what a named observation does, when a
  * name goes, and what else a track remembers. */
module IconNames {
  import opened Options
  import opened Elimination
  import opened IconTracks

  // ---------- The track an observation continues ----------

  /** How far an observation is from a track. */
  function Apart(e: Eye, m: Mark, o: Observation): real { e.hypot(m.x - o.x, m.y - o.y) }

  /** A track with the observation's name, at most 1.8 icons away. */
  predicate SameName(e: Eye, m: Mark, o: Observation) {
    o.id.Some? && m.id == o.id && Apart(e, m, o) <= 2.0 * (0.9 * e.diam)
  }

  /** A track of its side with no other name, at most 0.9 icons away. */
  predicate Nearby(e: Eye, m: Mark, o: Observation) {
    m.side == o.side && !(o.id.Some? && m.id.Some? && m.id != o.id) && Apart(e, m, o) <= 0.9 * e.diam
  }

  /** An observation goes to a free track with its name if there is one near; else to
    * the nearest free track that could be it, if there is one; else to a new track. */
  lemma SpotExactly(e: Eye, f: Folding, o: Observation)
    requires Within(f.free, |f.ms|)
    ensures var k := Spot(e, f, o);
            if exists i | i in f.free :: SameName(e, f.ms[i], o) then k in f.free && SameName(e, f.ms[k], o)
            else if exists i | i in f.free :: Nearby(e, f.ms[i], o)
            then k in f.free && Nearby(e, f.ms[k], o) &&
                 forall i | i in f.free && Nearby(e, f.ms[i], o) :: Apart(e, f.ms[k], o) <= Apart(e, f.ms[i], o)
            else k == |f.ms|
  {
    hide Carries, CanContinue, SameName, Nearby;
    var same, near := FirstCarrier(e, f.ms, f.free, o), Nearest(e, f.ms, f.free, o);
    forall i | i in f.free
      ensures Carries(e, f.ms[i], o) == SameName(e, f.ms[i], o) && CanContinue(e, f.ms[i], o) == Nearby(e, f.ms[i], o)
    {
      InNumbers(e, f.ms[i], o);
    }
  }

  lemma InNumbers(e: Eye, m: Mark, o: Observation)
    ensures Carries(e, m, o) == SameName(e, m, o) && CanContinue(e, m, o) == Nearby(e, m, o)
    ensures Far(e, m, o.x, o.y) == Apart(e, m, o)
  {
  }

  // ---------- Names ----------

  /** These scores put someone 0.3 or more above this player, or leave it out. */
  predicate TakenOff(scores: map<string, real>, n: string) {
    exists k | k in scores :: n in scores ==> scores[k] - scores[n] >= 0.3
  }

  /** The last observation that carries a name. */
  predicate LastNamed(obs: seq<Observation>, n: string, k: nat) {
    k < |obs| && obs[k].id == Some(n) && forall l | k < l < |obs| :: obs[l].id != Some(n)
  }

  ghost predicate Carried(obs: seq<Observation>, n: string) { exists o | o in obs :: o.id == Some(n) }

  /** An observation on this track is matched, and clearly as someone else. */
  ghost predicate Renounced(obs: seq<Observation>, spots: seq<nat>, n: string, j: nat) {
    exists k: nat :: RenouncedAt(obs, spots, n, j, k)
  }

  predicate RenouncedAt(obs: seq<Observation>, spots: seq<nat>, n: string, j: nat, k: nat) {
    k < |obs| && k < |spots| && spots[k] == j && obs[k].scores.Some? && TakenOff(obs[k].scores.value, n)
  }

  /** Who is on track j: a name some observation carries is on the track the last of
    * those went to, and on no other; any other name stays where it was, unless an
    * observation there is matched and clearly someone else. */
  ghost predicate NameIs(ms: seq<Mark>, obs: seq<Observation>, spots: seq<nat>, after: seq<Mark>, n: string, j: nat) {
    j < |after| &&
    (after[j].id == Some(n) <==>
       if Carried(obs, n) then exists k: nat :: LastNamed(obs, n, k) && k < |spots| && spots[k] == j
       else j < |ms| && ms[j].id == Some(n) && !Renounced(obs, spots, n, j))
  }

  ghost predicate AllNamed(ms: seq<Mark>, obs: seq<Observation>, spots: seq<nat>, after: seq<Mark>, n: string) {
    forall j: nat {:trigger NameIs(ms, obs, spots, after, n, j)} | j < |after| :: NameIs(ms, obs, spots, after, n, j)
  }

  /** No track an observation went to is free. */
  ghost predicate NoneFree(f: Folding, spots: seq<nat>) {
    forall k | 0 <= k < |spots| :: spots[k] < |f.ms| && spots[k] !in f.free
  }

  lemma SpotTaken(e: Eye, f: Folding, o: Observation, nowMs: int, spots: seq<nat>)
    requires Positions(f.ms, f.free) && NoneFree(f, spots)
    ensures NoneFree(FoldOne(e, f, o, nowMs), spots + [Spot(e, f, o)])
    ensures Spot(e, f, o) !in spots
  {
    MinusHas(f.free, Spot(e, f, o));
  }

  lemma {:induction false} SpotsTaken(e: Eye, ms: seq<Mark>, obs: seq<Observation>, nowMs: int)
    ensures NoneFree(FoldAll(e, ms, obs, nowMs), Spots(e, ms, obs, nowMs))
  {
    if obs != [] {
      var init := obs[..|obs| - 1];
      SpotsTaken(e, ms, init, nowMs);
      FoldAllSpares(e, ms, init, nowMs);
      SpotTaken(e, FoldAll(e, ms, init, nowMs), obs[|obs| - 1], nowMs, Spots(e, ms, init, nowMs));
    }
  }

  /** What folding one observation in does to whether track j has a name. */
  lemma NameStep(e: Eye, f: Folding, o: Observation, nowMs: int, n: string, j: nat)
    requires Within(f.free, |f.ms|) && j < |FoldOne(e, f, o, nowMs).ms|
    ensures var k, had := Spot(e, f, o), j < |f.ms| && f.ms[j].id == Some(n);
            FoldOne(e, f, o, nowMs).ms[j].id == Some(n) <==>
              if o.id == Some(n) then j == k
              else had && !(j == k && o.scores.Some? && TakenOff(o.scores.value, n))
  {
    var k := Spot(e, f, o);
    SpotExactly(e, f, o);
    if j == k && j < |f.ms| && f.ms[j].id == Some(n) && o.id == None && o.scores.Some? {
      LooksLikeIff(o.scores.value, n);
    }
  }

  lemma LooksLikeIff(scores: map<string, real>, n: string)
    ensures LooksLikeAnother(scores, n) <==> TakenOff(scores, n)
  {
    if n !in scores && scores != map[] {
      assert scores.Keys != {};
      var k :| k in scores;
    }
  }

  lemma CarriedMore(obs: seq<Observation>, o: Observation, n: string)
    ensures Carried(obs + [o], n) <==> Carried(obs, n) || o.id == Some(n)
  {
    assert o in obs + [o];
    if x :| x in obs && x.id == Some(n) { assert x in obs + [o]; }
  }

  lemma RenouncedMore(obs: seq<Observation>, o: Observation, spots: seq<nat>, k: nat, n: string, j: nat)
    requires |spots| == |obs|
    ensures Renounced(obs + [o], spots + [k], n, j) <==>
              Renounced(obs, spots, n, j) || (j == k && o.scores.Some? && TakenOff(o.scores.value, n))
  {
    var more, all := obs + [o], spots + [k];
    if i: nat :| RenouncedAt(obs, spots, n, j, i) { assert RenouncedAt(more, all, n, j, i); }
    if i: nat :| RenouncedAt(more, all, n, j, i) { assert i < |obs| ==> RenouncedAt(obs, spots, n, j, i); }
    if j == k && o.scores.Some? && TakenOff(o.scores.value, n) { assert RenouncedAt(more, all, n, j, |obs|); }
  }

  lemma LastNamedMore(obs: seq<Observation>, o: Observation, n: string, k: nat)
    ensures LastNamed(obs + [o], n, k) <==> if o.id == Some(n) then k == |obs| else LastNamed(obs, n, k)
  {
    var more := obs + [o];
    assert more[|obs|] == o;
    if LastNamed(obs, n, k) && o.id != Some(n) {
      forall l | k < l < |more| ensures more[l].id != Some(n) { if l < |obs| { assert more[l] == obs[l]; } }
    }
    if LastNamed(more, n, k) && k < |obs| {
      forall l | k < l < |obs| ensures obs[l].id != Some(n) { assert more[l] == obs[l]; }
    }
  }

  lemma NameIsMore(e: Eye, ms: seq<Mark>, f: Folding, obs: seq<Observation>, spots: seq<nat>, o: Observation,
      nowMs: int, n: string, j: nat)
    requires Positions(f.ms, f.free) && NoneFree(f, spots) && |spots| == |obs| && |ms| <= |f.ms|
    requires AllNamed(ms, obs, spots, f.ms, n) && j < |FoldOne(e, f, o, nowMs).ms|
    ensures NameIs(ms, obs + [o], spots + [Spot(e, f, o)], FoldOne(e, f, o, nowMs).ms, n, j)
  {
    var k, g := Spot(e, f, o), FoldOne(e, f, o, nowMs);
    var more, all := obs + [o], spots + [k];
    NameStep(e, f, o, nowMs, n, j);
    SpotTaken(e, f, o, nowMs, spots);
    CarriedMore(obs, o, n);
    RenouncedMore(obs, o, spots, k, n, j);
    hide TakenOff, Carried, Renounced, FoldOne, Spot, NoneFree;
    if j < |f.ms| { assert NameIs(ms, obs, spots, f.ms, n, j); }
    if o.id == Some(n) {
      LastNamedMore(obs, o, n, |obs|);
      assert all[|obs|] == k;
      if i: nat :| LastNamed(more, n, i) && i < |all| && all[i] == j { LastNamedMore(obs, o, n, i); }
    } else if Carried(obs, n) {
      if i: nat :| LastNamed(more, n, i) && i < |all| && all[i] == j {
        LastNamedMore(obs, o, n, i);
        assert LastNamed(obs, n, i) && i < |spots| && spots[i] == j && j in spots;
        assert j < |f.ms|;
      }
      if i: nat :| LastNamed(obs, n, i) && i < |spots| && spots[i] == j {
        LastNamedMore(obs, o, n, i);
        assert j in spots && LastNamed(more, n, i) && i < |all| && all[i] == j;
      }
    }
  }

  lemma {:induction false} NamesExactly(e: Eye, ms: seq<Mark>, obs: seq<Observation>, nowMs: int, n: string)
    ensures AllNamed(ms, obs, Spots(e, ms, obs, nowMs), FoldAll(e, ms, obs, nowMs).ms, n)
  {
    if obs == [] {
      forall j: nat | j < |ms| ensures NameIs(ms, obs, [], ms, n, j) {}
    } else {
      var init, last := obs[..|obs| - 1], obs[|obs| - 1];
      var f, spots := FoldAll(e, ms, init, nowMs), Spots(e, ms, init, nowMs);
      assert obs == init + [last];
      NamesExactly(e, ms, init, nowMs, n);
      SpotsTaken(e, ms, init, nowMs);
      FoldAllSpares(e, ms, init, nowMs);
      hide NameIs, FoldOne, Spot, FreeOrSeen;
      forall j: nat | j < |FoldOne(e, f, last, nowMs).ms|
        ensures NameIs(ms, init + [last], spots + [Spot(e, f, last)], FoldOne(e, f, last, nowMs).ms, n, j)
      {
        NameIsMore(e, ms, f, init, spots, last, nowMs, n, j);
      }
    }
  }

  // ---------- Over a whole tick ----------

  /** The names after a tick: observations in the order they are taken in, named ones
    * first and without the names that are not accepted. */
  lemma TickNamesExactly(e: Eye, ms: seq<Mark>, obs: seq<Observation>, nowMs: int, traces: seq<Trace>, n: string)
    ensures var live := Live(ms, nowMs);
            var ordered := Ordered(e, live, obs);
            AllNamed(live, ordered, Spots(e, live, ordered, nowMs), Ingested(e, ms, obs, nowMs, traces), n)
  {
    var live, r := Live(ms, nowMs), Ingested(e, ms, obs, nowMs, traces);
    var ordered := Ordered(e, live, obs);
    var f, spots := FoldAll(e, live, ordered, nowMs), Spots(e, live, ordered, nowMs);
    NamesExactly(e, live, ordered, nowMs, n);
    hide Carried, Renounced, LastNamed, Ordered, Live, IsCovered;
    forall j: nat | j < |r| ensures NameIs(live, ordered, spots, r, n, j) {
      assert NameIs(live, ordered, spots, f.ms, n, j) && r[j].id == f.ms[j].id;
    }
  }

  /** A name on an observation is accepted if every live track that has it is at most
    * 1.8 icons away, or the icon looks like that player by 0.8 or more. */
  predicate Accepted(e: Eye, live: seq<Mark>, o: Observation) {
    o.id.Some? &&
    (|| (forall m | m in live && m.id == o.id :: Apart(e, m, o) <= 2.0 * (0.9 * e.diam))
     || (o.scores.Some? && o.id.value in o.scores.value && o.scores.value[o.id.value] >= 0.8))
  }

  lemma DemotedExactly(e: Eye, live: seq<Mark>, o: Observation)
    ensures Demoted(e, live, o) == o.(id := if Accepted(e, live, o) then o.id else None)
  {
    forall m | m in live ensures (Far(e, m, o.x, o.y) > Reach(e) * 2.0) == (Apart(e, m, o) > 2.0 * (0.9 * e.diam)) {}
  }

  lemma {:induction false} OfKindHas(obs: seq<Observation>, o: Observation)
    requires o in obs
    ensures o in OfKind(obs, o.id.Some?)
  {
    var init, last := obs[..|obs| - 1], obs[|obs| - 1];
    assert obs == init + [last];
    if o in init { OfKindHas(init, o); }
  }

  /** The observations taken in are those of the tick, each without its name if that is
    * not accepted. */
  lemma OrderedHas(e: Eye, live: seq<Mark>, obs: seq<Observation>, x: Observation)
    ensures x in Ordered(e, live, obs) <==> exists o :: o in obs && x == Demoted(e, live, o)
  {
    var sorted := OfKind(obs, true) + OfKind(obs, false);
    OfKindIn(obs, true);
    OfKindIn(obs, false);
    if o :| o in obs && x == Demoted(e, live, o) {
      OfKindHas(obs, o);
      assert o in sorted;
      var i :| 0 <= i < |sorted| && sorted[i] == o;
      assert Ordered(e, live, obs)[i] == x;
    }
    if x in Ordered(e, live, obs) {
      var i :| 0 <= i < |sorted| && Ordered(e, live, obs)[i] == x;
      assert sorted[i] in sorted;
    }
  }

  /** Named observations are taken in before the others, accepted or not. */
  lemma NamedFirst(e: Eye, live: seq<Mark>, obs: seq<Observation>, k: nat, l: nat)
    requires k < l < |Ordered(e, live, obs)| && Ordered(e, live, obs)[l].id.Some?
    ensures exists o :: o in obs && o.id.Some? && Ordered(e, live, obs)[k] == Demoted(e, live, o)
  {
    var named, rest := OfKind(obs, true), OfKind(obs, false);
    OfKindIn(obs, true);
    KindsAre(obs, true);
    KindsAre(obs, false);
    var all := named + rest;
    forall i: nat | |named| <= i < |all| ensures all[i].id.None? { assert all[i] in rest; }
    assert (named + rest)[k] in named;
  }

  lemma {:induction false} KindsAre(obs: seq<Observation>, named: bool)
    ensures forall o | o in OfKind(obs, named) :: o.id.Some? == named
  {
    if obs != [] { KindsAre(obs[..|obs| - 1], named); }
  }

  lemma CarriedIff(e: Eye, live: seq<Mark>, obs: seq<Observation>, n: string)
    ensures Carried(Ordered(e, live, obs), n) <==> exists o :: o in obs && o.id == Some(n) && Accepted(e, live, o)
  {
    hide Accepted, Demoted, Ordered;
    if o :| o in obs && o.id == Some(n) && Accepted(e, live, o) {
      DemotedExactly(e, live, o);
      OrderedHas(e, live, obs, Demoted(e, live, o));
    }
    if x :| x in Ordered(e, live, obs) && x.id == Some(n) {
      OrderedHas(e, live, obs, x);
      var o :| o in obs && x == Demoted(e, live, o);
      DemotedExactly(e, live, o);
    }
  }

  lemma {:induction false} LastExists(obs: seq<Observation>, n: string) returns (k: nat)
    requires Carried(obs, n)
    ensures LastNamed(obs, n, k)
  {
    var init, last := obs[..|obs| - 1], obs[|obs| - 1];
    assert obs == init + [last];
    if last.id == Some(n) {
      k := |init|;
    } else {
      k := LastExists(init, n);
      LastNamedMore(init, last, n, k);
    }
  }

  /** A name that only one icon of the tick is matched as, if accepted, is on a track
    * there at the end of it, seen now. */
  lemma NamedIconLands(e: Eye, ms: seq<Mark>, obs: seq<Observation>, nowMs: int, traces: seq<Trace>,
      players: seq<Player>, o: Observation) returns (j: nat)
    requires DistinctIds(players) && MarksOk(players, ms) && forall x | x in obs :: OwnName(players, x)
    requires o in obs && Accepted(e, Live(ms, nowMs), o) && forall x | x in obs && x.id == o.id :: x == o
    ensures var r := Ingested(e, ms, obs, nowMs, traces);
            && j < |r| && r[j].id == o.id && r[j].side == o.side && r[j].x == o.x && r[j].y == o.y
            && r[j].seenMs == nowMs && r[j].observedMs == nowMs
  {
    var live, r, n := Live(ms, nowMs), Ingested(e, ms, obs, nowMs, traces), o.id.value;
    var ordered := Ordered(e, live, obs);
    var spots := Spots(e, live, ordered, nowMs);
    EveryIconIsTracked(e, ms, obs, nowMs, traces, players);
    TickNamesExactly(e, ms, obs, nowMs, traces, n);
    CarriedIff(e, live, obs, n);
    hide Accepted, Ordered, Ingested, Live, Carried, Renounced, Demoted, MarksOk, DistinctIds, OwnName;
    var k := LastExists(ordered, n);
    j := spots[k];
    assert OnItsTrack(Folding(r, []), spots, ordered, nowMs, k);
    assert NameIs(live, ordered, spots, r, n, j);
    OrderedHas(e, live, obs, ordered[k]);
    var x :| x in obs && ordered[k] == Demoted(e, live, x);
    DemotedExactly(e, live, x);
  }

  /** A name no icon of the tick is accepted as stays on its track, unless an icon that
    * continues it is matched and clearly someone else. */
  lemma UnseenNameStays(e: Eye, ms: seq<Mark>, obs: seq<Observation>, nowMs: int, traces: seq<Trace>, n: string, j: nat)
    requires forall o | o in obs && o.id == Some(n) :: !Accepted(e, Live(ms, nowMs), o)
    ensures var live, r := Live(ms, nowMs), Ingested(e, ms, obs, nowMs, traces);
            var ordered := Ordered(e, live, obs);
            j < |r| ==>
              (r[j].id == Some(n) <==>
                 j < |live| && live[j].id == Some(n) && !Renounced(ordered, Spots(e, live, ordered, nowMs), n, j))
  {
    var live, r := Live(ms, nowMs), Ingested(e, ms, obs, nowMs, traces);
    var ordered := Ordered(e, live, obs);
    TickNamesExactly(e, ms, obs, nowMs, traces, n);
    CarriedIff(e, live, obs, n);
    hide Accepted, Ordered, Ingested, Live, Carried, Renounced;
    if j < |r| { assert NameIs(live, ordered, Spots(e, live, ordered, nowMs), r, n, j); }
  }

  // ---------- What else a track remembers ----------

  /** The observation that went to track j and was matched, if there was one, is what
    * its scores are of. */
  ghost predicate Remembers(ms: seq<Mark>, obs: seq<Observation>, spots: seq<nat>, after: seq<Mark>, nowMs: int,
      j: nat) {
    && j < |after|
    && (j < |ms| ==> after[j].side == ms[j].side && after[j].bornMs == ms[j].bornMs)
    && (j >= |ms| ==> after[j].bornMs == nowMs)
    && (forall k | 0 <= k < |obs| && k < |spots| && spots[k] == j && obs[k].scores.Some? ::
          after[j].scores == obs[k].scores)
    && ((forall k | 0 <= k < |obs| && k < |spots| && spots[k] == j :: obs[k].scores.None?) ==>
          after[j].scores == if j < |ms| then ms[j].scores else None)
  }

  ghost predicate AllRemember(ms: seq<Mark>, obs: seq<Observation>, spots: seq<nat>, after: seq<Mark>, nowMs: int) {
    forall j: nat {:trigger Remembers(ms, obs, spots, after, nowMs, j)} | j < |after| ::
      Remembers(ms, obs, spots, after, nowMs, j)
  }

  lemma RemembersMore(e: Eye, ms: seq<Mark>, f: Folding, obs: seq<Observation>, spots: seq<nat>, o: Observation,
      nowMs: int, j: nat)
    requires Positions(f.ms, f.free) && NoneFree(f, spots) && |spots| == |obs| && |ms| <= |f.ms|
    requires AllRemember(ms, obs, spots, f.ms, nowMs) && j < |FoldOne(e, f, o, nowMs).ms|
    ensures Remembers(ms, obs + [o], spots + [Spot(e, f, o)], FoldOne(e, f, o, nowMs).ms, nowMs, j)
  {
    var k, g := Spot(e, f, o), FoldOne(e, f, o, nowMs);
    var more, all := obs + [o], spots + [k];
    SpotTaken(e, f, o, nowMs, spots);
    if j < |f.ms| { assert Remembers(ms, obs, spots, f.ms, nowMs, j); }
    assert all[|obs|] == k && more[|obs|] == o;
    forall i | 0 <= i < |obs| ensures more[i] == obs[i] && all[i] == spots[i] && (spots[i] in spots) {}
    forall i | 0 <= i < |more| && all[i] == j && more[i].scores.Some? ensures g.ms[j].scores == more[i].scores {
      if i < |obs| { assert spots[i] == j; }
    }
    if forall i | 0 <= i < |more| && all[i] == j :: more[i].scores.None? {
      forall i | 0 <= i < |obs| && spots[i] == j ensures obs[i].scores.None? { assert more[i].scores.None?; }
    }
  }

  lemma {:induction false} TracksRemember(e: Eye, ms: seq<Mark>, obs: seq<Observation>, nowMs: int)
    ensures AllRemember(ms, obs, Spots(e, ms, obs, nowMs), FoldAll(e, ms, obs, nowMs).ms, nowMs)
  {
    if obs == [] {
      forall j: nat | j < |ms| ensures Remembers(ms, obs, [], ms, nowMs, j) {}
    } else {
      var init, last := obs[..|obs| - 1], obs[|obs| - 1];
      var f, spots := FoldAll(e, ms, init, nowMs), Spots(e, ms, init, nowMs);
      assert obs == init + [last];
      TracksRemember(e, ms, init, nowMs);
      SpotsTaken(e, ms, init, nowMs);
      FoldAllSpares(e, ms, init, nowMs);
      hide Remembers, FoldOne, Spot, FreeOrSeen;
      forall j: nat | j < |FoldOne(e, f, last, nowMs).ms|
        ensures Remembers(ms, init + [last], spots + [Spot(e, f, last)], FoldOne(e, f, last, nowMs).ms, nowMs, j)
      {
        RemembersMore(e, ms, f, init, spots, last, nowMs, j);
      }
    }
  }

  /** Over a tick a track keeps its side and when it was born, a new one is born now, and
    * its scores are those of the icon that went to it, if matched, else as they were. */
  lemma TickRemembers(e: Eye, ms: seq<Mark>, obs: seq<Observation>, nowMs: int, traces: seq<Trace>)
    ensures var live := Live(ms, nowMs);
            var ordered := Ordered(e, live, obs);
            AllRemember(live, ordered, Spots(e, live, ordered, nowMs), Ingested(e, ms, obs, nowMs, traces), nowMs)
  {
    var live, r := Live(ms, nowMs), Ingested(e, ms, obs, nowMs, traces);
    var ordered := Ordered(e, live, obs);
    var f, spots := FoldAll(e, live, ordered, nowMs), Spots(e, live, ordered, nowMs);
    TracksRemember(e, live, ordered, nowMs);
    hide Ordered, Live, IsCovered;
    forall j: nat | j < |r| ensures Remembers(live, ordered, spots, r, nowMs, j) {
      assert Remembers(live, ordered, spots, f.ms, nowMs, j);
    }
  }
}
