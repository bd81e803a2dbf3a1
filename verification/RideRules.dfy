/** When a player is taken for hidden under an icon (src/services/camera-hearing.ts,
  * updateRiders): exactly when a ride begins, exactly when it goes on, and where. */
module RideRules {
  import opened Options
  import opened Elimination
  import opened IconTracks
  import opened IconRiders

  /** An ally's icon at most `reach` from a place. */
  predicate AllyNear(c: Scene, x: real, y: real, reach: real, i: nat) {
    i < |c.ms| && c.ms[i].side == Ally && c.e.hypot(c.ms[i].x - x, c.ms[i].y - y) <= reach
  }

  /** How near an ally's icon must be to hide this player: 1.2 icons for a teammate,
    * 0.7 for an enemy. */
  function HidingReach(c: Scene, id: string): real {
    (if exists p | p in c.players :: p.id == id && p.side == Ally then 1.2 else 0.7) * c.e.diam
  }

  /** Not named on any icon now, and alive. */
  ghost predicate OutOfSight(c: Scene, id: string) { (forall m | m in c.ms :: m.id != Some(id)) && id !in c.dead }

  /** The icon ridden still shows, or an ally's shows near where it was. */
  ghost predicate HasHost(c: Scene, r: Ride) {
    match r.host
    case On(i) => i < |c.ms|
    case Gone(x, y) => exists i: nat :: AllyNear(c, x, y, HidingReach(c, r.id), i)
  }

  /** A ride goes on while its player is out of sight, an enemy for 6 s at most, and
    * there is an icon to be under. */
  ghost predicate GoesOn(c: Scene, r: Ride) {
    && OutOfSight(c, r.id) && HasHost(c, r)
    && ((exists p | p in c.players :: p.id == r.id && p.side == Ally) || c.nowMs - r.firstMs <= 6000)
  }

  /** A ride begins for a player named the tick before, out of sight now, and last seen
    * near an ally's icon. */
  ghost predicate Begins(c: Scene, seen: map<string, Seen>, prevNamed: seq<string>, id: string) {
    && id in prevNamed && OutOfSight(c, id) && id in seen
    && exists i: nat :: AllyNear(c, seen[id].x, seen[id].y, HidingReach(c, id), i)
  }

  /** The nearest of the ally icons near a place. */
  ghost predicate NearestAlly(c: Scene, x: real, y: real, reach: real, i: nat) {
    && AllyNear(c, x, y, reach, i)
    && forall k: nat | AllyNear(c, x, y, reach, k) ::
         c.e.hypot(c.ms[i].x - x, c.ms[i].y - y) <= c.e.hypot(c.ms[k].x - x, c.ms[k].y - y)
  }

  lemma HostNearIs(c: Scene, x: real, y: real, id: string)
    ensures var h, reach := HostNear(c, x, y, NearFor(c, id), |c.ms|), HidingReach(c, id);
            (h.Some? <==> exists i: nat :: AllyNear(c, x, y, reach, i)) &&
                (h.Some? ==> NearestAlly(c, x, y, reach, h.value))
  {
    assert NearFor(c, id) == HidingReach(c, id);
    var h, reach := HostNear(c, x, y, NearFor(c, id), |c.ms|), HidingReach(c, id);
    if h.Some? { assert AllyNear(c, x, y, reach, h.value); }
  }

  lemma GoesOnIff(c: Scene, r: Ride)
    ensures !StopsRiding(c, r) && HostNow(c, r).Some? <==> GoesOn(c, r)
  {
    if r.host.Gone? { HostNearIs(c, r.host.x, r.host.y, r.id); }
  }

  /** Of the rides there were, exactly those that go on are still there, begun when they
    * were; and whoever rides no more was last seen where it was. */
  lemma {:induction false} GoingOn(c: Scene, seen: map<string, Seen>, rides: seq<Ride>, id: string)
    requires OneRideEach(rides)
    ensures var g := RideAll(c, seen, rides);
            && (Rides(g.rides, id) <==> exists r :: r in rides && r.id == id && GoesOn(c, r))
            && (forall r, o | r in g.rides && o in rides && r.id == id && o.id == id :: r.firstMs == o.firstMs)
            && (!Rides(g.rides, id) ==> (id in g.seen <==> id in seen) && (id in seen ==> g.seen[id] == seen[id]))
  {
    if rides != [] {
      var init, last := rides[..|rides| - 1], rides[|rides| - 1];
      var g0, g := RideAll(c, seen, init), RideAll(c, seen, rides);
      assert rides == init + [last];
      GoingOn(c, seen, init, id);
      GoesOnIff(c, last);
      RideAllKeeps(c, seen, init, []);
      hide GoesOn, StopsRiding, HostNow, Shown;
      if last.id == id {
        forall r | r in init ensures r.id != id {
          var i :| 0 <= i < |init| && init[i] == r;
          assert rides[i].id != rides[|rides| - 1].id;
        }
        assert !Rides(g0.rides, id);
      }
      if g != g0 {
        assert g.rides == g0.rides + [g.rides[|g.rides| - 1]] && g.rides[|g.rides| - 1] in g.rides;
      }
    }
  }

  /** Starting rides for others does nothing to this player. */
  lemma {:induction false} Beginning(c: Scene, g: Riding, ids: seq<string>, id: string)
    ensures var t := StartAll(c, g, ids);
            && (Rides(t.rides, id) <==> Rides(g.rides, id) || Begins(c, g.seen, ids, id))
            && (!Rides(t.rides, id) ==> (id in t.seen <==> id in g.seen) && (id in g.seen ==> t.seen[id] == g.seen[id]))
            && (forall r | r in t.rides && r.id == id ::
                  r in g.rides || (r.firstMs == c.nowMs && r.host.On? && id in g.seen &&
                                   NearestAlly(c, g.seen[id].x, g.seen[id].y, HidingReach(c, id), r.host.at)))
            && (forall r | r in g.rides :: r in t.rides)
  {
    if ids != [] {
      var init, last := ids[..|ids| - 1], ids[|ids| - 1];
      var t0, t := StartAll(c, g, init), StartAll(c, g, ids);
      assert ids == init + [last];
      Beginning(c, g, init, id);
      if last in t0.seen { HostNearIs(c, t0.seen[last].x, t0.seen[last].y, last); }
      hide HostNear, NearestAlly, NearFor, AllyNear, HidingReach;
      if t != t0 { assert t.rides[|t.rides| - 1] in t.rides; }
    }
  }

  /** Who is hidden after a tick: exactly those whose ride goes on, and those for whom
    * one begins. A ride that goes on began when it did; one that begins, begins now,
    * under the nearest ally's icon. */
  lemma RidesExactly(c: Scene, seen: map<string, Seen>, rides: seq<Ride>, prevNamed: seq<string>, id: string)
    requires OneRideEach(rides)
    ensures var g := NextRides(c, seen, rides, prevNamed);
            var on := exists r :: r in rides && r.id == id && GoesOn(c, r);
            && (Rides(g.rides, id) <==> on || Begins(c, seen, prevNamed, id))
            && forall r | r in g.rides && r.id == id ::
                 if on then forall o | o in rides && o.id == id :: r.firstMs == o.firstMs
                 else r.firstMs == c.nowMs && r.host.On? &&
                      NearestAlly(c, seen[id].x, seen[id].y, HidingReach(c, id), r.host.at)
  {
    var g0 := RideAll(c, seen, rides);
    GoingOn(c, seen, rides, id);
    Beginning(c, g0, prevNamed, id);
    RidesKeep(c, seen, rides, prevNamed);
    hide GoesOn, NearestAlly, HidingReach, AllyNear, OutOfSight;
    var g := NextRides(c, seen, rides, prevNamed);
    forall r, o | r in g.rides && o in g.rides && r.id == id && o.id == id ensures r == o {
      var i :| 0 <= i < |g.rides| && g.rides[i] == r;
      var j :| 0 <= j < |g.rides| && g.rides[j] == o;
    }
  }

  // ---------- Where a ride goes ----------

  /** The icon a rider was under, or the ally's icon nearest where that one was. */
  ghost predicate IsHost(c: Scene, r: Ride, h: nat) {
    match r.host
    case On(i) => h == i && h < |c.ms|
    case Gone(x, y) => NearestAlly(c, x, y, HidingReach(c, r.id), h)
  }

  /** A new icon with no name, of the rider's side, within 1.2 icons of its host. */
  ghost predicate MayShow(c: Scene, r: Ride, h: nat, i: nat) {
    && h < |c.ms| && i < |c.ms| && i != h && c.ms[i].id == None && c.ms[i].bornMs > r.sinceMs
    && c.ms[i].side == (if exists p | p in c.players :: p.id == r.id && p.side == Ally then Ally else Enemy)
    && c.e.hypot(c.ms[i].x - c.ms[h].x, c.ms[i].y - c.ms[h].y) <= 1.2 * c.e.diam
  }

  /** A ride carried on from another: under the same host, or on an icon that may be the
    * rider showing again. */
  ghost predicate CarriedOn(c: Scene, r: Ride, next: Ride) {
    && next.id == r.id && next.firstMs == r.firstMs && next.host.On?
    && exists h: nat :: IsHost(c, r, h) &&
         (if next.host.at == h then next.sinceMs == r.sinceMs
          else MayShow(c, r, h, next.host.at) && next.sinceMs == c.nowMs)
  }

  lemma CarriedOnStep(c: Scene, g: Riding, r: Ride)
    requires GoesOn(c, r)
    ensures var t := RideOn(c, g, r);
            |t.rides| == |g.rides| + 1 && t.rides[..|g.rides|] == g.rides && CarriedOn(c, r, t.rides[|g.rides|])
  {
    GoesOnIff(c, r);
    if r.host.Gone? { HostNearIs(c, r.host.x, r.host.y, r.id); }
    hide HostNear, NearestAlly, GoesOn, StopsRiding, HidingReach;
    var h := HostNow(c, r).value;
    var shown := Shown(c, r, h, g.emerged, |c.ms|);
    if shown.Some? { MayShowIs(c, r, h, g.emerged, shown.value); }
    assert IsHost(c, r, h);
  }

  lemma MayShowIs(c: Scene, r: Ride, h: nat, emerged: set<nat>, i: nat)
    requires h < |c.ms| && i < |c.ms|
    ensures CanShow(c, r, h, emerged, i) <==> MayShow(c, r, h, i) && i !in emerged
  {
  }

  /** Every ride that goes on is carried on, from the same icon or to one that may be
    * its player showing again. */
  lemma {:induction false} RidesCarryOn(c: Scene, seen: map<string, Seen>, rides: seq<Ride>, r: Ride)
    requires r in rides && GoesOn(c, r)
    ensures exists next :: next in RideAll(c, seen, rides).rides && CarriedOn(c, r, next)
  {
    var init, last := rides[..|rides| - 1], rides[|rides| - 1];
    assert rides == init + [last];
    hide GoesOn, CarriedOn;
    var g0, g := RideAll(c, seen, init), RideAll(c, seen, rides);
    if r == last {
      CarriedOnStep(c, g0, last);
      assert g.rides[|g0.rides|] in g.rides;
    } else {
      RidesCarryOn(c, seen, init, r);
      var next :| next in g0.rides && CarriedOn(c, r, next);
      KeptByRideOn(c, g0, last, next);
    }
  }

  lemma KeptByRideOn(c: Scene, g: Riding, r: Ride, x: Ride)
    requires x in g.rides
    ensures x in RideOn(c, g, r).rides
  {
  }
}
