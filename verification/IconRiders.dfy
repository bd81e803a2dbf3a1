/** Players hidden under another icon (src/services/camera-hearing.ts,
  * updateRiders), as values: who rides which track after a tick, and what every
  * run of ticks keeps of it. */
module IconRiders {
  import opened Options
  import opened Elimination
  import opened IconTracks

  const HIDDEN_NEAR_DIAMS := 1.2
  const ENEMY_HIDDEN_NEAR_DIAMS := 0.7

  /** The icon a player is under: a track by its position, or one that is gone. */
  datatype Host = On(at: nat) | Gone(x: real, y: real)

  datatype Ride = Ride(id: string, host: Host, sinceMs: int, firstMs: int)

  /** What a tick's rides are worked out from. */
  datatype Scene = Scene(e: Eye, players: seq<Player>, ms: seq<Mark>, dead: set<string>, nowMs: int)

  predicate IsAlly(players: seq<Player>, id: string) { Plays(players, id, Ally) }

  function NearFor(c: Scene, id: string): real {
    c.e.diam * (if IsAlly(c.players, id) then HIDDEN_NEAR_DIAMS else ENEMY_HIDDEN_NEAR_DIAMS)
  }

  predicate IsNamed(ms: seq<Mark>, id: string) { exists m | m in ms :: m.id == Some(id) }

  /** The ally track nearest a place, among the first n, within reach; the first
    * on a tie. */
  function HostNear(c: Scene, x: real, y: real, reach: real, n: nat): (r: Option<nat>)
    requires n <= |c.ms|
    ensures r.Some? ==> r.value < n && c.ms[r.value].side == Ally && Far(c.e, c.ms[r.value], x, y) <= reach
    ensures r.Some? ==> forall i | 0 <= i < n && c.ms[i].side == Ally && Far(c.e, c.ms[i], x, y) <= reach ::
                          Far(c.e, c.ms[r.value], x, y) <= Far(c.e, c.ms[i], x, y)
    ensures r.None? ==> forall i | 0 <= i < n && c.ms[i].side == Ally :: Far(c.e, c.ms[i], x, y) > reach
  {
    if n == 0 then None
    else
      var best := HostNear(c, x, y, reach, n - 1);
      var d := Far(c.e, c.ms[n - 1], x, y);
      if c.ms[n - 1].side == Ally && d <= reach && (best.None? || -d > -Far(c.e, c.ms[best.value], x, y))
      then Some(n - 1) else best
  }

  /** Whether a track can be a rider showing again beside its host. */
  predicate CanShow(c: Scene, r: Ride, h: nat, emerged: set<nat>, i: nat)
    requires h < |c.ms| && i < |c.ms|
  {
    var t := c.ms[i];
    && t.side == (if IsAlly(c.players, r.id) then Ally else Enemy) && t.id == None && i != h
    && t.bornMs > r.sinceMs && i !in emerged && Far(c.e, t, c.ms[h].x, c.ms[h].y) <= c.e.diam * HIDDEN_NEAR_DIAMS
  }

  function ShowScore(c: Scene, r: Ride, h: nat, i: nat): real
    requires h < |c.ms| && i < |c.ms|
  {
    var t := c.ms[i];
    (if t.scores.Some? && r.id in t.scores.value then t.scores.value[r.id] else 0.0) -
    Far(c.e, t, c.ms[h].x, c.ms[h].y) / 1000.0
  }

  /** The new unknown icon beside the pile that is most likely the rider. */
  function Shown(c: Scene, r: Ride, h: nat, emerged: set<nat>, n: nat): (s: Option<nat>)
    requires h < |c.ms| && n <= |c.ms|
    ensures s.Some? ==> s.value < n && CanShow(c, r, h, emerged, s.value)
    ensures s.Some? ==> forall i: nat | i < n && CanShow(c, r, h, emerged, i) ::
            ShowScore(c, r, h, i) <= ShowScore(c, r, h, s.value)
    ensures s.None? ==> forall i: nat | i < n :: !CanShow(c, r, h, emerged, i)
  {
    if n == 0 then None
    else
      var best := Shown(c, r, h, emerged, n - 1);
      if CanShow(c, r, h, emerged, n - 1) && (best.None? || ShowScore(c, r, h, n - 1) > ShowScore(c, r, h, best.value))
      then Some(n - 1) else best
  }

  /** Rides so far, icons riders have emerged on, and where players were last seen. */
  datatype Riding = Riding(rides: seq<Ride>, emerged: set<nat>, seen: map<string, Seen>)

  /** Riding stops when named again, when dead, and for an enemy in time. */
  predicate StopsRiding(c: Scene, r: Ride) {
    (!IsAlly(c.players, r.id) && c.nowMs - r.firstMs > COVERED_MAX_MS) || IsNamed(c.ms, r.id) || r.id in c.dead
  }

  /** The icon a rider is under now: its host, or the ally icon beside where that
    * one was. */
  function HostNow(c: Scene, r: Ride): (h: Option<nat>)
    ensures h.Some? ==> h.value < |c.ms|
  {
    match r.host
    case On(i) => if i < |c.ms| then Some(i) else None
    case Gone(x, y) => HostNear(c, x, y, NearFor(c, r.id), |c.ms|)
  }

  function SeenAt(c: Scene, i: nat): Seen
    requires i < |c.ms|
  {
    Seen(c.ms[i].x, c.ms[i].y, c.nowMs)
  }

  function RideOn(c: Scene, g: Riding, r: Ride): Riding {
    var h := HostNow(c, r);
    if StopsRiding(c, r) || h.None? then g
    else
      var s := Shown(c, r, h.value, g.emerged, |c.ms|);
      var at := if s.Some? then s.value else h.value;
      Riding(g.rides + [Ride(r.id, On(at), if s.Some? then c.nowMs else r.sinceMs, r.firstMs)],
             if s.Some? then g.emerged + {at} else g.emerged, g.seen[r.id := SeenAt(c, at)])
  }

  function RideAll(c: Scene, seen: map<string, Seen>, rides: seq<Ride>): Riding {
    if rides == [] then Riding([], {}, seen)
    else RideOn(c, RideAll(c, seen, rides[..|rides| - 1]), rides[|rides| - 1])
  }

  predicate Rides(rides: seq<Ride>, id: string) { exists r | r in rides :: r.id == id }

  /** A player named last tick and on no icon now is under the ally icon beside
    * where it was, if there is one. */
  function StartRide(c: Scene, g: Riding, id: string): Riding {
    var host := if id in g.seen then HostNear(c, g.seen[id].x, g.seen[id].y, NearFor(c, id), |c.ms|) else None;
    if IsNamed(c.ms, id) || Rides(g.rides, id) || id in c.dead || host.None? || c.ms[host.value].id == Some(id) then g
    else Riding(g.rides + [Ride(id, On(host.value), c.nowMs, c.nowMs)], g.emerged, g.seen[id := SeenAt(c, host.value)])
  }

  function StartAll(c: Scene, g: Riding, ids: seq<string>): Riding {
    if ids == [] then g else StartRide(c, StartAll(c, g, ids[..|ids| - 1]), ids[|ids| - 1])
  }

  /** Who rides what after a tick. */
  function NextRides(c: Scene, seen: map<string, Seen>, rides: seq<Ride>, prevNamed: seq<string>): Riding {
    StartAll(c, RideAll(c, seen, rides), prevNamed)
  }

  // ---------- What a tick keeps ----------

  /** A rider is under a current track, neither named on one nor dead, and an
    * enemy has been hidden for 6000 ms at most. */
  ghost predicate RideOk(c: Scene, r: Ride) {
    && r.host.On? && r.host.at < |c.ms| && !IsNamed(c.ms, r.id) && r.id !in c.dead
    && (IsAlly(c.players, r.id) || c.nowMs - r.firstMs <= COVERED_MAX_MS)
  }

  ghost predicate OneRideEach(rides: seq<Ride>) { forall i, j | 0 <= i < j < |rides| :: rides[i].id != rides[j].id }

  /** A ride goes on from before, or starts now for a player named last tick. */
  ghost predicate Sourced(c: Scene, rides: seq<Ride>, prevNamed: seq<string>, r: Ride) {
    (exists o | o in rides :: o.id == r.id && o.firstMs == r.firstMs) || (r.id in prevNamed && r.firstMs == c.nowMs)
  }

  ghost predicate RidingOk(c: Scene, rides: seq<Ride>, prevNamed: seq<string>, g: Riding) {
    OneRideEach(g.rides) && forall r | r in g.rides :: RideOk(c, r) && Sourced(c, rides, prevNamed, r)
  }

  lemma AddRide(c: Scene, rides: seq<Ride>, prevNamed: seq<string>, g: Riding, r: Ride, g': Riding)
    requires RidingOk(c, rides, prevNamed, g) && !Rides(g.rides, r.id) && g'.rides == g.rides + [r]
    requires RideOk(c, r) && Sourced(c, rides, prevNamed, r)
    ensures RidingOk(c, rides, prevNamed, g')
  {
    forall i, j | 0 <= i < j < |g'.rides| ensures g'.rides[i].id != g'.rides[j].id {
      if j == |g.rides| { assert g.rides[i] in g.rides; }
    }
  }

  ghost predicate AllFrom(rides: seq<Ride>, from: seq<Ride>) {
    forall r | r in rides :: exists o | o in from :: o.id == r.id && o.firstMs == r.firstMs
  }

  lemma {:induction false} RideAllKeeps(c: Scene, seen: map<string, Seen>, rides: seq<Ride>, prevNamed: seq<string>)
    requires OneRideEach(rides)
    ensures RidingOk(c, rides, prevNamed, RideAll(c, seen, rides)) && AllFrom(RideAll(c, seen, rides).rides, rides)
  {
    if rides != [] {
      var init, last := rides[..|rides| - 1], rides[|rides| - 1];
      var g, g' := RideAll(c, seen, init), RideAll(c, seen, rides);
      assert rides == init + [last];
      RideAllKeeps(c, seen, init, prevNamed);
      forall r | r in g.rides ensures r.id != last.id && Sourced(c, rides, prevNamed, r) {
        var o :| o in init && o.id == r.id && o.firstMs == r.firstMs;
        var i :| 0 <= i < |init| && init[i] == o;
        assert rides[i].id != rides[|rides| - 1].id;
        assert o in rides;
      }
      if g' != g {
        var r := g'.rides[|g'.rides| - 1];
        assert last in rides;
        AddRide(c, rides, prevNamed, g, r, g');
      }
    }
  }

  lemma {:induction false} StartAllKeeps(c: Scene, rides: seq<Ride>, g: Riding, prevNamed: seq<string>,
      ids: seq<string>)
    requires RidingOk(c, rides, prevNamed, g) && forall id | id in ids :: id in prevNamed
    ensures RidingOk(c, rides, prevNamed, StartAll(c, g, ids))
  {
    if ids != [] {
      var init, last := ids[..|ids| - 1], ids[|ids| - 1];
      assert ids == init + [last];
      var g1, g' := StartAll(c, g, init), StartAll(c, g, ids);
      StartAllKeeps(c, rides, g, prevNamed, init);
      if g' != g1 {
        assert last in ids;
        AddRide(c, rides, prevNamed, g1, g'.rides[|g'.rides| - 1], g');
      }
    }
  }

  /** After every tick riders are on current tracks, one ride each, disjoint from
    * the named and the dead; an enemy's ride is 6000 ms old at most; and every
    * ride either goes on or is of a player who was named the tick before. */
  lemma RidesKeep(c: Scene, seen: map<string, Seen>, rides: seq<Ride>, prevNamed: seq<string>)
    requires OneRideEach(rides)
    ensures RidingOk(c, rides, prevNamed, NextRides(c, seen, rides, prevNamed))
  {
    RideAllKeeps(c, seen, rides, prevNamed);
    StartAllKeeps(c, rides, RideAll(c, seen, rides), prevNamed, prevNamed);
  }

  // ---------- What a run of ticks keeps ----------

  /** The end of a tick: who is named, and who rides since when. */
  datatype Tick = Tick(nowMs: int, named: set<string>, rides: set<(string, int)>)

  ghost predicate TickOk(players: seq<Player>, prev: Tick, cur: Tick) {
    && (forall id, f, g | (id, f) in cur.rides && (id, g) in cur.rides :: f == g)
    && forall id, f | (id, f) in cur.rides ::
         && id !in cur.named && (IsAlly(players, id) || cur.nowMs - f <= COVERED_MAX_MS)
         && ((id, f) in prev.rides || (id in prev.named && f == cur.nowMs))
  }

  const NO_TICK := Tick(0, {}, {})

  function TickBefore(ticks: seq<Tick>, k: nat): Tick
    requires k < |ticks|
  {
    if k == 0 then NO_TICK else ticks[k - 1]
  }

  ghost predicate TicksOk(players: seq<Player>, ticks: seq<Tick>) {
    forall k: nat {:trigger TickBefore(ticks, k)} | k < |ticks| :: TickOk(players, TickBefore(ticks, k), ticks[k])
  }

  predicate RidesAt(ticks: seq<Tick>, id: string, f: int, k: nat) { k < |ticks| && (id, f) in ticks[k].rides }

  /** The tick a ride started in: named the tick before, and riding ever since. */
  ghost predicate StartsAt(ticks: seq<Tick>, id: string, f: int, j: nat, s: nat) {
    && 0 < s <= j < |ticks| && f == ticks[s].nowMs && id in TickBefore(ticks, s).named
    && forall k: nat {:trigger RidesAt(ticks, id, f, k)} | s <= k <= j :: RidesAt(ticks, id, f, k)
  }

  lemma {:induction false} RideHasAStart(players: seq<Player>, ticks: seq<Tick>, id: string, f: int, j: nat)
      returns (s: nat)
    requires TicksOk(players, ticks) && RidesAt(ticks, id, f, j)
    ensures StartsAt(ticks, id, f, j, s)
  {
    assert TickOk(players, TickBefore(ticks, j), ticks[j]);
    if (id, f) in TickBefore(ticks, j).rides {
      s := RideHasAStart(players, ticks, id, f, j - 1);
      assert RidesAt(ticks, id, f, j);
    } else {
      s := j;
      assert RidesAt(ticks, id, f, j);
    }
  }

  /** An enemy is never taken for hidden for more than 6000 ms on end: from the tick
    * its ride began, whatever the clock does. */
  lemma EnemyRidesAreBounded(players: seq<Player>, ticks: seq<Tick>, id: string, f: int, j: nat) returns (s: nat)
    requires TicksOk(players, ticks) && !IsAlly(players, id) && RidesAt(ticks, id, f, j)
    ensures StartsAt(ticks, id, f, j, s)
    ensures forall k | s <= k <= j :: ticks[k].nowMs - ticks[s].nowMs <= 6000
  {
    s := RideHasAStart(players, ticks, id, f, j);
    forall k | s <= k <= j ensures ticks[k].nowMs - ticks[s].nowMs <= 6000 {
      assert RidesAt(ticks, id, f, k) && TickOk(players, TickBefore(ticks, k), ticks[k]);
    }
  }

  /** Between two rides of a player, it was named: whoever rides at one tick and
    * again at a later one, but not on the same ride all the way, is named on an
    * icon at some tick between. */
  lemma NamedBetweenRides(players: seq<Player>, ticks: seq<Tick>, id: string, f: int, g: int, i: nat, k: nat, j: nat)
    requires TicksOk(players, ticks) && i < j && i <= k <= j
    requires RidesAt(ticks, id, f, i) && RidesAt(ticks, id, g, j) && !RidesAt(ticks, id, g, k)
    ensures exists n: nat :: i < n < j && id in ticks[n].named
  {
    var s := RideHasAStart(players, ticks, id, g, j);
    assert k < s;
    assert TickOk(players, TickBefore(ticks, i), ticks[i]);
    assert id in ticks[s - 1].named && id !in ticks[i].named;
  }

  // ---------- From one tick to the next ----------

  /** Where a track has gone when those not seen lately are forgotten. */
  function Rehosted(r: Ride, idx: seq<nat>, ms: seq<Mark>): Ride {
    match r.host
    case Gone(_, _) => r
    case On(i) =>
      r.(host := if i in idx then On(PositionOf(idx, i)) else if i < |ms| then Gone(ms[i].x, ms[i].y) else r.host)
  }

  function PositionOf(idx: seq<nat>, i: nat): (j: nat)
    requires i in idx
    ensures j < |idx| && idx[j] == i
  {
    if idx[0] == i then 0 else PositionOf(idx[1..], i) + 1
  }

  function RehostAll(rides: seq<Ride>, idx: seq<nat>, ms: seq<Mark>): (r: seq<Ride>)
    ensures |r| == |rides| && forall k | 0 <= k < |r| :: r[k] == Rehosted(rides[k], idx, ms)
  {
    seq(|rides|, k requires 0 <= k < |rides| => Rehosted(rides[k], idx, ms))
  }

  /** The names on tracks, in order. */
  function NamesOf(ms: seq<Mark>): seq<string> {
    if ms == [] then []
    else
      var m := ms[|ms| - 1];
      NamesOf(ms[..|ms| - 1]) + (if m.id.Some? then [m.id.value] else [])
  }

  lemma {:induction false} NamesOfHas(ms: seq<Mark>, id: string)
    ensures id in NamesOf(ms) <==> IsNamed(ms, id)
  {
    if ms != [] {
      NamesOfHas(ms[..|ms| - 1], id);
      assert ms == ms[..|ms| - 1] + [ms[|ms| - 1]];
    }
  }

  function RideSet(rides: seq<Ride>): set<(string, int)> { set r | r in rides :: (r.id, r.firstMs) }

  function TickOf(nowMs: int, named: seq<string>, rides: seq<Ride>): Tick {
    Tick(nowMs, (set id | id in named), RideSet(rides))
  }

  lemma RehostKeepsIds(rides: seq<Ride>, idx: seq<nat>, ms: seq<Mark>)
    requires OneRideEach(rides)
    ensures OneRideEach(RehostAll(rides, idx, ms)) && RideSet(RehostAll(rides, idx, ms)) == RideSet(rides)
  {
    var after := RehostAll(rides, idx, ms);
    forall x | x in RideSet(rides) ensures x in RideSet(after) {
      var r :| r in rides && x == (r.id, r.firstMs);
      var k :| 0 <= k < |rides| && rides[k] == r;
      assert after[k] in after;
    }
    forall x | x in RideSet(after) ensures x in RideSet(rides) {
      var r :| r in after && x == (r.id, r.firstMs);
      var k :| 0 <= k < |after| && after[k] == r;
      assert rides[k] in rides;
    }
  }

  /** A tick's rides follow on from those of the tick before. */
  lemma TickFollows(c: Scene, rides: seq<Ride>, prevNamed: seq<string>, g: Riding, prev: Tick)
    requires RidingOk(c, rides, prevNamed, g)
    requires prev.rides == RideSet(rides) && prev.named == set id | id in prevNamed
    ensures TickOk(c.players, prev, TickOf(c.nowMs, NamesOf(c.ms), g.rides))
  {
    var cur := TickOf(c.nowMs, NamesOf(c.ms), g.rides);
    forall id, f, h | (id, f) in cur.rides && (id, h) in cur.rides ensures f == h {
      var r :| r in g.rides && (r.id, r.firstMs) == (id, f);
      var s :| s in g.rides && (s.id, s.firstMs) == (id, h);
      var i :| 0 <= i < |g.rides| && g.rides[i] == r;
      var j :| 0 <= j < |g.rides| && g.rides[j] == s;
    }
    forall id, f | (id, f) in cur.rides
      ensures id !in cur.named && (IsAlly(c.players, id) || cur.nowMs - f <= COVERED_MAX_MS)
      ensures (id, f) in prev.rides || (id in prev.named && f == cur.nowMs)
    {
      var r :| r in g.rides && (r.id, r.firstMs) == (id, f);
      assert RideOk(c, r) && Sourced(c, rides, prevNamed, r);
      NamesOfHas(c.ms, id);
      if o :| o in rides && o.id == r.id && o.firstMs == r.firstMs { assert (o.id, o.firstMs) in RideSet(rides); }
    }
  }

  lemma TicksGrow(players: seq<Player>, ticks: seq<Tick>, cur: Tick)
    requires TicksOk(players, ticks) && TickOk(players, LastTick(ticks), cur)
    ensures TicksOk(players, ticks + [cur])
  {
    var ticks' := ticks + [cur];
    forall k: nat | k < |ticks'| ensures TickOk(players, TickBefore(ticks', k), ticks'[k]) {
      if k < |ticks| { assert TickOk(players, TickBefore(ticks, k), ticks[k]); }
    }
  }

  function LastTick(ticks: seq<Tick>): Tick { if ticks == [] then NO_TICK else ticks[|ticks| - 1] }

  // ---------- As it runs ----------

  method RideOnward(c: Scene, seen: map<string, Seen>, rides: seq<Ride>) returns (g: Riding)
    ensures g == RideAll(c, seen, rides)
  {
    g := Riding([], {}, seen);
    assert rides[..0] == [];
    for n := 0 to |rides|
      invariant g == RideAll(c, seen, rides[..n])
    {
      assert rides[..n + 1][..n] == rides[..n];
      var r := rides[n];
      if !IsAlly(c.players, r.id) && c.nowMs - r.firstMs > COVERED_MAX_MS { continue; }
      if IsNamed(c.ms, r.id) || r.id in c.dead { continue; }
      var host := HostNow(c, r);
      if host.None? { continue; }
      var shown := Shown(c, r, host.value, g.emerged, |c.ms|);
      if shown.Some? {
        g := Riding(g.rides + [Ride(r.id, On(shown.value), c.nowMs, r.firstMs)], g.emerged + {shown.value},
                    g.seen[r.id := SeenAt(c, shown.value)]);
      } else {
        g := Riding(g.rides + [Ride(r.id, On(host.value), r.sinceMs, r.firstMs)], g.emerged,
            g.seen[r.id := SeenAt(c, host.value)]);
      }
    }
    assert rides[..|rides|] == rides;
  }

  method StartRides(c: Scene, g0: Riding, prevNamed: seq<string>) returns (g: Riding)
    ensures g == StartAll(c, g0, prevNamed)
  {
    g := g0;
    assert prevNamed[..0] == [];
    for n := 0 to |prevNamed|
      invariant g == StartAll(c, g0, prevNamed[..n])
    {
      assert prevNamed[..n + 1][..n] == prevNamed[..n];
      var id := prevNamed[n];
      if IsNamed(c.ms, id) || Rides(g.rides, id) || id in c.dead || id !in g.seen { continue; }
      var host := HostNear(c, g.seen[id].x, g.seen[id].y, NearFor(c, id), |c.ms|);
      if host.Some? && c.ms[host.value].id != Some(id) {
        g := Riding(g.rides + [Ride(id, On(host.value), c.nowMs, c.nowMs)], g.emerged,
            g.seen[id := SeenAt(c, host.value)]);
      }
    }
    assert prevNamed[..|prevNamed|] == prevNamed;
  }

  ghost predicate AllOn(rides: seq<Ride>, n: nat) { forall d | d in rides :: d.host.On? && d.host.at < n }

  /** A tick's rides, one loop over those there were and one over the names that
    * were on icons last tick. */
  method UpdateRides(c: Scene, seen: map<string, Seen>, rides: seq<Ride>, prevNamed: seq<string>) returns (g: Riding)
    requires OneRideEach(rides)
    ensures g == NextRides(c, seen, rides, prevNamed) && AllOn(g.rides, |c.ms|)
  {
    var onward := RideOnward(c, seen, rides);
    g := StartRides(c, onward, prevNamed);
    RidesKeep(c, seen, rides, prevNamed);
    forall d | d in g.rides ensures d.host.On? && d.host.at < |c.ms| { assert RideOk(c, d); }
  }
}
