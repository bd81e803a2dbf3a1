/** Where every living player is, and who is heard (src/services/camera-hearing.ts,
  * placeAll and audible): named icons first, then unknown icons by elimination,
  * then riders at their hosts, then allies under the nearest icon they could be at. */
module HearingPlaces {
  import opened Options
  import opened Elimination
  import opened IconTracks
  import opened IconRiders

  const ALLY_UNPLACED_MS := 3000

  /** What a placement is worked out from: the tracks, the riders, the dead. */
  datatype Map = Map(w: World, ms: seq<Mark>, rides: seq<Ride>, dead: set<string>)

  ghost predicate LiveAt(p: Map, i: nat) { i < |p.ms| && IsLive(p.ms[i], p.w.nowMs) }

  ghost predicate NamedAt(p: Map, id: string, i: nat) { LiveAt(p, i) && p.ms[i].id == Some(id) }

  ghost predicate NamedLive(p: Map, id: string) { exists i: nat :: NamedAt(p, id, i) }

  ghost predicate IsPlayer(players: seq<Player>, id: string) { exists q | q in players :: q.id == id }

  // ---------- The reference: who is where ----------

  /** An unknown icon of a side that a player of it could be at. */
  ghost predicate UnknownAt(p: Map, side: Side, id: string, i: nat) {
    && LiveAt(p, i) && p.ms[i].side == side && p.ms[i].id == None
    && Plays(p.w.players, id, side) && CouldBeAt(p.w, id, p.ms[i].x, p.ms[i].y)
  }

  /** The players of a side, among the first n, who are alive and named nowhere. */
  ghost function Loose(p: Map, side: Side, n: nat): (r: seq<string>)
    requires n <= |p.w.players|
    ensures forall id | id in r :: Plays(p.w.players, id, side) && !NamedLive(p, id) && id !in p.dead
  {
    if n == 0 then []
    else
      var q := p.w.players[n - 1];
      Loose(p, side, n - 1) + (if q.side == side && !NamedLive(p, q.id) && q.id !in p.dead then [q.id] else [])
  }

  /** The live tracks, among the first n, of a side and with no name. */
  function Unknown(p: Map, side: Side, n: nat): (r: seq<nat>)
    requires n <= |p.ms|
    ensures forall j | 0 <= j < |r| ::
              r[j] < n && IsLive(p.ms[r[j]], p.w.nowMs) && p.ms[r[j]].side == side && p.ms[r[j]].id == None
  {
    if n == 0 then []
    else
      var m := p.ms[n - 1];
      Unknown(p, side, n - 1) + (if IsLive(m, p.w.nowMs) && m.side == side && m.id == None then [n - 1] else [])
  }

  function IconOf(m: Mark): Icon { Icon(m.x, m.y, m.scores) }

  function IconsAt(p: Map, idx: seq<nat>): (r: seq<Icon>)
    requires Within(idx, |p.ms|)
    ensures |r| == |idx| && forall j | 0 <= j < |idx| :: r[j] == IconOf(p.ms[idx[j]])
  {
    seq(|idx|, j requires 0 <= j < |idx| => IconOf(p.ms[idx[j]]))
  }

  /** The unknown icons of a side, by candidate, as the assignment settles them. */
  ghost function SettledAmong(p: Map, side: Side, cands: seq<string>): map<string, nat> {
    var unknown := Unknown(p, side, |p.ms|);
    var r := Assign(p.w, IconsAt(p, unknown), cands);
    map id | id in r && r[id] < |unknown| :: unknown[r[id]]
  }

  ghost function ByElimination(p: Map, side: Side): map<string, nat> {
    SettledAmong(p, side, Loose(p, side, |p.w.players|))
  }

  /** Everyone settled on an unknown icon by elimination. */
  ghost function Eliminated(p: Map): map<string, nat> { ByElimination(p, Ally) + ByElimination(p, Enemy) }

  function RideOf(rides: seq<Ride>, id: string): (r: Option<Ride>)
    ensures r.Some? ==> r.value in rides && r.value.id == id
    ensures r.None? ==> !Rides(rides, id)
  {
    if rides == [] then None
    else
      assert rides == [rides[0]] + rides[1..];
      if rides[0].id == id then Some(rides[0]) else RideOf(rides[1..], id)
  }

  /** A rider whose host still shows, and that host. */
  ghost predicate RidesLive(p: Map, id: string) {
    var r := RideOf(p.rides, id);
    r.Some? && r.value.host.On? && LiveAt(p, r.value.host.at)
  }

  /** Whether an ally on no icon can be put under this one. */
  predicate CouldBeUnder(p: Map, id: string, i: nat) {
    i < |p.ms| && IsLive(p.ms[i], p.w.nowMs) && p.ms[i].side == Ally && CouldBeAt(p.w, id, p.ms[i].x, p.ms[i].y)
  }

  function FarFrom(p: Map, seen: Seen, i: nat): real
    requires i < |p.ms|
  {
    p.w.hypot(p.ms[i].x - seen.x, p.ms[i].y - seen.y)
  }

  /** The ally icon nearest where a player was last seen of those it could be
    * under, the first of them on a tie. */
  ghost predicate NearestAt(p: Map, id: string, seen: Seen, i: nat) {
    && CouldBeUnder(p, id, i)
    && (forall k: nat | CouldBeUnder(p, id, k) :: FarFrom(p, seen, i) <= FarFrom(p, seen, k))
    && (forall k: nat | k < i && CouldBeUnder(p, id, k) :: FarFrom(p, seen, i) < FarFrom(p, seen, k))
  }

  /** An ally seen a moment ago is under that icon. */
  ghost predicate UnderAt(p: Map, id: string, i: nat) {
    && IsAlly(p.w.players, id) && id in p.w.lastSeen && p.w.nowMs - p.w.lastSeen[id].ms <= ALLY_UNPLACED_MS
    && NearestAt(p, id, p.w.lastSeen[id], i)
  }

  /** Where a player named nowhere is: by elimination before anything else, then
    * where its host is, then under the nearest icon. */
  ghost predicate InferredAt(p: Map, id: string, i: nat) {
    if id in Eliminated(p) then i == Eliminated(p)[id]
    else if RidesLive(p, id) then i == RideOf(p.rides, id).value.host.at
    else UnderAt(p, id, i)
  }

  /** Where each player is, as far as can be told. */
  ghost predicate IsAt(p: Map, id: string, i: nat) {
    if NamedLive(p, id) then NamedAt(p, id, i)
    else IsPlayer(p.w.players, id) && id !in p.dead && InferredAt(p, id, i)
  }

  // ---------- What elimination settles ----------

  lemma {:induction false} UnknownDistinct(p: Map, side: Side, n: nat)
    requires n <= |p.ms|
    ensures Distinct(Unknown(p, side, n))
  {
    if n > 0 { UnknownDistinct(p, side, n - 1); }
  }

  lemma {:induction false} LooseDistinct(p: Map, side: Side, n: nat)
    requires DistinctIds(p.w.players) && n <= |p.w.players|
    ensures Distinct(Loose(p, side, n))
    ensures forall id | id in Loose(p, side, n) :: exists i :: 0 <= i < n && p.w.players[i].id == id
  {
    if n > 0 {
      LooseDistinct(p, side, n - 1);
      var r0, r := Loose(p, side, n - 1), Loose(p, side, n);
      forall id | id in r0 ensures id != p.w.players[n - 1].id {
        var i :| 0 <= i < n - 1 && p.w.players[i].id == id;
        assert p.w.players[i].id != p.w.players[n - 1].id;
      }
      assert forall j | 0 <= j < |r0| :: r[j] == r0[j] && r0[j] in r0;
      forall id | id in r ensures exists i :: 0 <= i < n && p.w.players[i].id == id {
        if id in r0 {
          var i :| 0 <= i < n - 1 && p.w.players[i].id == id;
          assert p.w.players[i].id == id;
        } else {
          assert p.w.players[n - 1].id == id;
        }
      }
    }
  }

  /** On one side: candidates, each on an unknown icon it could be at, one an icon;
    * and the whole of what the assignment says. */
  lemma SettledIsSound(p: Map, side: Side, cands: seq<string>)
    requires Distinct(cands) && forall id | id in cands :: Plays(p.w.players, id, side)
    ensures var e := SettledAmong(p, side, cands);
            OneToOne(e) && forall id | id in e :: id in cands && UnknownAt(p, side, id, e[id])
    ensures var unknown := Unknown(p, side, |p.ms|);
            SettledAmong(p, side, cands).Keys == Assign(p.w, IconsAt(p, unknown), cands).Keys
  {
    hide Assign, CouldBeAt;
    var unknown := Unknown(p, side, |p.ms|);
    var r, e := Assign(p.w, IconsAt(p, unknown), cands), SettledAmong(p, side, cands);
    AssignIsSound(p.w, IconsAt(p, unknown), cands);
    UnknownDistinct(p, side, |p.ms|);
    forall id | id in r ensures id in e && id in cands && UnknownAt(p, side, id, e[id]) {}
    forall a, b | a in e && b in e && e[a] == e[b] ensures a == b { assert r[a] == r[b]; }
  }

  lemma ByEliminationIsSound(p: Map, side: Side)
    requires DistinctIds(p.w.players)
    ensures var e := ByElimination(p, side);
            && OneToOne(e)
            && forall id | id in e :: id in Loose(p, side, |p.w.players|) && UnknownAt(p, side, id, e[id])
  {
    hide SettledAmong, UnknownAt;
    LooseDistinct(p, side, |p.w.players|);
    SettledIsSound(p, side, Loose(p, side, |p.w.players|));
  }

  /** A side's players are settled on their own side's icons. */
  lemma EliminatedOfSide(p: Map, side: Side, id: string)
    requires DistinctIds(p.w.players)
    ensures ElimOfSide(p, Loose(p, side, |p.w.players|), ByElimination(p, side), id)
    ensures id in ByElimination(p, side) ==> id in Eliminated(p) && Eliminated(p)[id] == ByElimination(p, side)[id]
  {
    EliminatedOn(p, id);
    OfItsSideOnly(p, side, id);
    hide ByElimination, Eliminated;
  }

  lemma EliminatedOn(p: Map, id: string)
    ensures id in Eliminated(p) <==> id in ByElimination(p, Ally) || id in ByElimination(p, Enemy)
    ensures id in ByElimination(p, Enemy) ==> Eliminated(p)[id] == ByElimination(p, Enemy)[id]
    ensures id in ByElimination(p, Ally) && id !in ByElimination(p, Enemy) ==>
            Eliminated(p)[id] == ByElimination(p, Ally)[id]
  {
    hide ByElimination;
  }

  lemma OfItsSideOnly(p: Map, side: Side, id: string)
    requires DistinctIds(p.w.players)
    ensures id in ByElimination(p, side) ==> id in Loose(p, side, |p.w.players|)
    ensures id in Loose(p, side, |p.w.players|) ==> id !in ByElimination(p, Other(side))
  {
    ByEliminationIsSound(p, side);
    ByEliminationIsSound(p, Other(side));
    hide ByElimination, UnknownAt;
    if id in ByElimination(p, Other(side)) && id in Loose(p, side, |p.w.players|) {
      OneSide(p.w.players, id, side, Other(side));
    }
  }

  function Other(side: Side): Side { if side == Ally then Enemy else Ally }

  /** What one side's elimination settles of one player. */
  ghost predicate ElimOfSide(p: Map, cands: seq<string>, elim: map<string, nat>, id: string) {
    if id in cands
    then (id in elim <==> id in Eliminated(p)) && (id in elim ==> elim[id] == Eliminated(p)[id])
    else id !in elim
  }

  /** Everyone eliminated is alive, named nowhere, and on an unknown icon of their
    * own side that they could be at; and no icon holds two. */
  lemma EliminatedIsSound(p: Map)
    requires DistinctIds(p.w.players)
    ensures OneToOne(Eliminated(p))
    ensures forall id | id in Eliminated(p) ::
              && !NamedLive(p, id) && id !in p.dead
              && (UnknownAt(p, Ally, id, Eliminated(p)[id]) || UnknownAt(p, Enemy, id, Eliminated(p)[id]))
  {
    ByEliminationIsSound(p, Ally);
    ByEliminationIsSound(p, Enemy);
    hide ByElimination, CouldBeAt, NamedLive;
    forall a, b | a in Eliminated(p) && b in Eliminated(p) && Eliminated(p)[a] == Eliminated(p)[b] ensures a == b {
      EliminatedOfSide(p, Ally, a);
      EliminatedOfSide(p, Ally, b);
    }
  }

  // ---------- The steps of placing ----------

  /** The candidates of a side: its living players on no icon yet. */
  function Candidates(p: Map, side: Side, at: map<string, nat>, n: nat): (r: seq<string>)
    requires n <= |p.w.players|
    ensures forall id | id in r :: id !in at
  {
    if n == 0 then []
    else
      var q := p.w.players[n - 1];
      Candidates(p, side, at, n - 1) + (if q.side == side && q.id !in at && q.id !in p.dead then [q.id] else [])
  }

  /** Everyone named, and the players of these sides, are where they are. */
  ghost predicate Placed(p: Map, sides: set<Side>, at: map<string, nat>) {
    forall id, i: nat {:trigger IsAt(p, id, i)} ::
      id in at && at[id] == i <==> IsAt(p, id, i) && (NamedLive(p, id) || OfSides(p, sides, id))
  }

  ghost predicate OfSides(p: Map, sides: set<Side>, id: string) {
    exists side | side in sides :: Plays(p.w.players, id, side)
  }

  lemma OnAnIcon(p: Map, sides: set<Side>, at: map<string, nat>, id: string)
    requires Placed(p, sides, at)
    ensures id in at ==> IsAt(p, id, at[id]) && (NamedLive(p, id) || OfSides(p, sides, id))
    ensures NamedLive(p, id) ==> id in at
  {
    if id in at { assert IsAt(p, id, at[id]); }
    if NamedLive(p, id) {
      var i: nat :| NamedAt(p, id, i);
      assert IsAt(p, id, i);
    }
  }

  /** Candidates of a side not placed yet are its living players named nowhere. */
  lemma {:induction false} CandidatesAreLoose(p: Map, side: Side, sides: set<Side>, at: map<string, nat>, n: nat)
    requires DistinctIds(p.w.players) && Placed(p, sides, at) && side !in sides && n <= |p.w.players|
    ensures Candidates(p, side, at, n) == Loose(p, side, n)
  {
    if n > 0 {
      CandidatesAreLoose(p, side, sides, at, n - 1);
      var q := p.w.players[n - 1];
      if q.side == side {
        assert Plays(p.w.players, q.id, side);
        OnAnIcon(p, sides, at, q.id);
        if OfSides(p, sides, q.id) {
          var s :| s in sides && Plays(p.w.players, q.id, s);
          OneSide(p.w.players, q.id, s, side);
        }
      }
    }
  }

  method PlaceNamed(p: Map) returns (at: map<string, nat>)
    requires NamesApart(p.ms)
    ensures Placed(p, {}, at)
  {
    at := map[];
    for n := 0 to |p.ms|
      invariant forall id | id in at :: at[id] < n && NamedAt(p, id, at[id])
      invariant forall id, i: nat {:trigger NamedAt(p, id, i)} | i < n && NamedAt(p, id, i) :: id in at && at[id] == i
    {
      var t := p.ms[n];
      if IsLive(t, p.w.nowMs) && t.id.Some? {
        forall i: nat | i < n ensures p.ms[i].id != t.id { assert ApartAt(p.ms, i, n); }
        assert NamedAt(p, t.id.value, n);
        at := at[t.id.value := n];
      }
    }
    forall id, i: nat ensures id in at && at[id] == i <==> IsAt(p, id, i) && (NamedLive(p, id) || OfSides(p, {}, id)) {}
  }

  /** The unknown icons of one side, settled by elimination. */
  method EliminateSide(p: Map, side: Side, cands: seq<string>) returns (elim: map<string, nat>)
    requires Distinct(cands) && forall id | id in cands :: Plays(p.w.players, id, side)
    ensures elim == SettledAmong(p, side, cands)
  {
    hide Assign, CouldBeAt;
    var unknown := Unknown(p, side, |p.ms|);
    var icons := IconsAt(p, unknown);
    var placed := AssignUnknown(p.w, icons, cands);
    AssignIsSound(p.w, icons, cands);
    elim := map id | id in placed :: unknown[placed[id]];
  }

  ghost predicate RidersPlaced(p: Map, cands: seq<string>, at0: map<string, nat>, at: map<string, nat>) {
    && (forall id :: id in at <==> id in at0 || (id in cands && RidesLive(p, id)))
    && (forall id | id in at :: at[id] == if id in at0 then at0[id] else RideOf(p.rides, id).value.host.at)
  }

  ghost predicate AlliesPlaced(p: Map, cands: seq<string>, at0: map<string, nat>, at: map<string, nat>) {
    && (forall id :: id in at <==> id in at0 || (id in cands && CanBeUnder(p, id)))
    && (forall id | id in at :: if id in at0 then at[id] == at0[id] else UnderAt(p, id, at[id]))
  }

  ghost predicate CanBeUnder(p: Map, id: string) { exists i: nat :: UnderAt(p, id, i) }

  /** Riders not placed yet are where their hosts are. */
  method PlaceRiders(p: Map, cands: seq<string>, at0: map<string, nat>) returns (at: map<string, nat>)
    ensures RidersPlaced(p, cands, at0, at)
  {
    at := at0;
    assert cands[..0] == [];
    for n := 0 to |cands|
      invariant RidersPlaced(p, cands[..n], at0, at)
    {
      var id := cands[n];
      assert cands[..n + 1] == cands[..n] + [id];
      var r := RideOf(p.rides, id);
      if id !in at && r.Some? && r.value.host.On? && r.value.host.at < |p.ms| &&
          IsLive(p.ms[r.value.host.at], p.w.nowMs) {
        at := at[id := r.value.host.at];
      }
    }
    assert cands[..|cands|] == cands;
  }

  method FindNearest(p: Map, id: string, seen: Seen) returns (host: Option<nat>)
    ensures host.Some? ==> NearestAt(p, id, seen, host.value)
    ensures host.None? ==> forall i: nat :: !CouldBeUnder(p, id, i)
  {
    host := None;
    for n := 0 to |p.ms|
      invariant host.Some? ==> host.value < n && CouldBeUnder(p, id, host.value)
      invariant host.Some? ==>
                  forall k: nat | k < n && CouldBeUnder(p, id, k) :: FarFrom(p, seen, host.value) <= FarFrom(p, seen, k)
      invariant host.Some? ==>
                  forall k: nat | k < host.value && CouldBeUnder(p, id, k) ::
                      FarFrom(p, seen, host.value) < FarFrom(p, seen, k)
      invariant host.None? ==> forall k: nat | k < n :: !CouldBeUnder(p, id, k)
    {
      if CouldBeUnder(p, id, n) && (host.None? || -FarFrom(p, seen, n) > -FarFrom(p, seen, host.value)) {
        host := Some(n);
      }
    }
  }

  /** Allies not placed yet are under the nearest icon they could be under. */
  method PlaceAllies(p: Map, cands: seq<string>, at0: map<string, nat>) returns (at: map<string, nat>)
    requires forall id | id in cands :: IsAlly(p.w.players, id)
    ensures AlliesPlaced(p, cands, at0, at)
  {
    hide NearestAt;
    at := at0;
    assert cands[..0] == [];
    for n := 0 to |cands|
      invariant AlliesPlaced(p, cands[..n], at0, at)
    {
      var id := cands[n];
      assert cands[..n + 1] == cands[..n] + [id] && id in cands;
      if id in at || id !in p.w.lastSeen || p.w.nowMs - p.w.lastSeen[id].ms > ALLY_UNPLACED_MS { continue; }
      var host := FindNearest(p, id, p.w.lastSeen[id]);
      if host.Some? {
        assert UnderAt(p, id, host.value);
        at := at[id := host.value];
      } else {
        forall i: nat ensures !UnderAt(p, id, i) { NearestCould(p, id, p.w.lastSeen[id], i); }
      }
    }
    assert cands[..|cands|] == cands;
  }

  lemma NearestCould(p: Map, id: string, seen: Seen, i: nat)
    ensures NearestAt(p, id, seen, i) ==> CouldBeUnder(p, id, i)
  {
  }

  // ---------- One side ----------

  /** What placing a side does to one player. */
  ghost predicate SideStep(p: Map, cands: seq<string>, at0: map<string, nat>, at: map<string, nat>, id: string) {
    if id in at0 then id in at && at[id] == at0[id]
    else if id in cands then forall i: nat :: id in at && at[id] == i <==> InferredAt(p, id, i)
    else id !in at
  }

  lemma SideStepIs(p: Map, side: Side, cands: seq<string>, elim: map<string, nat>,
      at0: map<string, nat>, at2: map<string, nat>, at: map<string, nat>, id: string)
    requires DistinctIds(p.w.players) && ElimOfSide(p, cands, elim, id)
    requires forall x | x in cands :: x !in at0 && Plays(p.w.players, x, side)
    requires RidersPlaced(p, cands, at0 + elim, at2)
    requires if side == Ally then AlliesPlaced(p, cands, at2, at) else at == at2
    ensures SideStep(p, cands, at0, at, id)
  {
    hide Eliminated, NearestAt, RidesLive, UnderAt, DistinctIds;
    if id !in at0 && id in cands && id !in elim && !RidesLive(p, id) {
      forall i: nat ensures id in at && at[id] == i <==> UnderAt(p, id, i) {
        if UnderAt(p, id, i) { UnderIsOne(p, side, id, i); }
      }
    }
  }

  /** Only an ally is under an icon, and only under one. */
  lemma UnderIsOne(p: Map, side: Side, id: string, i: nat)
    requires DistinctIds(p.w.players) && Plays(p.w.players, id, side) && UnderAt(p, id, i)
    ensures side == Ally && forall k: nat | UnderAt(p, id, k) :: k == i
  {
    OneSide(p.w.players, id, side, Ally);
  }

  lemma {:induction false} LooseHas(p: Map, side: Side, n: nat, i: nat)
    requires i < n <= |p.w.players|
    requires var q := p.w.players[i]; q.side == side && !NamedLive(p, q.id) && q.id !in p.dead
    ensures p.w.players[i].id in Loose(p, side, n)
  {
    if i < n - 1 { LooseHas(p, side, n - 1, i); }
  }

  lemma SidePlaced(p: Map, side: Side, sides: set<Side>, at0: map<string, nat>, at: map<string, nat>)
    requires Placed(p, sides, at0) && forall id :: SideStep(p, Loose(p, side, |p.w.players|), at0, at, id)
    ensures Placed(p, sides + {side}, at)
  {
    hide InferredAt;
    forall id, i: nat
      ensures id in at && at[id] == i <==> IsAt(p, id, i) && (NamedLive(p, id) || OfSides(p, sides + {side}, id))
    {
      OnAnIcon(p, sides, at0, id);
      assert SideStep(p, Loose(p, side, |p.w.players|), at0, at, id);
      OfSidesMore(p, sides, side, id);
      assert id in at0 && at0[id] == i <==> IsAt(p, id, i) && (NamedLive(p, id) || OfSides(p, sides, id));
      if Plays(p.w.players, id, side) && !NamedLive(p, id) && id !in p.dead {
        var q :| q in p.w.players && q.id == id && q.side == side;
        var k :| 0 <= k < |p.w.players| && p.w.players[k] == q;
        LooseHas(p, side, |p.w.players|, k);
      }
    }
  }

  lemma OfSidesMore(p: Map, sides: set<Side>, side: Side, id: string)
    ensures OfSides(p, sides + {side}, id) <==> OfSides(p, sides, id) || Plays(p.w.players, id, side)
  {
    if Plays(p.w.players, id, side) { assert side in sides + {side}; }
    if OfSides(p, sides, id) {
      var s :| s in sides && Plays(p.w.players, id, s);
      assert s in sides + {side};
    }
  }

  lemma PlayerHasASide(p: Map, id: string)
    requires IsPlayer(p.w.players, id)
    ensures OfSides(p, {Ally, Enemy}, id)
  {
    var q :| q in p.w.players && q.id == id;
    assert Plays(p.w.players, id, q.side) && q.side in {Ally, Enemy};
  }

  method PlaceSide(p: Map, side: Side, ghost sides: set<Side>, at0: map<string, nat>) returns (at: map<string, nat>)
    requires DistinctIds(p.w.players) && Placed(p, sides, at0) && side !in sides
    ensures Placed(p, sides + {side}, at)
  {
    var cands := Candidates(p, side, at0, |p.w.players|);
    CandidatesAreLoose(p, side, sides, at0, |p.w.players|);
    LooseDistinct(p, side, |p.w.players|);
    hide SettledAmong, Placed, SideStep;
    var elim := EliminateSide(p, side, cands);
    var at2 := PlaceRiders(p, cands, at0 + elim);
    at := at2;
    if side == Ally { at := PlaceAllies(p, cands, at2); }
    forall id ensures SideStep(p, cands, at0, at, id) {
      EliminatedOfSide(p, side, id);
      SideStepIs(p, side, cands, elim, at0, at2, at, id);
    }
    SidePlaced(p, side, sides, at0, at);
  }

  /** Every player is placed where the reference says, and on no icon else. */
  ghost predicate PlacesAll(p: Map, at: map<string, nat>) {
    forall id, i: nat {:trigger IsAt(p, id, i)} :: id in at && at[id] == i <==> IsAt(p, id, i)
  }

  /** Where every player is: on the icon the reference says, or on none. */
  method PlaceAll(p: Map) returns (at: map<string, nat>)
    requires DistinctIds(p.w.players) && NamesApart(p.ms)
    ensures PlacesAll(p, at)
  {
    at := PlaceNamed(p);
    at := PlaceSide(p, Ally, {}, at);
    at := PlaceSide(p, Enemy, {} + {Ally}, at);
    assert {} + {Ally} + {Enemy} == {Ally, Enemy};
    forall id, i: nat ensures id in at && at[id] == i <==> IsAt(p, id, i) {
      if IsPlayer(p.w.players, id) { PlayerHasASide(p, id); }
    }
  }

  // ---------- In outright terms ----------

  /** A track seen, or found covered, within the last second. */
  predicate Shows(p: Map, i: nat) { i < |p.ms| && p.w.nowMs - p.ms[i].seenMs <= 1000 }

  /** Whose place elimination looks for: every living player of the side named nowhere. */
  lemma LooseExactly(p: Map, side: Side, id: string)
    ensures id in Loose(p, side, |p.w.players|) <==>
            && (exists q | q in p.w.players :: q.id == id && q.side == side) && id !in p.dead
            && !exists i: nat :: Shows(p, i) && p.ms[i].id == Some(id)
  {
    assert forall i: nat :: NamedAt(p, id, i) <==> Shows(p, i) && p.ms[i].id == Some(id);
    if Plays(p.w.players, id, side) && id !in p.dead && !NamedLive(p, id) {
      var q :| q in p.w.players && q.id == id && q.side == side;
      var k :| 0 <= k < |p.w.players| && p.w.players[k] == q;
      LooseHas(p, side, |p.w.players|, k);
    }
  }

  /** And where: on every track of the side that shows and has no name. */
  lemma {:induction false} UnknownExactly(p: Map, side: Side, n: nat, i: nat)
    requires n <= |p.ms|
    ensures i in Unknown(p, side, n) <==> i < n && Shows(p, i) && p.ms[i].side == side && p.ms[i].id == None
  {
    if n > 0 { UnknownExactly(p, side, n - 1, i); }
  }

  /** How much a track's icon looks like a player, none at all counting -1. */
  function Likeness(m: Mark, id: string): real {
    if m.scores.Some? && id in m.scores.value then m.scores.value[id] else -1.0
  }

  ghost predicate OnBetterLikeness(p: Map, e: map<string, nat>, id: string, likeness: real) {
    id in e && e[id] < |p.ms| && p.ms[e[id]].scores.Some? && Likeness(p.ms[e[id]], id) >= likeness
  }

  /** Over the whole map, likeness decides first: a living player named nowhere who
    * could be an unknown icon of its side that was matched is either on a matched icon
    * that looks at least as much like it, or that icon is with someone it looks at
    * least as much like. */
  lemma LikenessSettles(p: Map, side: Side, id: string, i: nat)
    requires DistinctIds(p.w.players) && Plays(p.w.players, id, side) && id !in p.dead && !NamedLive(p, id)
    requires Shows(p, i) && p.ms[i].side == side && p.ms[i].id == None && p.ms[i].scores.Some?
    requires CouldBeAt(p.w, id, p.ms[i].x, p.ms[i].y)
    ensures var e := ByElimination(p, side);
            || OnBetterLikeness(p, e, id, Likeness(p.ms[i], id))
            || exists b | b in e :: e[b] == i && Likeness(p.ms[i], b) >= Likeness(p.ms[i], id)
  {
    var unknown, cands := Unknown(p, side, |p.ms|), Loose(p, side, |p.w.players|);
    LooseDistinct(p, side, |p.w.players|);
    assert id in cands by {
      assert forall k: nat :: NamedAt(p, id, k) <==> Shows(p, k) && p.ms[k].id == Some(id);
      LooseExactly(p, side, id);
    }
    UnknownExactly(p, side, |p.ms|, i);
    UnknownDistinct(p, side, |p.ms|);
    var j :| 0 <= j < |unknown| && unknown[j] == i;
    var icons := IconsAt(p, unknown);
    LikenessOnMap(p, side, unknown, cands, j, id);
  }

  lemma LikenessOnMap(p: Map, side: Side, unknown: seq<nat>, cands: seq<string>, j: nat, id: string)
    requires unknown == Unknown(p, side, |p.ms|) && Distinct(cands) && id in cands
    requires j < |unknown| && p.ms[unknown[j]].scores.Some?
    requires CouldBeAt(p.w, id, p.ms[unknown[j]].x, p.ms[unknown[j]].y)
    ensures var e, i := SettledAmong(p, side, cands), unknown[j];
            || OnBetterLikeness(p, e, id, Likeness(p.ms[i], id))
            || exists b | b in e :: e[b] == i && Likeness(p.ms[i], b) >= Likeness(p.ms[i], id)
  {
    hide Assign, CouldBeAt;
    var icons, i := IconsAt(p, unknown), unknown[j];
    var r, e := Assign(p.w, icons, cands), SettledAmong(p, side, cands);
    LikenessDecides(p.w, icons, cands, j, id);
    assert forall x | x in r && r[x] < |unknown| :: x in e && e[x] == unknown[r[x]];
    if !OnBetterMatch(icons, r, id, LikenessOf(icons[j], id)) {
      var b :| b in r && r[b] == j && LikenessOf(icons[j], b) >= LikenessOf(icons[j], id);
      assert b in e && e[b] == i;
    }
  }

  /** An ally seen in the last 3 s can be under this icon. */
  ghost predicate Shelter(p: Map, id: string, i: nat) {
    && IsAlly(p.w.players, id) && id in p.w.lastSeen && p.w.nowMs - p.w.lastSeen[id].ms <= 3000
    && Shows(p, i) && p.ms[i].side == Ally && CouldBeAt(p.w, id, p.ms[i].x, p.ms[i].y)
  }

  function Distance(p: Map, id: string, i: nat): real
    requires i < |p.ms| && id in p.w.lastSeen
  {
    p.w.hypot(p.ms[i].x - p.w.lastSeen[id].x, p.ms[i].y - p.w.lastSeen[id].y)
  }

  /** Of the first n tracks that an ally can be under, one is the nearest. */
  lemma {:induction false} NearestExists(p: Map, id: string, n: nat) returns (i: nat)
    requires id in p.w.lastSeen && n <= |p.ms| && exists k: nat :: k < n && CouldBeUnder(p, id, k)
    ensures i < n && CouldBeUnder(p, id, i)
    ensures forall k: nat | k < n && CouldBeUnder(p, id, k) ::
              var seen := p.w.lastSeen[id];
              FarFrom(p, seen, i) <= FarFrom(p, seen, k) && (k < i ==> FarFrom(p, seen, i) < FarFrom(p, seen, k))
  {
    hide CouldBeUnder;
    if exists k: nat :: k < n - 1 && CouldBeUnder(p, id, k) {
      i := NearestExists(p, id, n - 1);
      if CouldBeUnder(p, id, n - 1) && FarFrom(p, p.w.lastSeen[id], n - 1) < FarFrom(p, p.w.lastSeen[id], i) {
        i := n - 1;
      }
    } else {
      i := n - 1;
    }
  }

  lemma UnderIff(p: Map, id: string)
    ensures (exists i: nat :: UnderAt(p, id, i)) <==> exists i: nat :: Shelter(p, id, i)
    ensures forall i: nat, k: nat | UnderAt(p, id, i) && Shelter(p, id, k) ::
              Shelter(p, id, i) && Distance(p, id, i) <= Distance(p, id, k)
  {
    hide CouldBeAt;
    if k: nat :| Shelter(p, id, k) {
      assert CouldBeUnder(p, id, k);
      var i := NearestExists(p, id, |p.ms|);
      assert UnderAt(p, id, i);
    }
    forall i: nat | UnderAt(p, id, i) ensures Shelter(p, id, i) {}
    forall i: nat, k: nat | UnderAt(p, id, i) && Shelter(p, id, k) ensures Distance(p, id, i) <= Distance(p, id, k) {
      assert CouldBeUnder(p, id, k);
    }
  }

  /** Nobody vanishes without a reason: a player is on some icon exactly if one that
    * shows has its name; or it lives, and elimination gives it one, or the icon it was
    * under still shows, or it is an ally seen in the last 3 s that could be under some
    * ally icon. */
  lemma PlacedIff(p: Map, id: string)
    ensures (exists i: nat :: IsAt(p, id, i)) <==>
            || (exists i: nat :: Shows(p, i) && p.ms[i].id == Some(id))
            || (&& IsPlayer(p.w.players, id) && id !in p.dead
                && (id in Eliminated(p) || RidesLive(p, id) || exists i: nat :: Shelter(p, id, i)))
  {
    hide Eliminated, RidesLive, UnderAt, Shelter;
    assert forall i: nat :: NamedAt(p, id, i) <==> Shows(p, i) && p.ms[i].id == Some(id);
    UnderIff(p, id);
    if NamedLive(p, id) {
      var i: nat :| NamedAt(p, id, i);
      assert IsAt(p, id, i);
    } else if IsPlayer(p.w.players, id) && id !in p.dead {
      if id in Eliminated(p) { assert IsAt(p, id, Eliminated(p)[id]); }
      else if RidesLive(p, id) { RiderIsAt(p, id); }
      else if i: nat :| UnderAt(p, id, i) { assert IsAt(p, id, i); }
    }
  }

  lemma RiderIsAt(p: Map, id: string)
    requires !NamedLive(p, id) && IsPlayer(p.w.players, id) && id !in p.dead
    requires id !in Eliminated(p) && RidesLive(p, id)
    ensures exists i: nat :: IsAt(p, id, i)
  {
    hide Eliminated;
    assert IsAt(p, id, RideOf(p.rides, id).value.host.at);
  }

  /** And on which: its own, before what elimination gives it, before the one it was
    * under, before the nearest. */
  lemma PlacedWhere(p: Map, id: string, i: nat)
    requires IsAt(p, id, i)
    ensures var named, riding := exists k: nat :: Shows(p, k) && p.ms[k].id == Some(id), RidesLive(p, id);
            && (named ==> Shows(p, i) && p.ms[i].id == Some(id))
            && (!named && id in Eliminated(p) ==> i == Eliminated(p)[id])
            && (!named && id !in Eliminated(p) && riding ==> exists r | r in p.rides :: r.id == id && r.host == On(i))
            && (!named && id !in Eliminated(p) && !riding ==>
                  Shelter(p, id, i) && forall k: nat | Shelter(p, id, k) :: Distance(p, id, i) <= Distance(p, id, k))
  {
    hide Eliminated, UnderAt, Shelter;
    assert forall k: nat :: NamedAt(p, id, k) <==> Shows(p, k) && p.ms[k].id == Some(id);
    UnderIff(p, id);
  }

  // ---------- Who is heard ----------

  /** A living player, not the local one, who is on a live track inside the box. */
  ghost predicate HeardAt(p: Map, id: string, i: nat) {
    && IsAt(p, id, i) && LiveAt(p, i) && InBox(p.w, p.ms[i].x, p.ms[i].y)
    && IsPlayer(p.w.players, id) && !IsSelf(p.w.players, id) && id !in p.dead
  }

  function UnknownInBox(p: Map): set<nat> {
    set i: nat | i < |p.ms| && IsLive(p.ms[i], p.w.nowMs) && p.ms[i].id == None && InBox(p.w, p.ms[i].x, p.ms[i].y)
  }

  /** Exactly those are heard, and no more of them by elimination than there are
    * unknown icons in the box. */
  ghost predicate RightlyHeard(p: Map, out: set<string>) {
    && (forall id :: id in out <==> exists i: nat :: HeardAt(p, id, i))
    && |out * Eliminated(p).Keys| <= |UnknownInBox(p)|
  }

  /** Whoever is on an icon is a player, on a live track. */
  lemma IsAtIsLive(p: Map, id: string, i: nat)
    requires DistinctIds(p.w.players) && MarksOk(p.w.players, p.ms) && IsAt(p, id, i)
    ensures LiveAt(p, i) && IsPlayer(p.w.players, id)
  {
    hide Eliminated;
    EliminatedIsSound(p);
    if NamedLive(p, id) { assert MarkOk(p.w.players, p.ms[i]); }
  }

  lemma EliminationIsBounded(p: Map, out: set<string>)
    requires DistinctIds(p.w.players) && forall id | id in out :: exists i: nat :: HeardAt(p, id, i)
    ensures |out * Eliminated(p).Keys| <= |UnknownInBox(p)|
  {
    hide Eliminated;
    EliminatedIsSound(p);
    forall id | id in out * Eliminated(p).Keys ensures Eliminated(p)[id] in UnknownInBox(p) {
      var i: nat :| HeardAt(p, id, i);
    }
    OneToOneCounts(Eliminated(p), out * Eliminated(p).Keys, UnknownInBox(p));
  }

  lemma AllLiveAt(p: Map, at: map<string, nat>)
    requires DistinctIds(p.w.players) && MarksOk(p.w.players, p.ms) && PlacesAll(p, at)
    ensures forall id | id in at :: at[id] < |p.ms|
  {
    hide IsAt;
    forall id | id in at ensures at[id] < |p.ms| {
      assert IsAt(p, id, at[id]);
      IsAtIsLive(p, id, at[id]);
    }
  }

  /** Whoever is placed at a place to be heard is heard there. */
  lemma HeardIff(p: Map, at: map<string, nat>, id: string)
    requires DistinctIds(p.w.players) && MarksOk(p.w.players, p.ms) && PlacesAll(p, at)
    ensures (exists i: nat :: HeardAt(p, id, i)) <==> id in at && MayBeHeard(p, id, at[id])
  {
    hide IsAt, InBox, IsSelf, MarksOk, DistinctIds;
    if id in at {
      assert IsAt(p, id, at[id]);
      IsAtIsLive(p, id, at[id]);
      if MayBeHeard(p, id, at[id]) { assert HeardAt(p, id, at[id]); }
    }
  }

  /** Inside the box, and neither the local player nor dead. */
  predicate MayBeHeard(p: Map, id: string, i: nat) {
    i < |p.ms| && InBox(p.w, p.ms[i].x, p.ms[i].y) && !IsSelf(p.w.players, id) && id !in p.dead
  }

  lemma HeardExactly(p: Map, at: map<string, nat>, out: set<string>)
    requires DistinctIds(p.w.players) && MarksOk(p.w.players, p.ms) && PlacesAll(p, at)
    requires out == set id | id in at && MayBeHeard(p, id, at[id])
    ensures RightlyHeard(p, out)
  {
    hide HeardAt, MayBeHeard, PlacesAll, MarksOk, DistinctIds;
    forall id ensures id in out <==> exists i: nat :: HeardAt(p, id, i) { HeardIff(p, at, id); }
    EliminationIsBounded(p, out);
  }

  /** Places everyone, and keeps those inside the box who are alive and not the
    * local player. */
  method AudibleNow(p: Map) returns (out: set<string>)
    requires DistinctIds(p.w.players) && MarksOk(p.w.players, p.ms)
    ensures RightlyHeard(p, out)
  {
    var at := PlaceAll(p);
    hide MarksOk, DistinctIds, PlacesAll, RightlyHeard, InBox, IsSelf;
    AllLiveAt(p, at);
    var inside := set id | id in at && InBox(p.w, p.ms[at[id]].x, p.ms[at[id]].y);
    out := set id | id in inside && !IsSelf(p.w.players, id) && id !in p.dead;
    HeardExactly(p, at, out);
  }
}
