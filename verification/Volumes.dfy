/** Who is heard and how loudly (server/src/volumes.ts): the team-aware scoring
  * of one request against the entries of a room. The distance between two points
  * is a parameter; nothing here depends on what it is. */
module TieredVolumes {
  import opened Options
  import opened Plane
  import opened RoomState
  import opened WsProtocol
  import opened WsRuns
  import opened WsHistory

  const MAX_HEARING_RANGE := 1350.0
  const FULL_VOLUME_RANGE := 900.0
  const STALE_POSITION_MS := 5_000

  type Metric = (Point, Point) -> real

  /** A request; `myPosition` is absent when it is not a pair of finite numbers. */
  datatype Request = Request(myPosition: Option<Point>, roomId: string, name: string, allyProximity: bool,
      alliesOnly: bool)

  datatype Response = Invalid | PeerVolumes(volumes: map<string, real>)

  function At(s: Stamped): Point { Point(s.x, s.y) }

  // ---------- Loudness by distance ----------

  function Times(a: real, b: real): real { a * b }

  lemma TimesPositive(a: real, b: real)
    requires 0.0 < a && 0.0 < b
    ensures 0.0 < Times(a, b)
  {
  }

  lemma TimesSplits(a: real, c: real, b: real)
    ensures Times(a + c, b) == Times(a, b) + Times(c, b)
  {
  }

  lemma TimesOne(b: real)
    ensures Times(1.0, b) == b
  {
  }

  lemma TimesShrinks(a: real, b: real)
    requires 0.0 < a < 1.0 && 0.0 < b
    ensures 0.0 < Times(a, b) < b
  {
    hide Times;
    TimesPositive(a, b);
    TimesPositive(1.0 - a, b);
    TimesSplits(a, 1.0 - a, b);
    assert a + (1.0 - a) == 1.0;
    TimesOne(b);
  }

  lemma SquaresGrow(a: real, b: real)
    requires 0.0 < a <= b
    ensures Times(a, a) <= Times(b, b)
  {
    if a < b {
      TimesPositive(b - a, a);
      TimesPositive(b - a, b);
      TimesSplits(b - a, a, a);
      TimesSplits(b - a, a, b);
      assert Times(a, b) == Times(b, a);
    }
  }

  /** The quadratic fade across the outer band. */
  function Fade(t: real): real { if 1.0 - Times(t, t) >= 0.0 then 1.0 - Times(t, t) else 0.0 }

  function CalculateVolume(distance: real): real {
    if distance >= MAX_HEARING_RANGE then 0.0
    else if distance <= FULL_VOLUME_RANGE then 1.0
    else Fade((distance - FULL_VOLUME_RANGE) / (MAX_HEARING_RANGE - FULL_VOLUME_RANGE))
  }

  /** Full volume exactly up to 900, silence exactly from 1350, and never louder
    * for being further away. */
  lemma VolumeFallsOff(near: real, far: real)
    requires near <= far
    ensures 0.0 <= CalculateVolume(far) <= CalculateVolume(near) <= 1.0
    ensures CalculateVolume(near) == 0.0 <==> near >= 1350.0
    ensures CalculateVolume(near) == 1.0 <==> near <= 900.0
  {
    var t := (near - FULL_VOLUME_RANGE) / (MAX_HEARING_RANGE - FULL_VOLUME_RANGE);
    var u := (far - FULL_VOLUME_RANGE) / (MAX_HEARING_RANGE - FULL_VOLUME_RANGE);
    if 0.0 < t < 1.0 { TimesShrinks(t, t); }
    if 0.0 < u < 1.0 { TimesShrinks(u, u); }
    if 0.0 < t && u < 1.0 { SquaresGrow(t, u); }
  }

  /** In the 450 between, the volume falls by the square of how far in it is. */
  lemma VolumeInBand(d: real)
    requires 900.0 <= d <= 1350.0
    ensures 202500.0 * (1.0 - CalculateVolume(d)) == Times(d - 900.0, d - 900.0)
  {
    var t := (d - 900.0) / 450.0;
    assert 450.0 * t == d - 900.0;
    assert Times(d - 900.0, d - 900.0) == 202500.0 * Times(t, t) by { TimesScaled(450.0, t); }
    if 0.0 < t < 1.0 { TimesShrinks(t, t); }
  }

  lemma TimesScaled(k: real, t: real)
    ensures Times(k * t, k * t) == k * k * Times(t, t)
  {
  }

  // ---------- Closest approach ----------

  datatype Reach = Infinite | Finite(d: real)

  /** The smallest distance from a point of `a` to a point of `b`, infinite when
    * there is no such pair. */
  ghost predicate IsClosest(best: Reach, a: seq<Point>, b: seq<Point>, dist: Metric) {
    && (best.Finite? ==> exists i, j | 0 <= i < |a| && 0 <= j < |b| :: dist(a[i], b[j]) == best.d)
    && (best.Infinite? ==> a == [] || b == [])
    && forall i, j | 0 <= i < |a| && 0 <= j < |b| :: best.Finite? && best.d <= dist(a[i], b[j])
  }

  method ClosestApproach(a: seq<Point>, b: seq<Point>, dist: Metric) returns (best: Reach)
    ensures IsClosest(best, a, b, dist)
  {
    best := Infinite;
    for i := 0 to |a|
      invariant best.Finite? ==> exists k, l | 0 <= k < i && 0 <= l < |b| :: dist(a[k], b[l]) == best.d
      invariant best.Infinite? ==> i == 0 || b == []
      invariant forall k, l | 0 <= k < i && 0 <= l < |b| :: best.Finite? && best.d <= dist(a[k], b[l])
    {
      for j := 0 to |b|
        invariant best.Finite? ==> exists k, l | 0 <= k <= i && 0 <= l < |b| :: dist(a[k], b[l]) == best.d
        invariant best.Infinite? ==> (i == 0 && j == 0) || b == []
        invariant forall k, l | 0 <= k < i && 0 <= l < |b| :: best.Finite? && best.d <= dist(a[k], b[l])
        invariant forall l | 0 <= l < j :: best.Finite? && best.d <= dist(a[i], b[l])
      {
        var d := dist(a[i], b[j]);
        if best.Infinite? || d < best.d { best := Finite(d); }
      }
    }
  }

  // ---------- One peer ----------

  predicate Fresh(s: Option<Stamped>, now: int) { s.Some? && s.value.updatedMs >= now - STALE_POSITION_MS }

  predicate IsAlly(me: Member, peer: Member) { me.team.Some? && peer.team == me.team }

  /** Where to score an ally: the latest place reported for it, a position before
    * a last sighting of the same time, if no older than the window. */
  function AllyAnchor(peer: Member, now: int): Option<Stamped> {
    var latest := match (peer.position, peer.lastSeen)
                  case (Some(p), Some(s)) => if s.updatedMs > p.updatedMs then Some(s) else Some(p)
                  case (Some(p), None) => Some(p)
                  case (None, s) => s;
    if latest.Some? && latest.value.updatedMs >= now - LOST_ALLY_ANCHOR_MS then latest else None
  }

  /** Where a peer is scored, if anywhere: an ally at its anchor, anyone else at a
    * fresh position. */
  function PlaceOfPeer(me: Member, peer: Member, now: int): Option<Point> {
    if IsAlly(me, peer) then (match AllyAnchor(peer, now) case Some(s) => Some(At(s)) case None => None)
    else if Fresh(peer.position, now) then Some(At(peer.position.value)) else None
  }

  predicate BothOptedIn(me: Member, peer: Member, now: int) { Fresh(me.camera, now) && Fresh(peer.camera, now) }

  /** How far a listener at `here`, and at its camera if both opted in, is from a place. */
  function Hearing(dist: Metric, here: Point, me: Member, peer: Member, place: Point, now: int): real {
    var d := dist(here, place);
    if BothOptedIn(me, peer, now) && dist(At(me.camera.value), place) < d then dist(At(me.camera.value), place) else d
  }

  /** What a request is told of a peer: a volume, or nothing at all. */
  function Score(dist: Metric, req: Request, here: Point, me: Member, peer: Member, now: int): Option<real> {
    var ally := IsAlly(me, peer);
    var place := PlaceOfPeer(me, peer, now);
    if req.alliesOnly && !ally then None
    else if ally && (!req.allyProximity || place.None?) then Some(1.0)
    else if place.None? then None
    else
      var d := Hearing(dist, here, me, peer, place.value, now);
      if d >= MAX_HEARING_RANGE then None else Some(CalculateVolume(d))
  }

  /** Every other entry scored in the order of the room, a later entry of a name
    * replacing an earlier one. */
  function ScoreAll(dist: Metric, req: Request, here: Point, me: Member, peers: seq<Member>, now: int)
    : map<string, real>
  {
    if peers == [] then map[]
    else
      var rest := ScoreAll(dist, req, here, me, peers[..|peers| - 1], now);
      var peer := peers[|peers| - 1];
      if peer.name == me.name then rest
      else match Score(dist, req, here, me, peer, now) case Some(v) => rest[peer.name := v] case None => rest
  }

  function Volumes(dist: Metric, req: Request, clients: seq<Member>, now: int): Response {
    if req.myPosition.None? || req.roomId == "" || req.name == "" then Invalid
    else
      var me := FindName(clients, req.name);
      if me.None? then PeerVolumes(map[])
      else PeerVolumes(ScoreAll(dist, req, req.myPosition.value, clients[me.value], clients, now))
  }

  /** One turn of the server's loop: what this peer's entry becomes, if anything. */
  method ScorePeer(dist: Metric, req: Request, here: Point, me: Member, peer: Member, now: int)
      returns (r: Option<real>)
    ensures r == Score(dist, req, here, me, peer, now)
  {
    var legacy := me.team.None?;
    var cutoff := now - STALE_POSITION_MS;
    var myCamera := if me.camera.Some? && me.camera.value.updatedMs >= cutoff then me.camera else None;
    var ally := !legacy && peer.team == me.team;
    if req.alliesOnly && !ally { return None; }
    var anchor := if ally then AllyAnchor(peer, now) else None;
    if ally && (!req.allyProximity || anchor.None?) { return Some(1.0); }
    var peerPos := if anchor.Some? then anchor else peer.position;
    if peerPos.None? { return None; }
    if anchor.None? && peerPos.value.updatedMs < cutoff { return None; }
    var bothOptedIn := myCamera.Some? && peer.camera.Some? && peer.camera.value.updatedMs >= cutoff;
    var myPoints := if bothOptedIn then [here, At(myCamera.value)] else [here];
    var reach := ClosestApproach(myPoints, [At(peerPos.value)], dist);
    ReachIsHearing(dist, here, me, peer, At(peerPos.value), now, reach);
    if reach.d >= MAX_HEARING_RANGE { return None; }
    r := Some(CalculateVolume(reach.d));
  }

  /** The scoring as the server runs it, peer by peer. */
  method ComputeTieredVolumes(dist: Metric, req: Request, clients: seq<Member>, now: int) returns (r: Response)
    ensures r == Volumes(dist, req, clients, now)
  {
    if req.myPosition.None? { return Invalid; }
    if req.roomId == "" || req.name == "" { return Invalid; }
    var i := FindName(clients, req.name);
    if i.None? { return PeerVolumes(map[]); }
    var me, here := clients[i.value], req.myPosition.value;
    var volumes: map<string, real> := map[];
    for k := 0 to |clients|
      invariant volumes == ScoreAll(dist, req, here, me, clients[..k], now)
    {
      var peer := clients[k];
      assert clients[..k + 1][..k] == clients[..k];
      if peer.name == me.name { continue; }
      var score := ScorePeer(dist, req, here, me, peer, now);
      if score.Some? { volumes := volumes[peer.name := score.value]; }
    }
    assert clients[..|clients|] == clients;
    r := PeerVolumes(volumes);
  }

  lemma ReachIsHearing(dist: Metric, here: Point, me: Member, peer: Member, place: Point, now: int, reach: Reach)
    requires IsClosest(reach, if BothOptedIn(me, peer, now) then [here, At(me.camera.value)] else [here], [place], dist)
    ensures reach == Finite(Hearing(dist, here, me, peer, place, now))
  {
    var mine := if BothOptedIn(me, peer, now) then [here, At(me.camera.value)] else [here];
    assert mine[0] == here && [place][0] == place;
    assert BothOptedIn(me, peer, now) ==> mine[1] == At(me.camera.value);
  }

  // ---------- What one peer's score depends on ----------

  function Loudness(score: Option<real>): real { if score.Some? then score.value else 0.0 }

  function Max(a: real, b: real): real { if a >= b then a else b }

  lemma ScoreInRange(dist: Metric, req: Request, here: Point, me: Member, peer: Member, now: int)
    ensures var score := Score(dist, req, here, me, peer, now); score.Some? ==> 0.0 < score.value <= 1.0
  {
    var place := PlaceOfPeer(me, peer, now);
    if place.Some? {
      var d := Hearing(dist, here, me, peer, place.value, now);
      VolumeFallsOff(d, d);
    }
  }

  /** Both have published a camera in the last 5 s. */
  predicate BothPublished(me: Member, peer: Member, now: int) {
    && me.camera.Some? && now - me.camera.value.updatedMs <= 5000
    && peer.camera.Some? && now - peer.camera.value.updatedMs <= 5000
  }

  /** Within `range` of the requester's champion, or of the requester's camera when
    * both have published one. */
  predicate WithinOf(dist: Metric, here: Point, me: Member, peer: Member, place: Point, now: int, range: real) {
    dist(here, place) <= range || (BothPublished(me, peer, now) && dist(Camera(me), place) <= range)
  }

  predicate NearerThan(dist: Metric, here: Point, me: Member, peer: Member, place: Point, now: int, range: real) {
    dist(here, place) < range || (BothPublished(me, peer, now) && dist(Camera(me), place) < range)
  }

  function Camera(m: Member): Point
    requires m.camera.Some?
  {
    Point(m.camera.value.x, m.camera.value.y)
  }

  /** This is the latest place reported for a peer, and no older than 20 s: its
    * position, unless a last sighting is newer. */
  predicate LatestPlace(peer: Member, now: int, at: Stamped) {
    && now - at.updatedMs <= 20_000
    && (|| (peer.position == Some(at) && (peer.lastSeen.Some? ==> peer.lastSeen.value.updatedMs <= at.updatedMs))
        || (peer.lastSeen == Some(at) && (peer.position.Some? ==> peer.position.value.updatedMs < at.updatedMs)))
  }

  lemma AnchorIsLatestPlace(peer: Member, now: int, at: Stamped)
    ensures AllyAnchor(peer, now) == Some(at) <==> LatestPlace(peer, now, at)
  {
  }

  /** The louder of a place's volume at the champion and, when both have published a
    * camera, at the camera. */
  function LouderAt(dist: Metric, here: Point, me: Member, peer: Member, place: Point, now: int): real {
    var champion := CalculateVolume(dist(here, place));
    if BothPublished(me, peer, now) then Max(champion, CalculateVolume(dist(Camera(me), place))) else champion
  }

  /** Where a peer is scored by distance: a teammate under ally proximity at its latest
    * place of the last 20 s, anyone else at a position of the last 5 s. */
  predicate ScoredAt(req: Request, me: Member, peer: Member, now: int, at: Stamped) {
    if me.team.Some? && peer.team == me.team then req.allyProximity && LatestPlace(peer, now, at)
    else !req.alliesOnly && peer.position == Some(at) && now - at.updatedMs <= 5000
  }

  /** A peer scored by distance is as loud as it is at the champion or, when both
    * players have published a camera, at the camera, whichever is louder; and it is in
    * the answer exactly when that is not silence. */
  lemma ScoredByDistance(dist: Metric, req: Request, here: Point, me: Member, peer: Member, now: int, at: Stamped)
    requires ScoredAt(req, me, peer, now, at)
    ensures var score := Score(dist, req, here, me, peer, now);
            && Loudness(score) == LouderAt(dist, here, me, peer, Point(at.x, at.y), now)
            && (score.Some? <==> Loudness(score) > 0.0)
  {
    AnchorIsLatestPlace(peer, now, at);
    var place := Point(at.x, at.y);
    var d := Hearing(dist, here, me, peer, place, now);
    VolumeFallsOff(d, d);
    if BothPublished(me, peer, now) {
      VolumeFallsOff(d, dist(here, place));
      VolumeFallsOff(d, dist(Camera(me), place));
    }
  }

  /** A peer scored nowhere: a teammate is then at full volume, anyone else not heard. */
  lemma ScoredNowhere(dist: Metric, req: Request, here: Point, me: Member, peer: Member, now: int)
    requires forall at :: !ScoredAt(req, me, peer, now, at)
    ensures Score(dist, req, here, me, peer, now) ==
            if me.team.Some? && peer.team == me.team then Some(1.0) else None
  {
    var anchor := AllyAnchor(peer, now);
    if anchor.Some? {
      AnchorIsLatestPlace(peer, now, anchor.value);
      assert !ScoredAt(req, me, peer, now, anchor.value);
    }
    if peer.position.Some? { assert !ScoredAt(req, me, peer, now, peer.position.value); }
  }

  /** When a teammate is at full volume: exactly when ally proximity is off, or no
    * place of the last 20 s is known of it, or the latest such place is within 900. */
  lemma AllyFullIff(dist: Metric, req: Request, here: Point, me: Member, peer: Member, now: int)
    requires me.team.Some? && peer.team == me.team
    ensures Score(dist, req, here, me, peer, now) == Some(1.0) <==>
              || !req.allyProximity
              || forall at | LatestPlace(peer, now, at) ::
                   WithinOf(dist, here, me, peer, Point(at.x, at.y), now, 900.0)
  {
    var anchor := AllyAnchor(peer, now);
    forall at ensures LatestPlace(peer, now, at) <==> anchor == Some(at) { AnchorIsLatestPlace(peer, now, at); }
    if req.allyProximity && anchor.Some? {
      var d := Hearing(dist, here, me, peer, At(anchor.value), now);
      VolumeFallsOff(d, d);
      assert LatestPlace(peer, now, anchor.value);
    }
  }

  /** And when a teammate is heard at all: exactly when ally proximity is off, or no
    * place of the last 20 s is known of it, or that place is nearer than 1350. */
  lemma AllyHeardIff(dist: Metric, req: Request, here: Point, me: Member, peer: Member, now: int)
    requires me.team.Some? && peer.team == me.team
    ensures Score(dist, req, here, me, peer, now).Some? <==>
              || !req.allyProximity
              || forall at | LatestPlace(peer, now, at) ::
                  NearerThan(dist, here, me, peer, Point(at.x, at.y), now, 1350.0)
  {
    var anchor := AllyAnchor(peer, now);
    forall at ensures LatestPlace(peer, now, at) <==> anchor == Some(at) { AnchorIsLatestPlace(peer, now, at); }
    if req.allyProximity && anchor.Some? { assert LatestPlace(peer, now, anchor.value); }
  }

  /** So a teammate with no fresh position need not be: one last reported 6 s ago, out
    * of range, is not in the answer at all. */
  lemma AllyNotFreshNotHeard(dist: Metric) returns (req: Request, me: Member, peer: Member, now: int)
    requires dist(Point(0.0, 0.0), Point(2000.0, 0.0)) >= MAX_HEARING_RANGE
    ensures req.allyProximity && IsAlly(me, peer) && !Fresh(peer.position, now)
    ensures Score(dist, req, Point(0.0, 0.0), me, peer, now) == None
  {
    req, now := Request(Some(Point(0.0, 0.0)), "r", "a", true, false), 6000;
    me := Member("r", "a", 0, Some(ORDER), Some(Stamped(0.0, 0.0, now)), None, None, false);
    peer := Member("r", "b", 1, Some(ORDER), Some(Stamped(2000.0, 0.0, 0)), None, None, false);
  }

  /** Whom the hearing range protects: anyone not on the requester's team, everyone if
    * the requester has none, is heard exactly when it stands at a position of the last
    * 5 s nearer than 1350, and the requester does not want allies alone. */
  lemma StrangerHeardIff(dist: Metric, req: Request, here: Point, me: Member, peer: Member, now: int)
    requires me.team.None? || peer.team != me.team
    ensures Score(dist, req, here, me, peer, now).Some? <==>
              && !req.alliesOnly
              && peer.position.Some? && now - peer.position.value.updatedMs <= 5000
              && NearerThan(dist, here, me, peer, Point(peer.position.value.x, peer.position.value.y), now, 1350.0)
  {
  }

  /** The requester's own camera, there or not and wherever it is, is nothing to a
    * peer that has not published a fresh one. */
  lemma OwnCameraNeedsTheirs(dist: Metric, req: Request, here: Point, me: Member, peer: Member, now: int,
      camera: Option<Stamped>)
    requires !Fresh(peer.camera, now)
    ensures Score(dist, req, here, me.(camera := camera), peer, now) == Score(dist, req, here, me, peer, now)
  {
  }

  // ---------- What a whole answer depends on ----------

  ghost predicate Scores(volumes: map<string, real>, n: string, score: Option<real>) {
    if n in volumes then score == Some(volumes[n]) else score == None
  }

  /** With unique names, the answer holds each other entry's own score, and
    * nothing else. */
  lemma {:induction false} ScoreAllOf(dist: Metric, req: Request, here: Point, me: Member, peers: seq<Member>, now: int)
    requires DistinctNames(peers)
    ensures var v := ScoreAll(dist, req, here, me, peers, now);
            && (forall n | n in v :: n != me.name && exists m | m in peers :: m.name == n)
            && (forall m | m in peers && m.name != me.name :: Scores(v, m.name, Score(dist, req, here, me, m, now)))
  {
    if peers != [] {
      var init, last := peers[..|peers| - 1], peers[|peers| - 1];
      ScoreAllOf(dist, req, here, me, init, now);
      assert peers == init + [last];
      var v0, v := ScoreAll(dist, req, here, me, init, now), ScoreAll(dist, req, here, me, peers, now);
      forall m | m in init ensures m.name != last.name {
        var i :| 0 <= i < |init| && init[i] == m;
        assert peers[i].name != peers[|peers| - 1].name;
      }
      assert last.name !in v0;
      forall m | m in peers && m.name != me.name ensures Scores(v, m.name, Score(dist, req, here, me, m, now)) {
        if m in init { assert Scores(v0, m.name, Score(dist, req, here, me, m, now)); }
      }
    }
  }

  /** Two rooms whose entries answer name for name give the same answer. */
  lemma SameScores(dist: Metric, req: Request, here: Point, me: Member, a: seq<Member>, me': Member, b: seq<Member>,
      now: int)
    requires DistinctNames(a) && DistinctNames(b) && me'.name == me.name
    requires forall m | m in a && m.name != me.name ::
               exists m' | m' in b ::
                 m'.name == m.name && Score(dist, req, here, me', m', now) == Score(dist, req, here, me, m, now)
    requires forall m' | m' in b && m'.name != me.name :: exists m | m in a :: m.name == m'.name
    ensures ScoreAll(dist, req, here, me, a, now) == ScoreAll(dist, req, here, me', b, now)
  {
    hide Score, ScoreAll;
    var v, v' := ScoreAll(dist, req, here, me, a, now), ScoreAll(dist, req, here, me', b, now);
    ScoreAllOf(dist, req, here, me, a, now);
    ScoreAllOf(dist, req, here, me', b, now);
    forall n ensures (n in v <==> n in v') && (n in v ==> v[n] == v'[n]) {
      if n in v || n in v' {
        var m :| m in a && m.name == n && n != me.name;
        var m' :| m' in b && m'.name == m.name &&
            Score(dist, req, here, me', m', now) == Score(dist, req, here, me, m, now);
        assert Scores(v, n, Score(dist, req, here, me, m, now)) && Scores(v', n, Score(dist, req, here, me', m', now));
      }
    }
  }

  // ---------- What a whole answer does not depend on ----------

  /** A reading of the entries, one that keeps the requester's. */
  lemma Reread(dist: Metric, req: Request, a: seq<Member>, b: seq<Member>, now: int)
    requires DistinctNames(a) && |a| == |b| && forall i | 0 <= i < |a| :: b[i].name == a[i].name
    requires forall i, here | 0 <= i < |a| && FindName(a, req.name).Some? ::
               var j := FindName(a, req.name).value;
               i == j || Score(dist, req, here, b[j], b[i], now) == Score(dist, req, here, a[j], a[i], now)
    ensures Volumes(dist, req, a, now) == Volumes(dist, req, b, now)
  {
    SameFind(a, b, req.name);
    var j := FindName(a, req.name);
    forall i, k | 0 <= i < k < |b| ensures b[i].name != b[k].name { assert a[i].name != a[k].name; }
    if j.Some? && req.myPosition.Some? {
      var me, me', here := a[j.value], b[j.value], req.myPosition.value;
      forall m | m in a && m.name != me.name
        ensures exists m' | m' in b ::
                  m'.name == m.name && Score(dist, req, here, me', m', now) == Score(dist, req, here, me, m, now)
      {
        var i :| 0 <= i < |a| && a[i] == m;
        assert b[i] in b;
      }
      forall m' | m' in b && m'.name != me.name ensures exists m | m in a :: m.name == m'.name {
        var i :| 0 <= i < |b| && b[i] == m';
        assert a[i] in a;
      }
      SameScores(dist, req, here, me, a, me', b, now);
    }
  }

  lemma {:induction false} SameFind(a: seq<Member>, b: seq<Member>, name: string)
    requires |a| == |b| && forall i | 0 <= i < |a| :: b[i].name == a[i].name
    ensures FindName(a, name) == FindName(b, name)
  {
    if a != [] {
      forall i | 0 <= i < |a| - 1 ensures b[1..][i].name == a[1..][i].name { assert b[i + 1].name == a[i + 1].name; }
      SameFind(a[1..], b[1..], name);
    }
  }

  /** The same entry but for where its camera is: as much there, and as fresh. */
  predicate SameButCamera(m: Member, m': Member, now: int) {
    m' == m.(camera := m'.camera) && (Fresh(m'.camera, now) <==> Fresh(m.camera, now))
  }

  /** Nobody is heard at their camera: moving the cameras of others changes
    * nothing in the answer. */
  lemma OthersCamerasAreIrrelevant(dist: Metric, req: Request, a: seq<Member>, b: seq<Member>, now: int)
    requires DistinctNames(a) && |a| == |b|
    requires forall i | 0 <= i < |a| :: if a[i].name == req.name then b[i] == a[i] else SameButCamera(a[i], b[i], now)
    ensures Volumes(dist, req, a, now) == Volumes(dist, req, b, now)
  {
    Reread(dist, req, a, b, now);
  }

  /** The same entry but for its last sighting. */
  predicate SameButSighting(m: Member, m': Member) { m' == m.(lastSeen := m'.lastSeen) }

  /** Last sightings are for teammates: changing that of anyone else, or of
    * anyone at all when the requester has no team, changes nothing. */
  lemma SightingsAreForTeammates(dist: Metric, req: Request, a: seq<Member>, b: seq<Member>, now: int)
    requires DistinctNames(a) && |a| == |b|
    requires forall i | 0 <= i < |a| :: SameButSighting(a[i], b[i])
    requires forall i, j | 0 <= i < |a| && 0 <= j < |a| && a[j].name == req.name && b[i] != a[i] ::
               i == j || a[j].team.None? || a[i].team != a[j].team
    ensures Volumes(dist, req, a, now) == Volumes(dist, req, b, now)
  {
    Reread(dist, req, a, b, now);
  }

  /** The answer does not depend on the order of the room. */
  lemma OrderIsIrrelevant(dist: Metric, req: Request, a: seq<Member>, b: seq<Member>, now: int)
    requires DistinctNames(a) && multiset(a) == multiset(b)
    ensures Volumes(dist, req, a, now) == Volumes(dist, req, b, now)
  {
    SameMultisetSameMembers(a, b);
    PermutedNames(a, b);
    var j, k := FindName(a, req.name), FindName(b, req.name);
    if j.Some? && req.myPosition.Some? {
      assert a[j.value] in b;
      assert k.Some?;
      assert b[k.value] in a;
      SameNameSameEntry(a, a[j.value], b[k.value]);
      SameScores(dist, req, req.myPosition.value, a[j.value], a, b[k.value], b, now);
    } else if k.Some? {
      assert b[k.value] in a;
    }
  }

  lemma SameMultisetSameMembers(a: seq<Member>, b: seq<Member>)
    requires multiset(a) == multiset(b)
    ensures |a| == |b| && forall m :: m in a <==> m in b
  {
    assert |a| == |multiset(a)| == |multiset(b)| == |b|;
    forall m ensures m in a <==> m in b { assert m in a <==> m in multiset(a); }
  }

  lemma SameNameSameEntry(a: seq<Member>, m: Member, m': Member)
    requires DistinctNames(a) && m in a && m' in a && m.name == m'.name
    ensures m == m'
  {
    var i :| 0 <= i < |a| && a[i] == m;
    var j :| 0 <= j < |a| && a[j] == m';
  }

  /** A list of unique entries has each once, so any order of it is as unique. */
  lemma PermutedNames(a: seq<Member>, b: seq<Member>)
    requires DistinctNames(a) && multiset(a) == multiset(b)
    ensures DistinctNames(b)
  {
    SameMultisetSameMembers(a, b);
    forall i, j | 0 <= i < j < |b| ensures b[i].name != b[j].name {
      if b[i].name == b[j].name {
        assert b[i] in b && b[j] in b;
        SameNameSameEntry(a, b[i], b[j]);
        TwiceInMultiset(b, i, j);
        OnceInMultiset(a, b[i]);
      }
    }
  }

  lemma TwiceInMultiset(b: seq<Member>, i: nat, j: nat)
    requires i < j < |b| && b[i] == b[j]
    ensures multiset(b)[b[i]] >= 2
  {
    assert b == b[..i] + [b[i]] + b[i + 1..j] + [b[j]] + b[j + 1..];
  }

  lemma OnceInMultiset(a: seq<Member>, m: Member)
    requires DistinctNames(a)
    ensures multiset(a)[m] <= 1
  {
    if m in a {
      var i :| 0 <= i < |a| && a[i] == m;
      assert a == a[..i] + [m] + a[i + 1..];
      assert m !in a[..i] && m !in a[i + 1..];
    }
  }

  /** The whole answer for one peer, in any room of unique names: scored by distance,
    * it is as loud as the louder of champion and camera, and absent when that is
    * silence; scored nowhere, a teammate is at full volume and anyone else absent. */
  lemma AnswerExactly(dist: Metric, req: Request, clients: seq<Member>, now: int, me: Member, peer: Member)
    requires req.myPosition.Some? && req.roomId != "" && req.name != "" && DistinctNames(clients)
    requires me in clients && me.name == req.name && peer in clients && peer.name != req.name
    ensures var r, here := Volumes(dist, req, clients, now), req.myPosition.value;
            && r.PeerVolumes?
            && (forall at | ScoredAt(req, me, peer, now, at) ::
                  var loud := LouderAt(dist, here, me, peer, Point(at.x, at.y), now);
                  Scores(r.volumes, peer.name, if loud > 0.0 then Some(loud) else None))
            && ((forall at :: !ScoredAt(req, me, peer, now, at)) ==>
                  Scores(r.volumes, peer.name, if me.team.Some? && peer.team == me.team then Some(1.0) else None))
  {
    hide Score, LouderAt, ScoredAt;
    var here := req.myPosition.value;
    var i := FindName(clients, req.name);
    SameNameSameEntry(clients, me, clients[i.value]);
    ScoreAllOf(dist, req, here, me, clients, now);
    assert Scores(Volumes(dist, req, clients, now).volumes, peer.name, Score(dist, req, here, me, peer, now));
    forall at | ScoredAt(req, me, peer, now, at)
      ensures var loud := LouderAt(dist, here, me, peer, Point(at.x, at.y), now);
              Score(dist, req, here, me, peer, now) == if loud > 0.0 then Some(loud) else None
    {
      ScoredByDistance(dist, req, here, me, peer, now, at);
    }
    if forall at :: !ScoredAt(req, me, peer, now, at) { ScoredNowhere(dist, req, here, me, peer, now); }
  }

  // ---------- Reachable rooms ----------

  /** In every reachable room the answer is exactly each other entry's score,
    * every volume in it above silence and at most full. */
  lemma ReachableAnswers(es: seq<Event>, dist: Metric, req: Request, now: int, me: Member)
    requires LegalRun(es) && req.myPosition.Some? && req.roomId != "" && req.name != ""
    requires FindInRoom(After(es).rooms, req.roomId, req.name) == Some(me)
    ensures var clients := RoomOf(After(es).rooms, req.roomId);
            var r := Volumes(dist, req, clients, now);
            && r.PeerVolumes?
            && (forall n | n in r.volumes ::
                  n != req.name && 0.0 < r.volumes[n] <= 1.0 && exists m | m in clients :: m.name == n)
            && (forall m | m in clients && m.name != req.name ::
                  Scores(r.volumes, m.name, Score(dist, req, req.myPosition.value, me, m, now)))
  {
    var s := After(es).rooms;
    var clients := RoomOf(s, req.roomId);
    RunKeeps(es);
    if req.roomId in s.rooms { assert RoomOk(s, req.roomId); }
    ScoreAllOf(dist, req, req.myPosition.value, me, clients, now);
    var v := Volumes(dist, req, clients, now).volumes;
    forall n | n in v ensures 0.0 < v[n] <= 1.0 {
      var m :| m in clients && m.name == n;
      assert Scores(v, m.name, Score(dist, req, req.myPosition.value, me, m, now));
      ScoreInRange(dist, req, req.myPosition.value, me, m, now);
    }
  }

  /** Whether a sighting, reported at `at`, may still be scored. */
  predicate StillScored(seen: Sighting, at: int, now: int) {
    now <= at - ClampAge(seen.agoMs) + LOST_ALLY_ANCHOR_MS
  }

  lemma ExpiredIsNothing(dist: Metric, req: Request, here: Point, me: Member, peer: Member, now: int)
    requires peer.lastSeen.Some? ==> peer.lastSeen.value.updatedMs < now - LOST_ALLY_ANCHOR_MS
    ensures Score(dist, req, here, me, peer, now) == Score(dist, req, here, me, peer.(lastSeen := None), now)
  {
  }

  /** A sighting reported at t with age a is never scored after
    * t - clamp(a, 0, 20000) + 20000, through any number of takeovers: wherever an
    * entry's last sighting makes any difference to its score, that sighting is
    * one reported for its room and name which is not past that time. */
  lemma SightingsExpire(es: seq<Event>, dist: Metric, req: Request, here: Point, me: Member, ws: Ws, now: int)
    requires LegalRun(es) && ws in After(es).rooms.clients
    requires var m := After(es).rooms.clients[ws];
             Score(dist, req, here, me, m, now) != Score(dist, req, here, me, m.(lastSeen := None), now)
    ensures var m := After(es).rooms.clients[ws];
            exists rec | rec in Sighted(es) :: ReportedFor(m, rec) && StillScored(rec.seen, rec.at, now)
  {
    hide Score;
    StoredSightingsWereReported(es);
    var m := After(es).rooms.clients[ws];
    assert SightingOk(m, Sighted(es));
    if m.lastSeen.None? || m.lastSeen.value.updatedMs < now - LOST_ALLY_ANCHOR_MS {
      ExpiredIsNothing(dist, req, here, me, m, now);
    }
    var rec :| rec in Sighted(es) && ReportedFor(m, rec);
  }
}
