/** The camera-mode tracker as the app runs it (src/services/camera-hearing.ts):
  * track objects updated in place, riders following their hosts. Each tick is
  * proved to make of the objects what IconTracks and IconRiders say of their
  * values, so the invariants of every run hold of them. What an observation looks
  * like is decided elsewhere; here it is any list of places, names and scores,
  * each name that of a player of the observation's side. */
module CameraHearingTracker {
  import opened Options
  import opened Elimination
  import opened IconTracks
  import opened IconRiders
  import opened HearingPlaces
  import opened CameraBoxSearch
  import opened CameraBoxTracking

  const AUDIBLE_HOLD_MS := 1000
  const IDENTIFY_INTERVAL_MS := 250

  class Track {
    const side: Side
    const bornMs: int
    var x: real
    var y: real
    var id: Option<string>
    var seenMs: int
    var observedMs: int
    var checkedMs: Option<int>
    var scores: Option<map<string, real>>

    constructor (o: Observation, nowMs: int)
      ensures Value() == NewMark(o, nowMs)
    {
      side, bornMs, x, y := o.side, nowMs, o.x, o.y;
      id, seenMs, observedMs, checkedMs, scores := None, nowMs, nowMs, None, None;
    }

    function Value(): Mark
      reads this
    {
      Mark(side, bornMs, x, y, id, seenMs, observedMs, checkedMs, scores)
    }
  }

  /** A player hidden under an icon, following it. */
  datatype Rider = Rider(id: string, host: Track, sinceMs: int, firstMs: int)

  class CameraHearing {
    const hypot: (real, real) -> real
    const boxTracker: CameraBoxTracker
    var players: seq<Player>
    var box: Option<Box>
    var iconDiam: real
    var tracks: seq<Track>
    var lastIdentifyMs: Option<int>
    var lastAudible: set<string>
    var lastAudibleMs: Option<int>
    var lastSeen: map<string, Seen>
    var dead: set<string>
    var riders: seq<Rider>
    var prevNamed: seq<string>

    /** What the track objects hold, and the riders by the position of their hosts. */
    ghost var Marks: seq<Mark>
    ghost var Rides: seq<Ride>
    /** The end of every tick since the players were set. */
    ghost var Ticks: seq<Tick>
    /** What the last audible set was worked out from. */
    ghost var HeardFrom: Option<Map>

    constructor (hypot: (real, real) -> real, iconDiam: real)
      ensures Valid() && this.hypot == hypot && Ticks == []
      ensures fresh(boxTracker) && boxTracker.Valid() && boxTracker.Calls == []
    {
      this.hypot, this.iconDiam, lastIdentifyMs, HeardFrom := hypot, iconDiam, None, None;
      boxTracker := new CameraBoxTracker();
      players, box, tracks, lastAudible, lastAudibleMs := [], None, [], {}, None;
      lastSeen, dead, riders, prevNamed, Marks, Rides, Ticks := map[], {}, [], [], [], [], [];
    }

    function Sight(): Eye
      reads `iconDiam
    {
      Eye(hypot, iconDiam)
    }

    ghost predicate TrackTied(i: nat)
      reads `tracks, `Marks, tracks
    {
      i < |tracks| && i < |Marks| && tracks[i].Value() == Marks[i]
    }

    ghost predicate Tied()
      reads `tracks, `Marks, tracks
    {
      Distinct(tracks) && |tracks| == |Marks| && forall i: nat {:trigger TrackTied(i)} | i < |tracks| :: TrackTied(i)
    }

    ghost predicate RiderTied(r: Rider, d: Ride)
      reads `tracks, r.host
    {
      && r.id == d.id && r.sinceMs == d.sinceMs && r.firstMs == d.firstMs
      && match d.host
         case On(i) => i < |tracks| && tracks[i] == r.host
         case Gone(x, y) => r.host !in tracks && r.host.x == x && r.host.y == y
    }

    function Hosts(): set<Track>
      reads `riders
    {
      set r | r in riders :: r.host
    }

    ghost predicate RiderTiedAt(rides: seq<Ride>, k: nat)
      reads `tracks, `riders, Hosts()
    {
      k < |riders| && k < |rides| && riders[k].host in Hosts() && RiderTied(riders[k], rides[k])
    }

    ghost predicate RidersTied(rides: seq<Ride>)
      reads `tracks, `riders, Hosts()
    {
      |riders| == |rides| && forall k: nat {:trigger RiderTiedAt(rides, k)} | k < |riders| :: RiderTiedAt(rides, k)
    }

    /** The last audible set was rightly heard when it was worked out, with the box known. */
    ghost predicate HeldOk()
      reads `lastAudible, `lastAudibleMs, `HeardFrom
    {
      lastAudibleMs.Some? ==>
        && HeardFrom.Some? && HeardFrom.value.w.nowMs == lastAudibleMs.value && HeardFrom.value.w.box.Some?
        && RightlyHeard(HeardFrom.value, lastAudible)
    }

    /** The objects hold what the ghost values say; names are apart and on their own
      * side; and every tick so far followed on from the one before. */
    ghost predicate Tracking()
      reads `players, `tracks, `Marks, `riders, `Rides, `prevNamed, `Ticks, tracks, Hosts()
    {
      && Tied() && RidersTied(Rides) && AllOn(Rides, |Marks|)
      && DistinctIds(players) && MarksOk(players, Marks) && OneRideEach(Rides)
      && TicksOk(players, Ticks)
      && LastTick(Ticks).named == (set id | id in prevNamed) && LastTick(Ticks).rides == RideSet(Rides)
    }

    ghost predicate Valid()
      reads this, tracks, Hosts()
    {
      Tracking() && HeldOk()
    }

    // ---------- Folding one observation in ----------

    /** The first track near enough that carries the observation's name. */
    method FindCarrier(o: Observation, free: seq<nat>) returns (found: Option<nat>)
      requires Tied() && Within(free, |tracks|)
      ensures found == FirstCarrier(Sight(), Marks, free, o)
    {
      assert free[0..] == free;
      for j := 0 to |free|
        invariant FirstCarrier(Sight(), Marks, free, o) == FirstCarrier(Sight(), Marks, free[j..], o)
      {
        var t := tracks[free[j]];
        assert TrackTied(free[j]) && free[j..][1..] == free[j + 1..];
        if o.id.Some? && t.id == o.id && hypot(t.x - o.x, t.y - o.y) <= iconDiam * TRACK_REACH_DIAMS * 2.0 {
          return Some(free[j]);
        }
      }
      found := None;
    }

    /** The nearest free track of the observation's side, within reach. */
    method FindNear(o: Observation, free: seq<nat>) returns (found: Option<nat>)
      requires Tied() && Within(free, |tracks|)
      ensures found == Nearest(Sight(), Marks, free, o)
    {
      found := None;
      var bestD := iconDiam * TRACK_REACH_DIAMS;
      assert free[..0] == [];
      for j := 0 to |free|
        invariant found == Nearest(Sight(), Marks, free[..j], o)
        invariant bestD == if found.Some? then Far(Sight(), Marks[found.value], o.x, o.y) else Reach(Sight())
        invariant bestD <= Reach(Sight())
      {
        var t := tracks[free[j]];
        assert TrackTied(free[j]) && free[..j + 1][..j] == free[..j];
        if t.side != o.side { continue; }
        var d := hypot(t.x - o.x, t.y - o.y);
        if d <= bestD && (o.id == None || t.id == None || t.id == o.id) {
          bestD := d;
          found := Some(free[j]);
        }
      }
      assert free[..|free|] == free;
    }

    method FindTrack(o: Observation, free: seq<nat>) returns (found: Option<nat>)
      requires Tied() && Within(free, |tracks|)
      ensures found == Pick(Sight(), Marks, free, o)
    {
      found := FindCarrier(o, free);
      if found.None? { found := FindNear(o, free); }
    }

    /** Every track but the k-th loses the observation's name if it carries it. */
    method TakeName(k: nat, o: Observation)
      requires Tied() && k < |tracks| && o.id.Some?
      modifies tracks, `Marks
      ensures Tied() && |Marks| == |old(Marks)| && Marks[k] == old(Marks)[k]
      ensures forall i: nat | i < |Marks| && i != k :: Marks[i] == Stripped(old(Marks)[i], o)
    {
      for n := 0 to |tracks|
        invariant Tied() && |Marks| == |old(Marks)|
        invariant forall i: nat | i < |Marks| ::
                Marks[i] == if i < n && i != k then Stripped(old(Marks)[i], o) else old(Marks)[i]
      {
        var t := tracks[n];
        assert TrackTied(n);
        label before:
        if n != k && t.id == o.id {
          t.id := None;
          Marks := Marks[n := t.Value()];
          forall i: nat | i < |tracks| ensures TrackTied(i) {
            if i != n { assert old@before(TrackTied(i)) && tracks[i] != tracks[n]; }
          }
        }
      }
    }

    /** The icon of a track is where it was observed, now. */
    method MoveTrack(k: nat, o: Observation, nowMs: int)
      requires Tied() && k < |tracks|
      modifies tracks, `Marks
      ensures Tied() && Marks == old(Marks)[k := Moved(old(Marks)[k], o, nowMs)]
    {
      var track := tracks[k];
      assert TrackTied(k);
      track.x := o.x;
      track.y := o.y;
      track.seenMs := nowMs;
      track.observedMs := nowMs;
      if o.scores.Some? {
        track.scores := o.scores;
        track.checkedMs := Some(nowMs);
      }
      Marks := Marks[k := track.Value()];
      forall i: nat | i < |tracks| ensures TrackTied(i) {
        if i != k { assert old(TrackTied(i)) && tracks[i] != tracks[k]; }
      }
    }

    /** A track takes the name it is to have. */
    method SetName(k: nat, name: Option<string>, checkedMs: Option<int>)
      requires Tied() && k < |tracks|
      modifies tracks, `Marks
      ensures Tied() && Marks == old(Marks)[k := old(Marks)[k].(id := name, checkedMs := checkedMs)]
    {
      var track := tracks[k];
      assert TrackTied(k);
      track.id := name;
      track.checkedMs := checkedMs;
      Marks := Marks[k := track.Value()];
      forall i: nat | i < |tracks| ensures TrackTied(i) {
        if i != k { assert old(TrackTied(i)) && tracks[i] != tracks[k]; }
      }
    }

    method UpdateTrack(k: nat, o: Observation, nowMs: int)
      requires Tied() && k < |tracks|
      modifies tracks, `Marks
      ensures Tied() && Marks == FoldAt(old(Marks), o, nowMs, k)
    {
      assert TrackTied(k);
      MoveTrack(k, o, nowMs);
      assert TrackTied(k);
      if o.id.Some? {
        TakeName(k, o);
        SetName(k, o.id, Some(nowMs));
      } else if o.scores.Some? && tracks[k].id.Some? && LooksLikeAnother(o.scores.value, tracks[k].id.value) {
        SetName(k, None, tracks[k].checkedMs);
      }
      assert Marks == FoldAt(old(Marks), o, nowMs, k);
    }

    /** One observation: the track it continues, or a new one, becomes it. */
    method FoldIn(o: Observation, nowMs: int, free: seq<nat>) returns (rest: seq<nat>)
      requires Tied() && Within(free, |tracks|)
      modifies `tracks, tracks, `Marks
      ensures Tied() && |old(tracks)| <= |tracks| && tracks[..|old(tracks)|] == old(tracks)
      ensures forall i | |old(tracks)| <= i < |tracks| :: fresh(tracks[i])
      ensures Folding(Marks, rest) == IconTracks.FoldOne(Sight(), Folding(old(Marks), free), o, nowMs)
    {
      var found := FindTrack(o, free);
      var k := if found.Some? then found.value else |tracks|;
      if found.None? { AddTrack(o, nowMs); }
      UpdateTrack(k, o, nowMs);
      rest := Minus(free, k);
      assert Marks == FoldAt(old(Marks), o, nowMs, k);
    }

    method AddTrack(o: Observation, nowMs: int)
      requires Tied()
      modifies `tracks, `Marks
      ensures Tied() && |tracks| == |old(tracks)| + 1 && tracks[..|old(tracks)|] == old(tracks) &&
              fresh(tracks[|old(tracks)|])
      ensures Marks == old(Marks) + [NewMark(o, nowMs)]
    {
      var track := new Track(o, nowMs);
      tracks, Marks := tracks + [track], Marks + [track.Value()];
      forall i: nat | i < |tracks| ensures TrackTied(i) { if i < |old(tracks)| { assert old(TrackTied(i)); } }
    }

    // ---------- A tick's observations ----------

    /** Tracks not seen for a while are forgotten. */
    method DropStale(nowMs: int)
      requires Tied()
      modifies `tracks, `Marks
      ensures Tied() && Marks == Live(old(Marks), nowMs)
      ensures var idx := LivePositions(old(Marks), nowMs, |old(Marks)|);
              |tracks| == |idx| && forall j | 0 <= j < |idx| ::
                  idx[j] < |old(tracks)| && tracks[j] == old(tracks)[idx[j]]
    {
      var kept := LiveTracks(nowMs);
      hide IsLive;
      KeepOnly(kept, LivePositions(Marks, nowMs, |Marks|));
    }

    method LiveTracks(nowMs: int) returns (kept: seq<Track>)
      requires Tied()
      ensures var idx := LivePositions(Marks, nowMs, |Marks|);
              |kept| == |idx| && forall j | 0 <= j < |idx| :: kept[j] == tracks[idx[j]]
    {
      kept := [];
      for n := 0 to |tracks|
        invariant var idx := LivePositions(Marks, nowMs, n);
                  |kept| == |idx| && forall j | 0 <= j < |idx| :: kept[j] == tracks[idx[j]]
      {
        assert TrackTied(n);
        if nowMs - tracks[n].seenMs <= TRACK_TTL_MS { kept := kept + [tracks[n]]; }
      }
    }

    method KeepOnly(kept: seq<Track>, ghost idx: seq<nat>)
      requires Tied() && Within(idx, |Marks|) && |kept| == |idx| && forall j | 0 <= j < |idx| ::
              kept[j] == tracks[idx[j]]
      requires forall i, j | 0 <= i < j < |idx| :: idx[i] < idx[j]
      modifies `tracks, `Marks
      ensures Tied() && tracks == kept && Marks == At(old(Marks), idx)
    {
      forall i, j | 0 <= i < j < |kept| ensures kept[i] != kept[j] { assert tracks[idx[i]] != tracks[idx[j]]; }
      forall j | 0 <= j < |kept| ensures kept[j].Value() == Marks[idx[j]] { assert TrackTied(idx[j]); }
      tracks, Marks := kept, At(Marks, idx);
      forall i: nat | i < |tracks| ensures TrackTied(i) {}
    }

    method IsElsewhere(o: Observation) returns (yes: bool)
      requires Tied()
      ensures yes == NamedElsewhere(Sight(), Marks, o)
    {
      for n := 0 to |tracks|
        invariant forall i | 0 <= i < n ::
                    !(Marks[i].id == o.id && Far(Sight(), Marks[i], o.x, o.y) > Reach(Sight()) * 2.0)
      {
        assert TrackTied(n);
        var t := tracks[n];
        if t.id == o.id && hypot(t.x - o.x, t.y - o.y) > iconDiam * TRACK_REACH_DIAMS * 2.0 {
          assert Marks[n] in Marks;
          return true;
        }
      }
      yes := false;
    }

    method Order(obs: seq<Observation>) returns (ordered: seq<Observation>)
      requires Tied()
      ensures ordered == Ordered(Sight(), Marks, obs)
    {
      var sorted := OfKind(obs, true) + OfKind(obs, false);
      ordered := [];
      for n := 0 to |sorted|
        invariant |ordered| == n && forall i | 0 <= i < n :: ordered[i] == Demoted(Sight(), Marks, sorted[i])
      {
        var o := sorted[n];
        var next := o;
        if o.id.Some? {
          var elsewhere := IsElsewhere(o);
          if elsewhere && !StrongMatch(o) { next := o.(id := None); }
        }
        ordered := ordered + [next];
      }
    }

    method FoldObservations(ordered: seq<Observation>, nowMs: int) returns (free: seq<nat>)
      requires Tied()
      modifies `tracks, tracks, `Marks
      ensures Tied() && |old(tracks)| <= |tracks| && tracks[..|old(tracks)|] == old(tracks)
      ensures forall i | |old(tracks)| <= i < |tracks| :: fresh(tracks[i])
      ensures Folding(Marks, free) == FoldAll(Sight(), old(Marks), ordered, nowMs)
    {
      hide IconTracks.FoldOne;
      free := Upto(|tracks|);
      assert ordered[..0] == [];
      for n := 0 to |ordered|
        invariant Tied() && |old(tracks)| <= |tracks| && tracks[..|old(tracks)|] == old(tracks)
        invariant forall i | |old(tracks)| <= i < |tracks| :: fresh(tracks[i])
        invariant Folding(Marks, free) == FoldAll(Sight(), old(Marks), ordered[..n], nowMs)
      {
        FoldAllStep(Sight(), old(Marks), ordered, nowMs, n);
        assert forall i | 0 <= i < |old(tracks)| :: tracks[i] == tracks[..|old(tracks)|][i];
        free := FoldIn(ordered[n], nowMs, free);
      }
      assert ordered[..|ordered|] == ordered;
    }

    /** A free track that some ring still shows over counts as seen, if it was observed
      * lately enough. */
    method CoverFree(free: seq<nat>, traces: seq<Trace>, nowMs: int)
      requires Tied() && Positions(Marks, free)
      modifies tracks, `Marks
      ensures Tied() && Marks == Cover(Sight(), Folding(old(Marks), free), traces, nowMs)
    {
      for n := 0 to |free|
        invariant Tied() && |Marks| == |old(Marks)|
        invariant forall i: nat | i < |Marks| ::
                    Marks[i] == if i in free[..n] then Covered(Sight(), old(Marks)[i], traces, nowMs) else old(Marks)[i]
      {
        var k := free[n];
        assert free[..n + 1] == free[..n] + [k] && k !in free[..n];
        assert TrackTied(k);
        if nowMs - tracks[k].observedMs <= COVERED_MAX_MS && IsCovered(Sight(), tracks[k].Value(), traces) {
          Touch(k, nowMs);
        }
      }
      assert free[..|free|] == free;
    }

    method Touch(k: nat, nowMs: int)
      requires Tied() && k < |tracks|
      modifies tracks, `Marks
      ensures Tied() && Marks == old(Marks)[k := old(Marks)[k].(seenMs := nowMs)]
    {
      assert TrackTied(k);
      tracks[k].seenMs := nowMs;
      Marks := Marks[k := tracks[k].Value()];
      forall i: nat | i < |tracks| ensures TrackTied(i) {
        if i != k { assert old(TrackTied(i)) && tracks[i] != tracks[k]; }
      }
    }

    method RecordSeen(nowMs: int)
      requires Tied()
      modifies `lastSeen
      ensures lastSeen == SeenAfter(old(lastSeen), Marks, nowMs, |Marks|)
    {
      for n := 0 to |tracks|
        invariant lastSeen == SeenAfter(old(lastSeen), Marks, nowMs, n)
      {
        var t := tracks[n];
        assert TrackTied(n);
        if t.id.Some? && t.seenMs == nowMs { lastSeen := lastSeen[t.id.value := Seen(t.x, t.y, nowMs)]; }
      }
    }

    method FoldOrdered(obs: seq<Observation>, nowMs: int) returns (free: seq<nat>)
      requires Tied()
      modifies `tracks, tracks, `Marks
      ensures Tied() && |old(tracks)| <= |tracks| && tracks[..|old(tracks)|] == old(tracks)
      ensures forall i | |old(tracks)| <= i < |tracks| :: fresh(tracks[i])
      ensures Folding(Marks, free) == Folded(Sight(), old(Marks), obs, nowMs)
    {
      hide Ordered;
      var ordered := Order(obs);
      free := FoldObservations(ordered, nowMs);
    }

    /** The observations folded into the live tracks, and the covered ones kept. */
    method FoldLive(obs: seq<Observation>, nowMs: int, traces: seq<Trace>)
      requires Tied() && DistinctIds(players) && MarksOk(players, Marks) && forall o | o in obs :: OwnName(players, o)
      modifies `tracks, tracks, `Marks
      ensures Tied() && |old(tracks)| <= |tracks| && tracks[..|old(tracks)|] == old(tracks)
      ensures forall i | |old(tracks)| <= i < |tracks| :: fresh(tracks[i])
      ensures Marks == Cover(Sight(), Folded(Sight(), old(Marks), obs, nowMs), traces, nowMs)
    {
      hide Folded, MarksOk, OwnName, Cover, DistinctIds;
      FoldedPositions(Sight(), Marks, obs, nowMs, players);
      var free := FoldOrdered(obs, nowMs);
      CoverFree(free, traces, nowMs);
    }

    /** The tracks after a tick. */
    method FoldTick(obs: seq<Observation>, nowMs: int, traces: seq<Trace>)
      requires Tied() && DistinctIds(players) && MarksOk(players, Marks) && forall o | o in obs :: OwnName(players, o)
      modifies `tracks, tracks, `Marks
      ensures Tied() && Marks == Ingested(Sight(), old(Marks), obs, nowMs, traces)
      ensures Kept(old(tracks), LivePositions(old(Marks), nowMs, |old(Marks)|), tracks)
      ensures forall j | |LivePositions(old(Marks), nowMs, |old(Marks)|)| <= j < |tracks| :: fresh(tracks[j])
      ensures forall t | t in old(tracks) && t !in tracks :: unchanged(t)
    {
      hide MarksOk, OwnName, Cover, Folded, DistinctIds, IsLive;
      LiveKeeps(Marks, nowMs, players);
      DropStale(nowMs);
      ghost var kept := tracks;
      FoldLive(obs, nowMs, traces);
      assert forall j | 0 <= j < |kept| :: tracks[j] == tracks[..|kept|][j] == kept[j];
      forall t | t in kept ensures t in tracks {
        var j :| 0 <= j < |kept| && kept[j] == t;
        assert tracks[j] == t;
      }
    }

    // ---------- Riders ----------

    /** Where a host stands among the tracks, or where it last was. */
    method Locate(host: Track) returns (h: Host)
      ensures match h
              case On(i) => i < |tracks| && tracks[i] == host
              case Gone(x, y) => host !in tracks && host.x == x && host.y == y
    {
      for n := 0 to |tracks|
        invariant forall i | 0 <= i < n :: tracks[i] != host
      {
        if tracks[n] == host { return On(n); }
      }
      h := Gone(host.x, host.y);
    }

    method LocateRiders() returns (rides: seq<Ride>)
      ensures RidersTied(rides)
    {
      rides := [];
      for n := 0 to |riders|
        invariant |rides| == n && forall k: nat | k < n :: RiderTied(riders[k], rides[k])
      {
        var r := riders[n];
        var h := Locate(r.host);
        rides := rides + [Ride(r.id, h, r.sinceMs, r.firstMs)];
      }
      forall k: nat | k < |riders| ensures RiderTiedAt(rides, k) {}
    }

    /** Hosts stand in one place each. */
    lemma TiedOnce(a: seq<Ride>, b: seq<Ride>)
      requires Distinct(tracks) && RidersTied(a) && RidersTied(b)
      ensures a == b
    {
      forall k: nat | k < |a| ensures a[k] == b[k] {
        assert RiderTiedAt(a, k) && RiderTiedAt(b, k);
      }
    }

    method Snapshot() returns (ms: seq<Mark>)
      requires Tied()
      ensures ms == Marks
    {
      ms := [];
      for n := 0 to |tracks|
        invariant |ms| == n && forall i | 0 <= i < n :: ms[i] == Marks[i]
      {
        assert TrackTied(n);
        ms := ms + [tracks[n].Value()];
      }
    }

    method SeatRiders(rides: seq<Ride>)
      requires AllOn(rides, |tracks|)
      modifies `riders, `Rides
      ensures Rides == rides && RidersTied(Rides)
    {
      var next: seq<Rider> := [];
      for n := 0 to |rides|
        invariant |next| == n && forall k: nat | k < n :: RiderTied(next[k], rides[k])
      {
        var d := rides[n];
        assert d in rides;
        next := next + [Rider(d.id, tracks[d.host.at], d.sinceMs, d.firstMs)];
      }
      riders, Rides := next, rides;
      forall k: nat | k < |riders| ensures RiderTiedAt(Rides, k) {}
    }

    method UpdateRiders(nowMs: int, ghost rides: seq<Ride>)
      requires Tied() && RidersTied(rides) && OneRideEach(rides)
      modifies `riders, `Rides, `lastSeen, `prevNamed
      ensures RidersTied(Rides) && AllOn(Rides, |Marks|)
      ensures var c := Scene(Sight(), players, Marks, dead, nowMs);
              var g := NextRides(c, old(lastSeen), rides, old(prevNamed));
              Rides == g.rides && lastSeen == g.seen && prevNamed == NamesOf(Marks)
    {
      hide NextRides;
      var ms := Snapshot();
      var located := LocateRiders();
      TiedOnce(located, rides);
      assert ms == Marks && located == rides;
      var g := UpdateRides(Scene(Sight(), players, ms, dead, nowMs), lastSeen, located, prevNamed);
      lastSeen, prevNamed := g.seen, NamesOf(ms);
      SeatRiders(g.rides);
    }

    // ---------- A tick ----------

    /** Players last seen, riders and names at the end of a tick. */
    method FinishTick(nowMs: int, ghost rides: seq<Ride>)
      requires Tied() && RidersTied(rides) && OneRideEach(rides)
      requires TicksOk(players, Ticks) && LastTick(Ticks).rides == RideSet(rides)
      requires LastTick(Ticks).named == (set id | id in prevNamed)
      modifies `riders, `Rides, `lastSeen, `prevNamed, `Ticks
      ensures RidersTied(Rides) && AllOn(Rides, |Marks|) && OneRideEach(Rides) && TicksOk(players, Ticks)
      ensures LastTick(Ticks).named == (set id | id in prevNamed) && LastTick(Ticks).rides == RideSet(Rides)
      ensures var c := Scene(Sight(), players, Marks, dead, nowMs);
              var g := NextRides(c, SeenAfter(old(lastSeen), Marks, nowMs, |Marks|), rides, old(prevNamed));
              && Rides == g.rides && lastSeen == g.seen && prevNamed == NamesOf(Marks)
              && Ticks == old(Ticks) + [TickOf(nowMs, prevNamed, Rides)]
              && forall d | d in Rides :: RideOk(c, d)
    {
      RecordSeen(nowMs);
      forall k: nat | k < |riders| ensures RiderTiedAt(rides, k) { assert old(RiderTiedAt(rides, k)); }
      ghost var c := Scene(Sight(), players, Marks, dead, nowMs);
      ghost var g := NextRides(c, lastSeen, rides, prevNamed);
      RidesKeep(c, lastSeen, rides, prevNamed);
      TickFollows(c, rides, prevNamed, g, LastTick(Ticks));
      TicksGrow(players, Ticks, TickOf(nowMs, NamesOf(Marks), g.rides));
      UpdateRiders(nowMs, rides);
      Ticks := Ticks + [TickOf(nowMs, prevNamed, Rides)];
    }

    method FoldAndFollow(obs: seq<Observation>, nowMs: int, traces: seq<Trace>)
      requires Tied() && RidersTied(Rides) && AllOn(Rides, |Marks|)
      requires DistinctIds(players) && MarksOk(players, Marks) && forall o | o in obs :: OwnName(players, o)
      modifies `tracks, tracks, `Marks
      ensures Tied() && Marks == Ingested(Sight(), old(Marks), obs, nowMs, traces)
      ensures RidersTied(RehostAll(Rides, LivePositions(old(Marks), nowMs, |old(Marks)|), old(Marks)))
    {
      hide Ingested, MarksOk, OwnName, DistinctIds;
      ghost var idx, before, ms0 := LivePositions(Marks, nowMs, |Marks|), tracks, Marks;
      forall k: nat | k < |riders| ensures HostIs(riders[k].host, before, ms0, Rides[k]) {
        assert RiderTiedAt(Rides, k) && Rides[k] in Rides;
        assert TrackTied(Rides[k].host.at);
      }
      FoldTick(obs, nowMs, traces);
      forall k: nat | k < |riders| ensures RiderTiedAt(RehostAll(Rides, idx, ms0), k) {
        assert old(RiderTiedAt(Rides, k)) && old(HostIs(riders[k].host, before, ms0, Rides[k]));
        HostMoves(before, idx, tracks, Rides[k].host.at);
      }
    }

    method TakeIn(obs: seq<Observation>, nowMs: int, traces: seq<Trace>)
      requires Tracking() && forall o | o in obs :: OwnName(players, o)
      modifies `tracks, tracks, `Marks, `riders, `Rides, `lastSeen, `prevNamed, `Ticks
      ensures Tracking()
      ensures Marks == Ingested(Sight(), old(Marks), obs, nowMs, traces)
      ensures var g := Followed(Sight(), players, dead, nowMs, old(Marks), Marks, old(Rides), old(lastSeen),
              old(prevNamed));
              && Rides == g.rides && lastSeen == g.seen && prevNamed == NamesOf(Marks)
              && Ticks == old(Ticks) + [TickOf(nowMs, prevNamed, Rides)]
              && forall d | d in Rides :: RideOk(Scene(Sight(), players, Marks, dead, nowMs), d)
    {
      hide MarksOk, TicksOk, OneRideEach, Ingested, NextRides, DistinctIds, OwnName, TickOf, RideOk, RideSet, LastTick,
           AllOn, Tied, RidersTied, IsLive;
      ghost var idx, ms0, rides0 := LivePositions(Marks, nowMs, |Marks|), Marks, Rides;
      IngestKeeps(Sight(), Marks, obs, nowMs, traces, players);
      RehostKeepsIds(rides0, idx, ms0);
      FoldAndFollow(obs, nowMs, traces);
      FinishTick(nowMs, RehostAll(rides0, idx, ms0));
    }

    /** One tick's observations, and where covered enemies were found. */
    method Ingest(obs: seq<Observation>, nowMs: int, traces: seq<Trace>)
      requires Valid() && forall o | o in obs :: OwnName(players, o)
      modifies `tracks, tracks, `Marks, `riders, `Rides, `lastSeen, `prevNamed, `Ticks
      ensures Valid()
      ensures Marks == Ingested(Sight(), old(Marks), obs, nowMs, traces)
      ensures var g := Followed(Sight(), players, dead, nowMs, old(Marks), Marks, old(Rides), old(lastSeen),
              old(prevNamed));
              && Rides == g.rides && lastSeen == g.seen && prevNamed == NamesOf(Marks)
              && Ticks == old(Ticks) + [TickOf(nowMs, prevNamed, Rides)]
              && forall d | d in Rides :: RideOk(Scene(Sight(), players, Marks, dead, nowMs), d)
    {
      hide Tracking, HeldOk, Ingested, Followed, TickOf, RideOk;
      TakeIn(obs, nowMs, traces);
    }

    // ---------- A frame ----------

    /** How wide an icon is on a minimap this wide. */
    static function IconDiamFor(width: int): real {
      var r := (width as real * 0.087 + 0.5).Floor;
      if r > 8 then r as real else 8.0
    }

    predicate IsDue(nowMs: int)
      reads `lastIdentifyMs
    {
      lastIdentifyMs.None? || nowMs - lastIdentifyMs.value >= IDENTIFY_INTERVAL_MS
    }

    /** The box is looked for on every frame, and its size learnt from one read whole
      * on a frame whose icons are. */
    method SeeBox(g: Grid, nowMs: int, whole: Option<Box>) returns (due: bool, ghost frame: Call)
      requires boxTracker.Valid() && g.w >= 0
      modifies boxTracker, `iconDiam, `box, `lastIdentifyMs
      ensures boxTracker.Valid() && iconDiam == IconDiamFor(g.w)
      ensures frame.Frame? && frame.nowMs == nowMs
      ensures box == Reported(Run(old(boxTracker.Calls)), frame.local, frame.full, nowMs)
      ensures due == old(IsDue(nowMs)) && lastIdentifyMs == if due then Some(nowMs) else old(lastIdentifyMs)
      ensures boxTracker.Calls ==
              old(boxTracker.Calls) + [frame] + (if due && whole.Some? then [Whole(whole.value)] else [])
    {
      hide Run, Reported, SearchedRight, Searched, IconDiamFor;
      iconDiam := IconDiamFor(g.w);
      ghost var local, full;
      box, local, full := boxTracker.Update(g, nowMs);
      frame := Frame(g, local, full, nowMs);
      due := IsDue(nowMs);
      if due {
        lastIdentifyMs := Some(nowMs);
        if whole.Some? { boxTracker.NoteWholeBox(whole.value); }
      }
    }

    /** One captured frame: icons are told apart at most every 250 ms. `whole` is the
      * box the edge-pair reader found, if any, `obs` what is made of the icons and
      * `traces` where covered enemies are. */
    method OnFrame(g: Grid, nowMs: int, whole: Option<Box>, obs: seq<Observation>, traces: seq<Trace>)
      returns (ghost frame: Call)
      requires Valid() && boxTracker.Valid() && g.w >= 0 && forall o | o in obs :: OwnName(players, o)
      modifies boxTracker, `iconDiam, `box, `lastIdentifyMs
      modifies `tracks, tracks, `Marks, `riders, `Rides, `lastSeen, `prevNamed, `Ticks
      ensures Valid() && boxTracker.Valid() && iconDiam == IconDiamFor(g.w)
      ensures frame.Frame? && frame.nowMs == nowMs
      ensures box == Reported(Run(old(boxTracker.Calls)), frame.local, frame.full, nowMs)
      ensures old(IsDue(nowMs)) == (old(lastIdentifyMs).None? || nowMs - old(lastIdentifyMs).value >= 250)
      ensures old(IsDue(nowMs)) ==>
                && boxTracker.Calls == old(boxTracker.Calls) + [frame] +
                    (if whole.Some? then [Whole(whole.value)] else [])
                && Marks == Ingested(Sight(), old(Marks), obs, nowMs, traces)
                && lastIdentifyMs == Some(nowMs)
      ensures old(IsDue(nowMs)) ==>
                var g := Followed(Sight(), players, dead, nowMs, old(Marks), Marks, old(Rides), old(lastSeen),
                    old(prevNamed));
                && Rides == g.rides && lastSeen == g.seen && prevNamed == NamesOf(Marks)
                && Ticks == old(Ticks) + [TickOf(nowMs, prevNamed, Rides)]
      ensures !old(IsDue(nowMs)) ==>
                && boxTracker.Calls == old(boxTracker.Calls) + [frame]
                && tracks == old(tracks) && Marks == old(Marks) && riders == old(riders) && Rides == old(Rides)
                && lastSeen == old(lastSeen) && prevNamed == old(prevNamed) && Ticks == old(Ticks)
                && lastIdentifyMs == old(lastIdentifyMs)
    {
      hide Ingested, Run, Reported, IconDiamFor, OwnName, TicksOk, MarksOk, OneRideEach, DistinctIds, Followed, TickOf,
           HeldOk;
      var due;
      due, frame := SeeBox(g, nowMs, whole);
      forall k: nat | k < |riders| ensures RiderTiedAt(Rides, k) { assert old(RiderTiedAt(Rides, k)); }
      if due { Ingest(obs, nowMs, traces); }
    }

    // ---------- Starting over ----------

    method SetPlayers(newPlayers: seq<Player>)
      requires Valid() && DistinctIds(newPlayers)
      modifies `players, `tracks, `Marks, `lastSeen, `riders, `Rides, `prevNamed, `Ticks
      ensures Valid() && players == newPlayers && tracks == [] && lastSeen == map[] && riders == [] && Ticks == []
    {
      hide HeldOk;
      players := newPlayers;
      Forget();
    }

    /** No tracks, riders or last sightings. */
    method Forget()
      requires DistinctIds(players)
      modifies `tracks, `Marks, `lastSeen, `riders, `Rides, `prevNamed, `Ticks
      ensures Tracking() && tracks == [] && lastSeen == map[] && riders == [] && prevNamed == [] && Ticks == []
    {
      tracks, lastSeen, riders, prevNamed := [], map[], [], [];
      Marks, Rides, Ticks := [], [], [];
    }

    method SetDead(ids: set<string>)
      requires Valid()
      modifies `dead
      ensures Valid() && dead == ids
    {
      hide HeldOk;
      dead := ids;
    }

    method Reset()
      requires Valid() && boxTracker.Valid()
      modifies `tracks, `Marks, `box, `lastAudible, `lastAudibleMs, `lastSeen, `riders, `Rides, `prevNamed, `Ticks,
          boxTracker
      ensures Valid() && tracks == [] && lastSeen == map[] && riders == [] && prevNamed == [] && Ticks == []
      ensures box == None && lastAudible == {} && lastAudibleMs == None
      ensures boxTracker.Valid() && boxTracker.Calls == old(boxTracker.Calls) + [Restart]
    {
      assert DistinctIds(players);
      hide Valid;
      boxTracker.Reset();
      box, lastAudible, lastAudibleMs := None, {}, None;
      Forget();
    }

    // ---------- Who is heard ----------

    ghost function Picture(nowMs: int): Map
      reads this
    {
      Map(World(players, lastSeen, box, iconDiam, nowMs, hypot), Marks, Rides, dead)
    }

    /** While the box is known exactly those are heard who are living players, not the
      * local one, and are on a live track inside it; while it is not, either nobody, or
      * for one second those who were rightly heard when it last was. */
    method Audible(nowMs: int) returns (out: set<string>)
      requires Valid()
      modifies `lastAudible, `lastAudibleMs, `HeardFrom
      ensures Valid()
      ensures box.None? ==>
                && out == (if lastAudibleMs.Some? && nowMs - lastAudibleMs.value <= 1000
                           then lastAudible else {})
                && lastAudible == old(lastAudible) && lastAudibleMs == old(lastAudibleMs) && HeardFrom == old(HeardFrom)
      ensures box.None? && out != {} ==>
                && HeardFrom.Some? && HeardFrom.value.w.box.Some? && RightlyHeard(HeardFrom.value, out)
                && nowMs - HeardFrom.value.w.nowMs <= 1000
      ensures box.Some? ==>
                && lastAudible == out && lastAudibleMs == Some(nowMs)
                && HeardFrom == Some(Picture(nowMs)) && RightlyHeard(Picture(nowMs), out)
    {
      hide RightlyHeard, TicksOk, MarksOk, OneRideEach, DistinctIds;
      if box.None? {
        if lastAudibleMs.Some? && nowMs - lastAudibleMs.value <= AUDIBLE_HOLD_MS { return lastAudible; }
        return {};
      }
      out := Listen(nowMs);
      lastAudible, lastAudibleMs, HeardFrom := out, Some(nowMs), Some(Picture(nowMs));
      forall k: nat | k < |riders| ensures RiderTiedAt(Rides, k) { assert old(RiderTiedAt(Rides, k)); }
    }

    /** Who is heard of the objects as they are. */
    method Listen(nowMs: int) returns (out: set<string>)
      requires Tracking()
      ensures RightlyHeard(Picture(nowMs), out)
    {
      hide RightlyHeard;
      var ms := Snapshot();
      var rides := LocateRiders();
      TiedOnce(rides, Rides);
      out := AudibleNow(Map(World(players, lastSeen, box, iconDiam, nowMs, hypot), ms, rides, dead));
    }
  }

  /** Riders and last sightings after a tick that made `after` of the tracks `before`. */
  function Followed(e: Eye, players: seq<Player>, dead: set<string>, nowMs: int, before: seq<Mark>, after: seq<Mark>,
      rides: seq<Ride>, seen: map<string, Seen>, prevNamed: seq<string>): Riding
  {
    NextRides(Scene(e, players, after, dead, nowMs), SeenAfter(seen, after, nowMs, |after|),
              RehostAll(rides, LivePositions(before, nowMs, |before|), before), prevNamed)
  }

  /** A host is the track at its position, where the ghost values say. */
  ghost predicate HostIs(host: Track, ts: seq<Track>, ms: seq<Mark>, d: Ride)
    reads host
  {
    && d.host.On? && d.host.at < |ts| && d.host.at < |ms| && ts[d.host.at] == host
    && host.x == ms[d.host.at].x && host.y == ms[d.host.at].y
  }

  /** A track kept has its new position; one that is not is on no position. */
  lemma HostMoves(before: seq<Track>, idx: seq<nat>, after: seq<Track>, i: nat)
    requires Distinct(before) && i < |before| && Kept(before, idx, after)
    requires forall j | |idx| <= j < |after| :: after[j] !in before
    ensures if i in idx then PositionOf(idx, i) < |after| && after[PositionOf(idx, i)] == before[i]
            else before[i] !in after
  {
    if i !in idx {
      forall j | 0 <= j < |after| ensures after[j] != before[i] {
        if j < |idx| { assert idx[j] in idx; }
      }
    }
  }

  /** The tracks kept from one tick to the next come first, in order. */
  ghost predicate Kept(before: seq<Track>, idx: seq<nat>, after: seq<Track>) {
    |idx| <= |after| && forall j | 0 <= j < |idx| :: idx[j] < |before| && after[j] == before[idx[j]]
  }

  /** A track with its icon where it was observed, now. */
  function Moved(m: Mark, o: Observation, nowMs: int): Mark {
    m.(x := o.x, y := o.y, seenMs := nowMs, observedMs := nowMs,
       scores := if o.scores.Some? then o.scores else m.scores,
       checkedMs := if o.scores.Some? then Some(nowMs) else m.checkedMs)
  }

  lemma FoldedPositions(e: Eye, ms: seq<Mark>, obs: seq<Observation>, nowMs: int, players: seq<Player>)
    requires DistinctIds(players) && MarksOk(players, ms) && forall o | o in obs :: OwnName(players, o)
    ensures var f := Folded(e, ms, obs, nowMs); Positions(f.ms, f.free)
  {
    OrderedOwn(e, ms, obs, players);
    FoldAllKeeps(e, ms, Ordered(e, ms, obs), nowMs, players);
  }

  lemma FoldAllStep(e: Eye, ms: seq<Mark>, obs: seq<Observation>, nowMs: int, n: nat)
    requires n < |obs|
    ensures FoldAll(e, ms, obs[..n + 1], nowMs) == IconTracks.FoldOne(e, FoldAll(e, ms, obs[..n], nowMs), obs[n], nowMs)
  {
    assert obs[..n + 1][..n] == obs[..n];
  }
}
