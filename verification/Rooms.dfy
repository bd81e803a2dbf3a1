/** Room membership (server/src/rooms.ts) as values: the two indexes, what each
  * operation does to both, and the invariant they keep. The objects that update
  * in place are in RoomManager.dfy. */
module RoomState {
  import opened Options

  /** A socket's identity. */
  type Ws = nat

  datatype Team = ORDER | CHAOS
  datatype Stamped = Stamped(x: real, y: real, updatedMs: int)

  datatype Member = Member(
    roomId: string, name: string, ws: Ws, team: Option<Team>,
    position: Option<Stamped>, camera: Option<Stamped>, lastSeen: Option<Stamped>, sharedReset: bool)

  /** By room, by socket, and the clocks of shared RESETs. */
  datatype Rooms = Rooms(
    rooms: map<string, seq<Member>>, clients: map<Ws, Member>,
    roomResetMs: map<string, int>, senderResetMs: map<string, map<string, int>>)

  const NO_ROOMS := Rooms(map[], map[], map[], map[])

  const LOST_ALLY_ANCHOR_MS := 20_000

  // ---------- Looking up ----------

  /** First index at which a name stands. */
  function FindName(ms: seq<Member>, name: string): (r: Option<nat>)
    ensures r.Some? ==> r.value < |ms| && ms[r.value].name == name
    ensures r.None? ==> forall m | m in ms :: m.name != name
  {
    if ms == [] then None
    else if ms[0].name == name then Some(0)
    else
      var r := FindName(ms[1..], name);
      assert ms == [ms[0]] + ms[1..];
      if r.Some? then Some(r.value + 1) else None
  }

  function FindWs(ms: seq<Member>, ws: Ws): (r: Option<nat>)
    ensures r.Some? ==> r.value < |ms| && ms[r.value].ws == ws
    ensures r.None? ==> forall m | m in ms :: m.ws != ws
  {
    if ms == [] then None
    else if ms[0].ws == ws then Some(0)
    else
      var r := FindWs(ms[1..], ws);
      assert ms == [ms[0]] + ms[1..];
      if r.Some? then Some(r.value + 1) else None
  }

  function Without<T>(ms: seq<T>, i: nat): (r: seq<T>)
    requires i < |ms|
    ensures |r| == |ms| - 1
    ensures forall m | m in r :: m in ms
  {
    ms[..i] + ms[i + 1..]
  }

  function RoomOf(s: Rooms, roomId: string): seq<Member> {
    if roomId in s.rooms then s.rooms[roomId] else []
  }

  function Names(ms: seq<Member>): (r: seq<string>)
    ensures |r| == |ms| && forall i | 0 <= i < |ms| :: r[i] == ms[i].name
  {
    seq(|ms|, i requires 0 <= i < |ms| => ms[i].name)
  }

  function ClientInfo(s: Rooms, ws: Ws): Option<Member> {
    if ws in s.clients then Some(s.clients[ws]) else None
  }

  function FilterOthers(ms: seq<Member>, ws: Ws): seq<Member> {
    if ms == [] then []
    else (if ms[0].ws != ws then [ms[0]] else []) + FilterOthers(ms[1..], ws)
  }

  lemma {:induction false} FilterOthersHas(ms: seq<Member>, ws: Ws)
    ensures forall m :: m in FilterOthers(ms, ws) <==> m in ms && m.ws != ws
  {
    if ms != [] {
      FilterOthersHas(ms[1..], ws);
      assert ms == [ms[0]] + ms[1..];
    }
  }

  function OthersInRoom(s: Rooms, ws: Ws): seq<Member> {
    if ws in s.clients then FilterOthers(RoomOf(s, s.clients[ws].roomId), ws) else []
  }

  function FindInRoom(s: Rooms, roomId: string, name: string): Option<Member> {
    var i := FindName(RoomOf(s, roomId), name);
    if i.Some? then Some(RoomOf(s, roomId)[i.value]) else None
  }

  // ---------- Joining and leaving ----------

  function Carry<T>(mine: Option<T>, evicted: Option<T>): Option<T> {
    if mine.Some? then mine else evicted
  }

  /** The entry a join makes, carrying the evicted entry's state forward. */
  function NewMember(roomId: string, name: string, ws: Ws, team: Option<Team>, evicted: Option<Member>): Member {
    match evicted
    case None => Member(roomId, name, ws, team, None, None, None, false)
    case Some(e) => Member(roomId, name, ws, Carry(team, e.team), e.position, e.camera, e.lastSeen, false)
  }

  datatype JoinResult = JoinResult(s: Rooms, peers: seq<string>, evicted: Option<Member>)

  function Join(s: Rooms, roomId: string, name: string, ws: Ws, team: Option<Team>): JoinResult {
    var existing := RoomOf(s, roomId);
    var dup := FindName(existing, name);
    var evicted := if dup.Some? then Some(existing[dup.value]) else None;
    var kept := if dup.Some? then Without(existing, dup.value) else existing;
    var clients := if evicted.Some? then s.clients - {evicted.value.ws} else s.clients;
    var info := NewMember(roomId, name, ws, team, evicted);
    JoinResult(s.(rooms := s.rooms[roomId := kept + [info]], clients := clients[ws := info]), Names(kept), evicted)
  }

  datatype Gone = Gone(roomId: string, name: string, remaining: seq<Member>)

  datatype LeaveResult = LeaveResult(s: Rooms, gone: Option<Gone>)

  /** The room after `ws` leaves it. */
  function Remaining(s: Rooms, ws: Ws): seq<Member>
    requires ws in s.clients
  {
    var room := RoomOf(s, s.clients[ws].roomId);
    var i := FindWs(room, ws);
    if i.Some? then Without(room, i.value) else room
  }

  function Leave(s: Rooms, ws: Ws): LeaveResult {
    if ws !in s.clients then LeaveResult(s, None)
    else
      var info := s.clients[ws];
      var left := Remaining(s, ws);
      var clients := s.clients - {ws};
      var s' :=
        if left == []
        then Rooms(s.rooms - {info.roomId}, clients, s.roomResetMs - {info.roomId}, s.senderResetMs - {info.roomId})
        else s.(rooms := s.rooms[info.roomId := left], clients := clients);
      LeaveResult(s', Some(Gone(info.roomId, info.name, left)))
  }

  // ---------- Updating an entry ----------

  /** The entry of `ws` replaced, in both indexes. */
  function SetMember(s: Rooms, ws: Ws, m: Member): Rooms
    requires ws in s.clients
  {
    var room := RoomOf(s, s.clients[ws].roomId);
    var i := FindWs(room, ws);
    s.(clients := s.clients[ws := m],
       rooms := if i.Some? then s.rooms[s.clients[ws].roomId := room[i.value := m]] else s.rooms)
  }

  function SetTeam(s: Rooms, ws: Ws, team: Team): Rooms {
    if ws in s.clients then SetMember(s, ws, s.clients[ws].(team := Some(team))) else s
  }

  function SetSharedReset(s: Rooms, ws: Ws, on: bool): Rooms {
    if ws in s.clients then SetMember(s, ws, s.clients[ws].(sharedReset := on)) else s
  }

  function SetPosition(s: Rooms, ws: Ws, x: real, y: real, now: int): Rooms {
    if ws in s.clients
    then SetMember(s, ws, s.clients[ws].(position := Some(Stamped(x, y, now)), lastSeen := None))
    else s
  }

  function SetCamera(s: Rooms, ws: Ws, x: real, y: real, now: int): Rooms {
    if ws in s.clients then SetMember(s, ws, s.clients[ws].(camera := Some(Stamped(x, y, now)))) else s
  }

  function ClearCamera(s: Rooms, ws: Ws): Rooms {
    if ws in s.clients then SetMember(s, ws, s.clients[ws].(camera := None)) else s
  }

  /** An age as the server believes it: neither negative nor past the window. */
  function ClampAge(agoMs: int): int {
    if agoMs < 0 then 0 else if agoMs > LOST_ALLY_ANCHOR_MS then LOST_ALLY_ANCHOR_MS else agoMs
  }

  /** Where a client last actually saw itself, and how long ago. */
  datatype Sighting = Sighting(x: real, y: real, agoMs: int)

  function Anchored(seen: Sighting, now: int): Stamped {
    Stamped(seen.x, seen.y, now - ClampAge(seen.agoMs))
  }

  function ClearPosition(s: Rooms, ws: Ws, seen: Option<Sighting>, now: int): Rooms {
    if ws in s.clients
    then SetMember(s, ws, s.clients[ws].(
           position := None, camera := None,
           lastSeen := if seen.Some? then Some(Anchored(seen.value, now)) else None))
    else s
  }

  // ---------- Reset clocks ----------

  predicate RoomResetAllowed(s: Rooms, roomId: string, now: int, cooldownMs: int) {
    roomId in s.roomResetMs ==> now - s.roomResetMs[roomId] >= cooldownMs
  }

  function StampRoomReset(s: Rooms, roomId: string, now: int): Rooms {
    s.(roomResetMs := s.roomResetMs[roomId := now])
  }

  predicate SenderResetAllowed(s: Rooms, roomId: string, name: string, now: int, cooldownMs: int) {
    roomId in s.senderResetMs && name in s.senderResetMs[roomId] ==> now - s.senderResetMs[roomId][name] >= cooldownMs
  }

  function StampSenderReset(s: Rooms, roomId: string, name: string, now: int): Rooms {
    var byName := if roomId in s.senderResetMs then s.senderResetMs[roomId] else map[];
    s.(senderResetMs := s.senderResetMs[roomId := byName[name := now]])
  }

  // ---------- The invariant ----------

  ghost predicate DistinctNames(ms: seq<Member>) {
    forall i, j | 0 <= i < j < |ms| :: ms[i].name != ms[j].name
  }

  /** The discipline of one entry: a position or a last sighting, never both, and
    * a camera only alongside a position. */
  predicate Disciplined(m: Member) {
    (m.position.Some? ==> m.lastSeen.None?) && (m.camera.Some? ==> m.position.Some?)
  }

  ghost predicate RoomOk(s: Rooms, r: string)
    requires r in s.rooms
  {
    && s.rooms[r] != []
    && DistinctNames(s.rooms[r])
    && forall m | m in s.rooms[r] :: m.roomId == r && m.ws in s.clients && s.clients[m.ws] == m
  }

  ghost predicate ClientOk(s: Rooms, w: Ws)
    requires w in s.clients
  {
    var m := s.clients[w];
    m.ws == w && Disciplined(m) && m.roomId in s.rooms && m in s.rooms[m.roomId]
  }

  /** The two indexes are inverse to each other, names are unique in a room, no
    * room is empty, and clocks exist only for rooms. */
  ghost predicate Inv(s: Rooms) {
    && (forall r {:trigger RoomOk(s, r)} | r in s.rooms :: RoomOk(s, r))
    && (forall w {:trigger ClientOk(s, w)} | w in s.clients :: ClientOk(s, w))
    && s.roomResetMs.Keys <= s.rooms.Keys
    && s.senderResetMs.Keys <= s.rooms.Keys
  }

  /** A member and its place: the same socket means the same entry. */
  lemma SameWsSamePlace(s: Rooms, r: string, i: nat, j: nat)
    requires Inv(s) && r in s.rooms && i < |s.rooms[r]| && j < |s.rooms[r]|
    requires s.rooms[r][i].ws == s.rooms[r][j].ws
    ensures i == j
  {
    var ms := s.rooms[r];
    assert RoomOk(s, r) && ms[i] in ms && ms[j] in ms;
    assert ms[i] == s.clients[ms[i].ws] == ms[j];
  }

  lemma WithoutDistinct(ms: seq<Member>, i: nat)
    requires i < |ms| && DistinctNames(ms)
    ensures DistinctNames(Without(ms, i))
    ensures forall m | m in Without(ms, i) :: m.name != ms[i].name
    ensures forall m | m in ms && m != ms[i] :: m in Without(ms, i)
  {
    var r := Without(ms, i);
    forall a | 0 <= a < |r| ensures r[a] == ms[if a < i then a else a + 1] {}
    forall m | m in r ensures m.name != ms[i].name {
      var a :| 0 <= a < |r| && r[a] == m;
    }
    forall m | m in ms && m != ms[i] ensures m in r {
      var a :| 0 <= a < |ms| && ms[a] == m;
      assert r[if a < i then a else a - 1] == m;
    }
  }

  /** The entries a join keeps, and that the new one's name is not among them. */
  lemma JoinKeeps(s: Rooms, roomId: string, name: string)
    requires Inv(s)
    ensures var existing := RoomOf(s, roomId);
            var dup := FindName(existing, name);
            var kept := if dup.Some? then Without(existing, dup.value) else existing;
            && DistinctNames(kept)
            && (forall m | m in kept :: m in existing && m.name != name)
            && (forall m | m in existing :: m in kept || (dup.Some? && m == existing[dup.value]))
  {
    var existing := RoomOf(s, roomId);
    var dup := FindName(existing, name);
    if roomId in s.rooms { assert RoomOk(s, roomId); }
    if dup.Some? { WithoutDistinct(existing, dup.value); }
  }

  /** What a join keeps of its room. */
  function Kept(s: Rooms, roomId: string, name: string): seq<Member> {
    var existing := RoomOf(s, roomId);
    var dup := FindName(existing, name);
    if dup.Some? then Without(existing, dup.value) else existing
  }

  lemma EvictedFacts(s: Rooms, roomId: string, name: string, ws: Ws, team: Option<Team>)
    requires Inv(s)
    ensures var e := Join(s, roomId, name, ws, team).evicted;
            e == FindInRoom(s, roomId, name) &&
            (e.Some? ==> e.value.roomId == roomId && e.value.name == name &&
                         e.value.ws in s.clients && s.clients[e.value.ws] == e.value)
  {
    var e := FindInRoom(s, roomId, name);
    if e.Some? {
      assert RoomOk(s, roomId);
      assert e.value in s.rooms[roomId];
    }
  }

  /** An entry is found under its own room and name. */
  lemma SeatFound(s: Rooms, w: Ws)
    requires Inv(s) && w in s.clients
    ensures FindInRoom(s, s.clients[w].roomId, s.clients[w].name) == Some(s.clients[w])
  {
    var m := s.clients[w];
    assert ClientOk(s, w) && RoomOk(s, m.roomId);
    var ms := s.rooms[m.roomId];
    var i :| 0 <= i < |ms| && ms[i] == m;
    assert ms[i] in ms;
    var f := FindName(ms, m.name);
    assert ms[f.value].name == ms[i].name;
  }

  /** A socket may join from no seat, or again into the one it holds. */
  predicate MayJoin(s: Rooms, roomId: string, name: string, ws: Ws) {
    ws in s.clients ==> s.clients[ws].roomId == roomId && s.clients[ws].name == name
  }

  /** An entry other than the evicted one is still found under its socket. */
  lemma JoinKeepsClient(s: Rooms, roomId: string, name: string, ws: Ws, team: Option<Team>, m: Member)
    requires Inv(s) && MayJoin(s, roomId, name, ws)
    requires m.ws in s.clients && s.clients[m.ws] == m && (m.roomId == roomId ==> m.name != name)
    ensures var j := Join(s, roomId, name, ws, team).s;
            m.ws in j.clients && j.clients[m.ws] == m && m.ws != ws
  {
    EvictedFacts(s, roomId, name, ws, team);
  }

  lemma SnocDistinct(ms: seq<Member>, m: Member)
    requires DistinctNames(ms) && forall x | x in ms :: x.name != m.name
    ensures DistinctNames(ms + [m])
  {
  }

  lemma JoinRoomOk(s: Rooms, roomId: string, name: string, ws: Ws, team: Option<Team>, r: string)
    requires Inv(s) && MayJoin(s, roomId, name, ws)
    requires r in Join(s, roomId, name, ws, team).s.rooms
    ensures RoomOk(Join(s, roomId, name, ws, team).s, r)
  {
    var j := Join(s, roomId, name, ws, team);
    var kept, info := Kept(s, roomId, name), j.s.clients[ws];
    JoinKeeps(s, roomId, name);
    var mine := if r == roomId then kept else s.rooms[r];
    if r in s.rooms { assert RoomOk(s, r); }
    forall m | m in mine ensures m.roomId == r && m.ws in j.s.clients && j.s.clients[m.ws] == m {
      assert m in RoomOf(s, r);
      JoinKeepsClient(s, roomId, name, ws, team, m);
    }
    assert info.roomId == roomId && info.ws == ws && info.name == name;
    SnocDistinct(kept, info);
    if r == roomId {
      assert j.s.rooms[r] == kept + [info];
    } else {
      assert j.s.rooms[r] == mine;
    }
  }

  lemma JoinClientOk(s: Rooms, roomId: string, name: string, ws: Ws, team: Option<Team>, w: Ws)
    requires Inv(s) && MayJoin(s, roomId, name, ws)
    requires w in Join(s, roomId, name, ws, team).s.clients
    ensures ClientOk(Join(s, roomId, name, ws, team).s, w)
  {
    var j := Join(s, roomId, name, ws, team);
    JoinKeeps(s, roomId, name);
    var kept := Kept(s, roomId, name);
    if roomId in s.rooms { assert RoomOk(s, roomId); }
    if j.evicted.Some? { assert ClientOk(s, j.evicted.value.ws); }
    if w == ws {
      assert (kept + [j.s.clients[ws]])[|kept|] == j.s.clients[ws];
    } else {
      assert ClientOk(s, w);
    }
  }

  /** A join keeps the invariant exactly when the socket may join: one that held
    * another seat would leave its entry there, out of the other index. */
  lemma JoinInv(s: Rooms, roomId: string, name: string, ws: Ws, team: Option<Team>)
    requires Inv(s)
    ensures Inv(Join(s, roomId, name, ws, team).s) <==> MayJoin(s, roomId, name, ws)
  {
    var s' := Join(s, roomId, name, ws, team).s;
    if MayJoin(s, roomId, name, ws) {
      forall r | r in s'.rooms ensures RoomOk(s', r) { JoinRoomOk(s, roomId, name, ws, team, r); }
      forall w | w in s'.clients ensures ClientOk(s', w) { JoinClientOk(s, roomId, name, ws, team, w); }
    } else {
      var m := s.clients[ws];
      assert ClientOk(s, ws);
      JoinKeeps(s, roomId, name);
      EvictedFacts(s, roomId, name, ws, team);
      assert m in s'.rooms[m.roomId] && s'.clients[ws] != m;
      assert !RoomOk(s', m.roomId);
    }
  }

  /** What a leave keeps of its room. */
  lemma LeaveKeeps(s: Rooms, ws: Ws)
    requires Inv(s) && ws in s.clients
    ensures var m := s.clients[ws];
            var left := Remaining(s, ws);
            && m.roomId in s.rooms && DistinctNames(left)
            && (forall x | x in left :: x in s.rooms[m.roomId] && x.ws != ws && x.name != m.name)
            && (forall x | x in s.rooms[m.roomId] :: x in left || x == m)
  {
    var m := s.clients[ws];
    assert ClientOk(s, ws) && RoomOk(s, m.roomId);
    var room := s.rooms[m.roomId];
    var i := FindWs(room, ws);
    assert room[i.value] in room;
    WithoutDistinct(room, i.value);
  }

  lemma LeaveRoomOk(s: Rooms, ws: Ws, r: string)
    requires Inv(s) && ws in s.clients && r in Leave(s, ws).s.rooms
    ensures RoomOk(Leave(s, ws).s, r)
  {
    LeaveKeeps(s, ws);
    assert RoomOk(s, r);
    var s' := Leave(s, ws).s;
    forall m | m in s'.rooms[r] ensures m.roomId == r && m.ws in s'.clients && s'.clients[m.ws] == m {
      assert m in s.rooms[r];
    }
  }

  lemma LeaveInv(s: Rooms, ws: Ws)
    requires Inv(s)
    ensures Inv(Leave(s, ws).s)
  {
    if ws in s.clients {
      var s' := Leave(s, ws).s;
      LeaveKeeps(s, ws);
      forall r | r in s'.rooms ensures RoomOk(s', r) {
        LeaveRoomOk(s, ws, r);
      }
      forall w | w in s'.clients ensures ClientOk(s', w) {
        assert ClientOk(s, w) && ClientOk(s, ws);
      }
    }
  }

  /** What replacing an entry does to its room. */
  lemma SetMemberRoom(s: Rooms, ws: Ws, m: Member)
    requires Inv(s) && ws in s.clients
    ensures var r := s.clients[ws].roomId;
            && r in s.rooms && FindWs(s.rooms[r], ws).Some?
            && var room, i := s.rooms[r], FindWs(s.rooms[r], ws).value;
            && room[i] == s.clients[ws]
            && SetMember(s, ws, m).rooms == s.rooms[r := room[i := m]]
            && forall k | 0 <= k < |room| && k != i :: room[k].ws != ws
  {
    var r := s.clients[ws].roomId;
    assert ClientOk(s, ws) && RoomOk(s, r);
    var room := s.rooms[r];
    var i := FindWs(room, ws).value;
    assert room[i] in room;
    forall k | 0 <= k < |room| && k != i ensures room[k].ws != ws {
      if room[k].ws == ws { SameWsSamePlace(s, r, k, i); }
    }
  }

  lemma SetMemberRoomOk(s: Rooms, ws: Ws, m: Member, r: string)
    requires Inv(s) && ws in s.clients && r in s.rooms
    requires m.ws == ws && m.roomId == s.clients[ws].roomId && m.name == s.clients[ws].name
    ensures r in SetMember(s, ws, m).rooms && RoomOk(SetMember(s, ws, m), r)
  {
    SetMemberRoom(s, ws, m);
    assert RoomOk(s, r);
    var s', room := SetMember(s, ws, m), s.rooms[r];
    var room' := s'.rooms[r];
    forall x | x in room' ensures x.roomId == r && x.ws in s'.clients && s'.clients[x.ws] == x {
      var k :| 0 <= k < |room'| && room'[k] == x;
      assert room[k] in room;
    }
  }

  lemma SetMemberClientOk(s: Rooms, ws: Ws, m: Member, w: Ws)
    requires Inv(s) && ws in s.clients && w in s.clients && Disciplined(m)
    requires m.ws == ws && m.roomId == s.clients[ws].roomId && m.name == s.clients[ws].name
    ensures w in SetMember(s, ws, m).clients && ClientOk(SetMember(s, ws, m), w)
  {
    SetMemberRoom(s, ws, m);
    assert ClientOk(s, w);
    var s', x := SetMember(s, ws, m), s.clients[w];
    var room, room' := s.rooms[x.roomId], s'.rooms[x.roomId];
    var k :| 0 <= k < |room| && room[k] == x;
    assert room'[k] == s'.clients[w];
  }

  /** Replacing an entry by one of the same socket, room and name keeps both
    * indexes in step. */
  lemma SetMemberInv(s: Rooms, ws: Ws, m: Member)
    requires Inv(s) && ws in s.clients && Disciplined(m)
    requires m.ws == ws && m.roomId == s.clients[ws].roomId && m.name == s.clients[ws].name
    ensures Inv(SetMember(s, ws, m))
    ensures SetMember(s, ws, m).rooms.Keys == s.rooms.Keys
  {
    var s' := SetMember(s, ws, m);
    SetMemberRoom(s, ws, m);
    forall r | r in s'.rooms ensures RoomOk(s', r) { SetMemberRoomOk(s, ws, m, r); }
    forall w | w in s'.clients ensures ClientOk(s', w) { SetMemberClientOk(s, ws, m, w); }
  }
}
