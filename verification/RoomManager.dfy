/** The room manager as the server keeps it (server/src/rooms.ts): two maps
  * sharing client objects that are updated in place. Every method is proved to
  * do to the objects what RoomState says of their values. */
module RoomManagement {
  import opened Options
  import opened RoomState

  class ClientObject {
    const roomId: string
    const name: string
    const ws: Ws
    var team: Option<Team>
    var position: Option<Stamped>
    var camera: Option<Stamped>
    var lastSeen: Option<Stamped>
    var sharedReset: bool

    constructor (m: Member)
      ensures Value() == m
    {
      roomId, name, ws, team := m.roomId, m.name, m.ws, m.team;
      position, camera, lastSeen, sharedReset := m.position, m.camera, m.lastSeen, m.sharedReset;
    }

    function Value(): Member
      reads this
    {
      Member(roomId, name, ws, team, position, camera, lastSeen, sharedReset)
    }
  }

  // ---------- The same shape: who stands where ----------

  type RoomMap = map<string, seq<ClientObject>>
  type ClientMap = map<Ws, ClientObject>

  /** An object stands where the state has its entry, and is the one filed under
    * its socket. */
  ghost predicate EntryShape(clients: ClientMap, o: ClientObject, m: Member) {
    o.ws == m.ws && o.name == m.name && o.ws in clients && clients[o.ws] == o
  }

  ghost predicate RoomShape(clients: ClientMap, objs: seq<ClientObject>, ms: seq<Member>) {
    |objs| == |ms| && forall i | 0 <= i < |objs| :: EntryShape(clients, objs[i], ms[i])
  }

  ghost predicate Shape(rooms: RoomMap, clients: ClientMap, s: Rooms) {
    && rooms.Keys == s.rooms.Keys && clients.Keys == s.clients.Keys
    && forall r {:trigger RoomShape(clients, rooms[r], s.rooms[r])} | r in rooms ::
        RoomShape(clients, rooms[r], s.rooms[r])
  }

  function ObjectsOf(rooms: RoomMap, r: string): seq<ClientObject> {
    if r in rooms then rooms[r] else []
  }

  lemma ShapeOf(rooms: RoomMap, clients: ClientMap, s: Rooms, r: string)
    requires Shape(rooms, clients, s)
    ensures RoomShape(clients, ObjectsOf(rooms, r), RoomOf(s, r))
  {
  }

  function FirstNamed(objs: seq<ClientObject>, name: string): (r: Option<nat>)
    ensures r.Some? ==> r.value < |objs|
  {
    if objs == [] then None
    else if objs[0].name == name then Some(0)
    else
      var r := FirstNamed(objs[1..], name);
      if r.Some? then Some(r.value + 1) else None
  }

  function IndexOf(objs: seq<ClientObject>, o: ClientObject): (r: Option<nat>)
    ensures r.Some? ==> r.value < |objs|
  {
    if objs == [] then None
    else if objs[0] == o then Some(0)
    else
      var r := IndexOf(objs[1..], o);
      if r.Some? then Some(r.value + 1) else None
  }

  function OtherObjects(objs: seq<ClientObject>, ws: Ws): seq<ClientObject> {
    if objs == [] then []
    else (if objs[0].ws != ws then [objs[0]] else []) + OtherObjects(objs[1..], ws)
  }

  function NamesOf(objs: seq<ClientObject>): seq<string> {
    seq(|objs|, i requires 0 <= i < |objs| => objs[i].name)
  }

  lemma ShapeTail(clients: ClientMap, objs: seq<ClientObject>, ms: seq<Member>)
    requires RoomShape(clients, objs, ms) && objs != []
    ensures RoomShape(clients, objs[1..], ms[1..]) && EntryShape(clients, objs[0], ms[0])
  {
    forall i | 0 <= i < |objs| - 1 ensures EntryShape(clients, objs[1..][i], ms[1..][i]) {
      assert EntryShape(clients, objs[i + 1], ms[i + 1]);
    }
  }

  lemma {:induction false} NamedAgree(clients: ClientMap, objs: seq<ClientObject>, ms: seq<Member>, name: string)
    requires RoomShape(clients, objs, ms)
    ensures FirstNamed(objs, name) == FindName(ms, name)
  {
    if objs != [] {
      ShapeTail(clients, objs, ms);
      NamedAgree(clients, objs[1..], ms[1..], name);
    }
  }

  /** Looking for the object itself finds the entry of its socket. */
  lemma {:induction false} IndexAgree(clients: ClientMap, objs: seq<ClientObject>, ms: seq<Member>, ws: Ws)
    requires RoomShape(clients, objs, ms) && ws in clients && clients[ws].ws == ws
    ensures IndexOf(objs, clients[ws]) == FindWs(ms, ws)
  {
    if objs != [] {
      ShapeTail(clients, objs, ms);
      IndexAgree(clients, objs[1..], ms[1..], ws);
    }
  }

  lemma {:induction false} OthersAgree(clients: ClientMap, objs: seq<ClientObject>, ms: seq<Member>, ws: Ws)
    requires RoomShape(clients, objs, ms)
    ensures RoomShape(clients, OtherObjects(objs, ws), FilterOthers(ms, ws))
  {
    if objs != [] {
      ShapeTail(clients, objs, ms);
      OthersAgree(clients, objs[1..], ms[1..], ws);
    }
  }

  lemma NamesAgree(clients: ClientMap, objs: seq<ClientObject>, ms: seq<Member>)
    requires RoomShape(clients, objs, ms)
    ensures NamesOf(objs) == Names(ms)
  {
    forall i | 0 <= i < |objs| ensures NamesOf(objs)[i] == Names(ms)[i] { assert EntryShape(clients, objs[i], ms[i]); }
  }

  // ---------- What each update does to the shape ----------

  lemma ShapeSet(rooms: RoomMap, clients: ClientMap, s: Rooms, ws: Ws, m: Member)
    requires Shape(rooms, clients, s) && ws in s.clients && m.ws == ws && clients[ws].name == m.name
    ensures Shape(rooms, clients, SetMember(s, ws, m))
  {
    var s', r0 := SetMember(s, ws, m), s.clients[ws].roomId;
    forall r | r in rooms ensures RoomShape(clients, rooms[r], s'.rooms[r]) {
      assert RoomShape(clients, rooms[r], s.rooms[r]);
      forall i | 0 <= i < |rooms[r]| ensures EntryShape(clients, rooms[r][i], s'.rooms[r][i]) {
        assert EntryShape(clients, rooms[r][i], s.rooms[r][i]);
      }
    }
  }

  /** A socket that stands in no entry can be dropped from the clients. */
  lemma ShapeDrop(clients: ClientMap, objs: seq<ClientObject>, ms: seq<Member>, ws: Ws)
    requires RoomShape(clients, objs, ms) && forall m | m in ms :: m.ws != ws
    ensures RoomShape(clients - {ws}, objs, ms)
  {
    forall i | 0 <= i < |objs| ensures EntryShape(clients - {ws}, objs[i], ms[i]) {
      assert EntryShape(clients, objs[i], ms[i]) && ms[i] in ms;
    }
  }

  lemma ShapeAdd(clients: ClientMap, objs: seq<ClientObject>, ms: seq<Member>, ws: Ws, o: ClientObject)
    requires RoomShape(clients, objs, ms) && ws !in clients
    ensures RoomShape(clients[ws := o], objs, ms)
  {
    forall i | 0 <= i < |objs| ensures EntryShape(clients[ws := o], objs[i], ms[i]) {
      assert EntryShape(clients, objs[i], ms[i]);
    }
  }

  lemma ShapeWithout(clients: ClientMap, objs: seq<ClientObject>, ms: seq<Member>, i: nat)
    requires RoomShape(clients, objs, ms) && i < |objs|
    ensures RoomShape(clients, Without(objs, i), Without(ms, i))
  {
    var objs', ms' := Without(objs, i), Without(ms, i);
    forall k | 0 <= k < |objs'| ensures EntryShape(clients, objs'[k], ms'[k]) {
      var j := if k < i then k else k + 1;
      assert EntryShape(clients, objs[j], ms[j]);
    }
  }

  lemma ShapeSnoc(clients: ClientMap, objs: seq<ClientObject>, ms: seq<Member>, o: ClientObject, m: Member)
    requires RoomShape(clients, objs, ms) && EntryShape(clients, o, m)
    ensures RoomShape(clients, objs + [o], ms + [m])
  {
    forall k | 0 <= k < |objs| + 1 ensures EntryShape(clients, (objs + [o])[k], (ms + [m])[k]) {
      if k < |objs| { assert EntryShape(clients, objs[k], ms[k]); }
    }
  }

  /** Once its own entry is removed, a socket stands in no entry of any room. */
  lemma GoneEverywhere(s: Rooms, ws: Ws, r: string, i: nat)
    requires Inv(s) && ws in s.clients && r == s.clients[ws].roomId
    requires i < |RoomOf(s, r)| && RoomOf(s, r)[i].ws == ws
    ensures forall m | m in Without(RoomOf(s, r), i) :: m.ws != ws
    ensures forall q, m | q in s.rooms && q != r && m in s.rooms[q] :: m.ws != ws
  {
    var ms := s.rooms[r];
    forall k: nat | k < |ms| && k != i ensures ms[k].ws != ws {
      if ms[k].ws == ws { SameWsSamePlace(s, r, i, k); }
    }
    forall q, m | q in s.rooms && q != r && m in s.rooms[q] ensures m.ws != ws {
      assert RoomOk(s, q);
    }
  }

  /** The shape after the entry of `ws` is removed from its room and the clients. */
  lemma ShapeLeave(rooms: RoomMap, clients: ClientMap, s: Rooms, ws: Ws, i: nat, r: string)
    requires Shape(rooms, clients, s) && Inv(s) && ws in s.clients
    requires var home := s.clients[ws].roomId; i < |RoomOf(s, home)| && RoomOf(s, home)[i].ws == ws
    requires r in rooms && (r == s.clients[ws].roomId ==> i < |rooms[r]|)
    ensures RoomShape(clients - {ws}, if r == s.clients[ws].roomId then Without(rooms[r], i) else rooms[r],
                      if r == s.clients[ws].roomId then Without(s.rooms[r], i) else s.rooms[r])
  {
    var home := s.clients[ws].roomId;
    GoneEverywhere(s, ws, home, i);
    assert RoomShape(clients, rooms[r], s.rooms[r]);
    if r == home {
      ShapeWithout(clients, rooms[r], s.rooms[r], i);
      ShapeDrop(clients, Without(rooms[r], i), Without(s.rooms[r], i), ws);
    } else {
      ShapeDrop(clients, rooms[r], s.rooms[r], ws);
    }
  }

  /** What a join keeps of its room, as objects, and the clients it keeps. */
  function KeptObjects(objs: seq<ClientObject>, name: string): seq<ClientObject> {
    var dup := FirstNamed(objs, name);
    if dup.Some? then Without(objs, dup.value) else objs
  }

  function KeptClients(clients: ClientMap, objs: seq<ClientObject>, name: string): ClientMap {
    var dup := FirstNamed(objs, name);
    if dup.Some? then clients - {objs[dup.value].ws} else clients
  }

  lemma ShapeEvict(rooms: RoomMap, clients: ClientMap, s: Rooms, roomId: string, name: string, r: string)
    requires Shape(rooms, clients, s) && Inv(s)
    ensures RoomShape(KeptClients(clients, ObjectsOf(rooms, roomId), name),
                      if r == roomId then KeptObjects(ObjectsOf(rooms, r), name) else ObjectsOf(rooms, r),
                      if r == roomId then Kept(s, r, name) else RoomOf(s, r))
  {
    var dup := FindName(RoomOf(s, roomId), name);
    ShapeOf(rooms, clients, s, r);
    ShapeOf(rooms, clients, s, roomId);
    NamedAgree(clients, ObjectsOf(rooms, roomId), RoomOf(s, roomId), name);
    if dup.Some? {
      var e := RoomOf(s, roomId)[dup.value];
      assert RoomOk(s, roomId) && e in s.rooms[roomId];
      assert EntryShape(clients, rooms[roomId][dup.value], e);
      if r in rooms { ShapeLeave(rooms, clients, s, e.ws, dup.value, r); }
    }
  }

  lemma ShapeJoin(rooms: RoomMap, clients: ClientMap, s: Rooms, roomId: string, name: string, ws: Ws,
      team: Option<Team>, o: ClientObject)
    requires Shape(rooms, clients, s) && Inv(s) && MayJoin(s, roomId, name, ws) && o.ws == ws && o.name == name
    ensures var objs := ObjectsOf(rooms, roomId);
            Shape(rooms[roomId := KeptObjects(objs, name) + [o]], KeptClients(clients, objs, name)[ws := o],
                  Join(s, roomId, name, ws, team).s)
  {
    var objs := ObjectsOf(rooms, roomId);
    var clients1 := KeptClients(clients, objs, name);
    var rooms', clients' := rooms[roomId := KeptObjects(objs, name) + [o]], clients1[ws := o];
    var s' := Join(s, roomId, name, ws, team).s;
    ShapeOf(rooms, clients, s, roomId);
    NamedAgree(clients, objs, RoomOf(s, roomId), name);
    JoinClientKeys(clients, objs, s, roomId, name, ws, team);
    OwnSeatGoes(clients, objs, s, roomId, name, ws);
    forall r | r in rooms' ensures RoomShape(clients', rooms'[r], s'.rooms[r]) {
      ShapeEvict(rooms, clients, s, roomId, name, r);
      if r == roomId {
        ShapeAdd(clients1, KeptObjects(objs, name), Kept(s, r, name), ws, o);
        ShapeSnoc(clients', KeptObjects(objs, name), Kept(s, r, name), o, s'.clients[ws]);
      } else {
        ShapeAdd(clients1, rooms[r], s.rooms[r], ws, o);
      }
    }
  }

  /** A socket that joins its own seat again is the one evicted. */
  lemma OwnSeatGoes(clients: ClientMap, objs: seq<ClientObject>, s: Rooms, roomId: string, name: string, ws: Ws)
    requires RoomShape(clients, objs, RoomOf(s, roomId)) && clients.Keys == s.clients.Keys
    requires Inv(s) && MayJoin(s, roomId, name, ws)
    ensures ws !in KeptClients(clients, objs, name)
  {
    if ws in clients {
      SeatFound(s, ws);
      NamedAgree(clients, objs, RoomOf(s, roomId), name);
      var i := FindName(RoomOf(s, roomId), name).value;
      assert ClientOk(s, ws) && EntryShape(clients, objs[i], RoomOf(s, roomId)[i]);
    }
  }

  lemma JoinClientKeys(clients: ClientMap, objs: seq<ClientObject>, s: Rooms, roomId: string, name: string, ws: Ws,
                       team: Option<Team>)
    requires RoomShape(clients, objs, RoomOf(s, roomId)) && clients.Keys == s.clients.Keys
    ensures KeptClients(clients, objs, name).Keys + {ws} == Join(s, roomId, name, ws, team).s.clients.Keys
  {
    NamedAgree(clients, objs, RoomOf(s, roomId), name);
    var dup := FirstNamed(objs, name);
    if dup.Some? { assert EntryShape(clients, objs[dup.value], RoomOf(s, roomId)[dup.value]); }
  }

  /** Everything a join needs to know of the two maps. */
  lemma JoinFacts(rooms: RoomMap, clients: ClientMap, s: Rooms, roomId: string, name: string, ws: Ws,
      team: Option<Team>)
    requires Shape(rooms, clients, s) && Inv(s)
    ensures var objs, j := ObjectsOf(rooms, roomId), Join(s, roomId, name, ws, team);
            var dup := FirstNamed(objs, name);
            && NamesOf(KeptObjects(objs, name)) == j.peers
            && (dup.Some? <==> j.evicted.Some?)
            && (dup.Some? ==> objs[dup.value].ws in clients && clients[objs[dup.value].ws] == objs[dup.value] &&
                              objs[dup.value].ws in s.clients && s.clients[objs[dup.value].ws] == j.evicted.value)
            && j.s.clients == (s.clients - (s.clients.Keys - KeptClients(clients, objs, name).Keys))
                              [ws := NewMember(roomId, name, ws, team, j.evicted)]
            && j.s.roomResetMs == s.roomResetMs && j.s.senderResetMs == s.senderResetMs
  {
    var objs := ObjectsOf(rooms, roomId);
    var dup := FirstNamed(objs, name);
    ShapeOf(rooms, clients, s, roomId);
    NamedAgree(clients, objs, RoomOf(s, roomId), name);
    ShapeEvict(rooms, clients, s, roomId, name, roomId);
    NamesAgree(KeptClients(clients, objs, name), KeptObjects(objs, name), Kept(s, roomId, name));
    EvictedFacts(s, roomId, name, ws, team);
    if dup.Some? { assert EntryShape(clients, objs[dup.value], RoomOf(s, roomId)[dup.value]); }
  }

  datatype GoneObjects = GoneObjects(roomId: string, name: string, remaining: seq<ClientObject>)

  /** A leaving socket's object stands where its entry does. */
  lemma HomeIndex(rooms: RoomMap, clients: ClientMap, s: Rooms, ws: Ws)
    requires Shape(rooms, clients, s) && Inv(s) && ws in clients && clients[ws].ws == ws
    ensures var home := s.clients[ws].roomId;
            && home in rooms && IndexOf(rooms[home], clients[ws]).Some?
            && IndexOf(rooms[home], clients[ws]) == FindWs(s.rooms[home], ws)
  {
    assert ClientOk(s, ws);
    var home := s.clients[ws].roomId;
    assert RoomShape(clients, rooms[home], s.rooms[home]);
    IndexAgree(clients, rooms[home], s.rooms[home], ws);
  }

  lemma LeaveIs(s: Rooms, ws: Ws)
    requires ws in s.clients
    ensures var l, left, m := Leave(s, ws), Remaining(s, ws), s.clients[ws];
            && l.s.clients == s.clients - {ws} && l.gone == Some(Gone(m.roomId, m.name, left))
            && l.s.rooms == (if left == [] then s.rooms - {m.roomId} else s.rooms[m.roomId := left])
            && l.s.roomResetMs == (if left == [] then s.roomResetMs - {m.roomId} else s.roomResetMs)
            && l.s.senderResetMs == (if left == [] then s.senderResetMs - {m.roomId} else s.senderResetMs)
  {
  }

  /** Everything a leave needs to know of the two maps. */
  lemma LeaveFacts(rooms: RoomMap, clients: ClientMap, s: Rooms, ws: Ws)
    requires Shape(rooms, clients, s) && Inv(s) && ws in clients && clients[ws].ws == ws
    ensures var home := s.clients[ws].roomId;
            && home in rooms
            && var i := IndexOf(rooms[home], clients[ws]);
            && i.Some? && i == FindWs(s.rooms[home], ws)
            && RoomShape(clients - {ws}, Without(rooms[home], i.value), Remaining(s, ws))
            && Shape(if Remaining(s, ws) == [] then rooms - {home} else rooms[home := Without(rooms[home], i.value)],
                     clients - {ws}, Leave(s, ws).s)
  {
    HomeIndex(rooms, clients, s, ws);
    LeaveIs(s, ws);
    hide Inv, Leave, Remaining, RoomShape;
    var home := s.clients[ws].roomId;
    var i := IndexOf(rooms[home], clients[ws]).value;
    ShapeLeave(rooms, clients, s, ws, i, home);
    var rooms' := if Remaining(s, ws) == [] then rooms - {home} else rooms[home := Without(rooms[home], i)];
    var s' := Leave(s, ws).s;
    forall r | r in rooms' ensures RoomShape(clients - {ws}, rooms'[r], s'.rooms[r]) {
      ShapeLeave(rooms, clients, s, ws, i, r);
    }
  }

  /** One of those a leave leaves behind. */
  lemma RemainingEntry(rooms: RoomMap, clients: ClientMap, s: Rooms, ws: Ws, i: nat)
    requires Shape(rooms, clients, s) && Inv(s) && ws in clients && clients[ws].ws == ws
    requires i < |Remaining(s, ws)|
    ensures var home := s.clients[ws].roomId;
            && home in rooms && IndexOf(rooms[home], clients[ws]).Some?
            && var left := Without(rooms[home], IndexOf(rooms[home], clients[ws]).value);
            && i < |left| && left[i].ws in clients && clients[left[i].ws] == left[i]
            && left[i].ws in s.clients && s.clients[left[i].ws] == Remaining(s, ws)[i]
  {
    LeaveFacts(rooms, clients, s, ws);
    LeaveKeeps(s, ws);
    var home := s.clients[ws].roomId;
    var left := Without(rooms[home], IndexOf(rooms[home], clients[ws]).value);
    var m := Remaining(s, ws)[i];
    assert EntryShape(clients - {ws}, left[i], m) && m in Remaining(s, ws);
    assert RoomOk(s, home);
  }

  // ---------- The manager ----------

  class RoomManager {
    var rooms: RoomMap
    var clients: ClientMap
    var roomResetMs: map<string, int>
    var senderResetMs: map<string, map<string, int>>

    /** What the two maps and their objects amount to. */
    ghost var State: Rooms
    /** The client objects. */
    ghost var Repr: set<ClientObject>

    ghost predicate Mirrors(w: Ws)
      reads `clients, `State, `Repr, Repr
    {
      w in clients && w in State.clients && clients[w] in Repr && clients[w].ws == w &&
          clients[w].Value() == State.clients[w]
    }

    ghost predicate Valid()
      reads this, Repr
    {
      && Shape(rooms, clients, State)
      && roomResetMs == State.roomResetMs && senderResetMs == State.senderResetMs
      && forall w {:trigger Mirrors(w)} | w in clients :: Mirrors(w)
    }

    constructor ()
      ensures Valid() && State == NO_ROOMS && Repr == {}
    {
      rooms, clients, roomResetMs, senderResetMs := map[], map[], map[], map[];
      State, Repr := NO_ROOMS, {};
    }

    /** The state is what the objects in the two maps say, wherever they stand. */
    lemma StateIsTheObjects(r: string, i: nat)
      requires Valid() && Inv(State) && r in rooms && i < |rooms[r]|
      ensures r in State.rooms && |State.rooms[r]| == |rooms[r]|
      ensures rooms[r][i] in Repr && rooms[r][i].Value() == State.rooms[r][i]
    {
      assert RoomShape(clients, rooms[r], State.rooms[r]);
      var o, m := rooms[r][i], State.rooms[r][i];
      assert EntryShape(clients, o, m) && RoomOk(State, r) && m in State.rooms[r];
      assert Mirrors(o.ws);
    }

    // ---------- Joining and leaving ----------

    method Join(roomId: string, name: string, ws: Ws, team: Option<Team>)
      returns (peers: seq<string>, evicted: Option<ClientObject>)
      requires Valid() && Inv(State) && MayJoin(State, roomId, name, ws)
      modifies this
      ensures Valid() && Repr >= old(Repr) && fresh(Repr - old(Repr))
      ensures var j := RoomState.Join(old(State), roomId, name, ws, team);
              State == j.s && peers == j.peers &&
              (evicted.Some? <==> j.evicted.Some?) && (evicted.Some? ==> evicted.value.Value() == j.evicted.value)
    {
      hide RoomState.Join, Shape, RoomShape, Inv, MayJoin;
      var existing := ObjectsOf(rooms, roomId);
      var dupIdx := FirstNamed(existing, name);
      var entry: Option<Member> := None;
      ghost var s, j := State, RoomState.Join(State, roomId, name, ws, team);
      JoinFacts(rooms, clients, s, roomId, name, ws, team);
      var others := clients;
      evicted := None;
      if dupIdx.Some? {
        assert Mirrors(existing[dupIdx.value].ws);
        evicted := Some(existing[dupIdx.value]);
        entry := Some(evicted.value.Value());
        existing := Without(existing, dupIdx.value);
        others := others - {evicted.value.ws};
      }
      peers := NamesOf(existing);
      var info := new ClientObject(NewMember(roomId, name, ws, team, entry));
      assert info.Value().ws == ws && info.Value().name == name;
      ShapeJoin(rooms, clients, s, roomId, name, ws, team, info);
      assert others == KeptClients(clients, ObjectsOf(rooms, roomId), name);
      forall w | w in others && w != ws ensures w in clients && Mirrors(w) && j.s.clients[w] == State.clients[w] {
        assert old(Mirrors(w));
      }
      Refile(rooms[roomId := existing + [info]], others[ws := info], {info}, j.s);
    }

    method Leave(ws: Ws) returns (gone: Option<GoneObjects>)
      requires Valid() && Inv(State)
      modifies this
      ensures Valid() && Repr == old(Repr)
      ensures var l := RoomState.Leave(old(State), ws);
              State == l.s && (gone.Some? <==> l.gone.Some?) &&
              (gone.Some? ==> gone.value.roomId == l.gone.value.roomId && gone.value.name == l.gone.value.name &&
                              Depicts(gone.value.remaining, l.gone.value.remaining))
    {
      if ws !in clients { return None; }
      assert Mirrors(ws);
      hide RoomState.Leave, Remaining, Shape, Inv, Without;
      var info := clients[ws];
      ghost var s, left := State, Remaining(State, ws);
      LeaveFacts(rooms, clients, s, ws);
      LeaveIs(s, ws);
      RemainingDepicted(ws);
      var room := rooms[info.roomId];
      var idx := IndexOf(room, info);
      room := Without(room, idx.value);
      var rooms' := rooms[info.roomId := room];
      if |room| == 0 {
        rooms' := rooms - {info.roomId};
        roomResetMs := roomResetMs - {info.roomId};
        senderResetMs := senderResetMs - {info.roomId};
      }
      Refile(rooms', clients - {ws}, {}, RoomState.Leave(s, ws).s);
      gone := Some(GoneObjects(info.roomId, info.name, room));
    }

    /** The two maps changed: each entry one there was, or a new object. */
    method Refile(newRooms: RoomMap, newClients: ClientMap, ghost added: set<ClientObject>, ghost s: Rooms)
      requires newClients.Keys <= s.clients.Keys
      requires forall w | w in newClients ::
                 if newClients[w] in added then newClients[w].ws == w && newClients[w].Value() == s.clients[w]
                 else w in clients && Mirrors(w) && newClients[w] == clients[w] && s.clients[w] == State.clients[w]
      modifies `rooms, `clients, `State, `Repr
      ensures rooms == newRooms && clients == newClients && State == s && Repr == old(Repr) + added
      ensures forall w {:trigger Mirrors(w)} | w in clients :: Mirrors(w)
    {
      rooms, clients, State, Repr := newRooms, newClients, s, Repr + added;
      forall w | w in clients ensures Mirrors(w) { assert newClients[w] !in added ==> old(Mirrors(w)); }
    }

    /** The objects left behind hold the entries left behind. */
    lemma RemainingDepicted(ws: Ws)
      requires Valid() && Inv(State) && ws in clients
      ensures var home := State.clients[ws].roomId;
              && home in rooms && IndexOf(rooms[home], clients[ws]).Some?
              && Depicts(Without(rooms[home], IndexOf(rooms[home], clients[ws]).value), Remaining(State, ws))
    {
      assert Mirrors(ws);
      LeaveFacts(rooms, clients, State, ws);
      var home := State.clients[ws].roomId;
      var left := Without(rooms[home], IndexOf(rooms[home], clients[ws]).value);
      forall i | 0 <= i < |left| ensures left[i] in Repr && left[i].Value() == Remaining(State, ws)[i] {
        RemainingEntry(rooms, clients, State, ws, i);
        assert Mirrors(left[i].ws);
      }
    }

    // ---------- Looking up ----------

    /** Objects that hold these entries. */
    ghost predicate Depicts(objs: seq<ClientObject>, ms: seq<Member>)
      reads `Repr, Repr
    {
      |objs| == |ms| && forall i | 0 <= i < |objs| :: objs[i] in Repr && objs[i].Value() == ms[i]
    }

    method GetOthersInRoom(ws: Ws) returns (others: seq<ClientObject>)
      requires Valid() && Inv(State)
      ensures Depicts(others, OthersInRoom(State, ws))
    {
      if ws !in clients { return []; }
      assert Mirrors(ws);
      assert ClientOk(State, ws);
      others := OtherObjects(rooms[clients[ws].roomId], ws);
      ghost var ms := OthersInRoom(State, ws);
      ShapeOf(rooms, clients, State, clients[ws].roomId);
      OthersAgree(clients, rooms[clients[ws].roomId], State.rooms[clients[ws].roomId], ws);
      FilterOthersHas(State.rooms[clients[ws].roomId], ws);
      forall i | 0 <= i < |others| ensures others[i] in Repr && others[i].Value() == ms[i] {
        assert EntryShape(clients, others[i], ms[i]) && ms[i] in ms;
        assert RoomOk(State, clients[ws].roomId) && Mirrors(others[i].ws);
      }
    }

    method FindInRoom(roomId: string, name: string) returns (found: Option<ClientObject>)
      requires Valid() && Inv(State)
      ensures var m := RoomState.FindInRoom(State, roomId, name);
              (found.Some? <==> m.Some?) && (found.Some? ==> found.value in Repr && found.value.Value() == m.value)
    {
      if roomId !in rooms { return None; }
      var i := FirstNamed(rooms[roomId], name);
      ShapeOf(rooms, clients, State, roomId);
      NamedAgree(clients, rooms[roomId], State.rooms[roomId], name);
      if i.None? { return None; }
      StateIsTheObjects(roomId, i.value);
      found := Some(rooms[roomId][i.value]);
    }

    method GetClientInfo(ws: Ws) returns (info: Option<ClientObject>)
      requires Valid()
      ensures var m := ClientInfo(State, ws);
              (info.Some? <==> m.Some?) && (info.Some? ==> info.value in Repr && info.value.Value() == m.value)
    {
      if ws !in clients { return None; }
      assert Mirrors(ws);
      info := Some(clients[ws]);
    }

    // ---------- Updating an entry in place ----------

    method SetTeam(ws: Ws, team: Team)
      requires Valid()
      modifies `State, Repr
      ensures Valid() && State == RoomState.SetTeam(old(State), ws, team)
    {
      if ws !in clients { return; }
      assert Mirrors(ws);
      var info := clients[ws];
      info.team := Some(team);
      ShapeSet(rooms, clients, State, ws, info.Value());
      State := SetMember(State, ws, info.Value());
      forall w | w in clients ensures Mirrors(w) { assert old(Mirrors(w)); }
    }

    method SetPosition(ws: Ws, x: real, y: real, now: int)
      requires Valid()
      modifies `State, Repr
      ensures Valid() && State == RoomState.SetPosition(old(State), ws, x, y, now)
    {
      if ws !in clients { return; }
      assert Mirrors(ws);
      var info := clients[ws];
      info.position := Some(Stamped(x, y, now));
      info.lastSeen := None;
      ShapeSet(rooms, clients, State, ws, info.Value());
      State := SetMember(State, ws, info.Value());
      forall w | w in clients ensures Mirrors(w) { assert old(Mirrors(w)); }
    }

    method SetCamera(ws: Ws, x: real, y: real, now: int)
      requires Valid()
      modifies `State, Repr
      ensures Valid() && State == RoomState.SetCamera(old(State), ws, x, y, now)
    {
      if ws !in clients { return; }
      assert Mirrors(ws);
      var info := clients[ws];
      info.camera := Some(Stamped(x, y, now));
      ShapeSet(rooms, clients, State, ws, info.Value());
      State := SetMember(State, ws, info.Value());
      forall w | w in clients ensures Mirrors(w) { assert old(Mirrors(w)); }
    }

    method ClearCamera(ws: Ws)
      requires Valid()
      modifies `State, Repr
      ensures Valid() && State == RoomState.ClearCamera(old(State), ws)
    {
      if ws !in clients { return; }
      assert Mirrors(ws);
      var info := clients[ws];
      info.camera := None;
      ShapeSet(rooms, clients, State, ws, info.Value());
      State := SetMember(State, ws, info.Value());
      forall w | w in clients ensures Mirrors(w) { assert old(Mirrors(w)); }
    }

    method SetSharedReset(ws: Ws, on: bool)
      requires Valid()
      modifies `State, Repr
      ensures Valid() && State == RoomState.SetSharedReset(old(State), ws, on)
    {
      if ws !in clients { return; }
      assert Mirrors(ws);
      var info := clients[ws];
      info.sharedReset := on;
      ShapeSet(rooms, clients, State, ws, info.Value());
      State := SetMember(State, ws, info.Value());
      forall w | w in clients ensures Mirrors(w) { assert old(Mirrors(w)); }
    }

    method ClearPosition(ws: Ws, seen: Option<Sighting>, now: int)
      requires Valid()
      modifies `State, Repr
      ensures Valid() && State == RoomState.ClearPosition(old(State), ws, seen, now)
    {
      if ws !in clients { return; }
      assert Mirrors(ws);
      var info := clients[ws];
      if seen.Some? {
        info.lastSeen := Some(Anchored(seen.value, now));
      } else {
        info.lastSeen := None;
      }
      info.position := None;
      info.camera := None;
      ShapeSet(rooms, clients, State, ws, info.Value());
      State := SetMember(State, ws, info.Value());
      forall w | w in clients ensures Mirrors(w) { assert old(Mirrors(w)); }
    }

    // ---------- Reset clocks ----------

    method TryStampRoomReset(roomId: string, now: int, cooldownMs: int) returns (ok: bool)
      requires Valid()
      modifies `roomResetMs, `State
      ensures Valid() && ok == RoomResetAllowed(old(State), roomId, now, cooldownMs)
      ensures State == if ok then StampRoomReset(old(State), roomId, now) else old(State)
    {
      if roomId in roomResetMs && now - roomResetMs[roomId] < cooldownMs { return false; }
      roomResetMs := roomResetMs[roomId := now];
      State := StampRoomReset(State, roomId, now);
      forall w | w in clients ensures Mirrors(w) { assert old(Mirrors(w)); }
      ok := true;
    }

    method SenderResetAllowed(roomId: string, name: string, now: int, cooldownMs: int) returns (ok: bool)
      requires Valid()
      ensures ok == RoomState.SenderResetAllowed(State, roomId, name, now, cooldownMs)
    {
      ok := roomId !in senderResetMs || name !in senderResetMs[roomId] ||
          now - senderResetMs[roomId][name] >= cooldownMs;
    }

    method StampSenderReset(roomId: string, name: string, now: int)
      requires Valid()
      modifies `senderResetMs, `State
      ensures Valid() && State == RoomState.StampSenderReset(old(State), roomId, name, now)
    {
      var byName := if roomId in senderResetMs then senderResetMs[roomId] else map[];
      senderResetMs := senderResetMs[roomId := byName[name := now]];
      State := RoomState.StampSenderReset(State, roomId, name, now);
      forall w | w in clients ensures Mirrors(w) { assert old(Mirrors(w)); }
    }
  }
}
