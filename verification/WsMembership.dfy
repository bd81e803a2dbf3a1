/** Membership over whole runs of the room server. The reference is a seating
  * plan: each socket holds at most one seat (a room and a name), and taking a
  * seat turns out whoever holds it. The server's two indexes and every OPEN
  * client's view are proved to agree with it after any run. */
module WsMembership {
  import opened Options
  import opened RoomState
  import opened WsProtocol

  datatype Seat = Seat(room: string, name: string)

  type Seats = map<Ws, Seat>

  /** The newest to take a seat holds it, and gives up any seat it held. */
  function Take(seats: Seats, ws: Ws, seat: Seat): Seats {
    (map w | w in seats && w != ws && seats[w] != seat :: seats[w])[ws := seat]
  }

  function Quit(seats: Seats, ws: Ws): Seats {
    map w | w in seats && w != ws :: seats[w]
  }

  function SeatsStep(seats: Seats, e: Event): Seats {
    match e
    case Received(ws, JoinMsg(room, name, team, on), now) => Take(seats, ws, Seat(room, name))
    case Closed(ws) => Quit(seats, ws)
    case _ => seats
  }

  ghost predicate OnePerSeat(seats: Seats) {
    forall a, b | a in seats && b in seats && seats[a] == seats[b] :: a == b
  }

  /** The names of the others seated in the room of `ws`. */
  function OthersOf(seats: Seats, ws: Ws): set<string>
    requires ws in seats
  {
    set w | w in seats && w != ws && seats[w].room == seats[ws].room :: seats[w].name
  }

  // ---------- The server's indexes as a seating plan ----------

  function SeatOf(m: Member): Seat { Seat(m.roomId, m.name) }

  function PlaceOf(c: map<Ws, Member>): Seats { map w | w in c :: SeatOf(c[w]) }

  function Place(s: Rooms): Seats { PlaceOf(s.clients) }

  lemma MemberIffClient(s: Rooms, r: string, w: Ws)
    requires Inv(s)
    ensures InMembers(RoomOf(s, r), w) <==> w in s.clients && s.clients[w].roomId == r
  {
    if r in s.rooms { assert RoomOk(s, r); }
    if w in s.clients { assert ClientOk(s, w); }
  }

  lemma PlaceIsOnePerSeat(s: Rooms)
    requires Inv(s)
    ensures OnePerSeat(Place(s))
  {
    forall a, b | a in s.clients && b in s.clients && SeatOf(s.clients[a]) == SeatOf(s.clients[b]) ensures a == b {
      assert ClientOk(s, a) && ClientOk(s, b);
      var r := s.clients[a].roomId;
      assert RoomOk(s, r);
      var i :| 0 <= i < |s.rooms[r]| && s.rooms[r][i] == s.clients[a];
      var j :| 0 <= j < |s.rooms[r]| && s.rooms[r][j] == s.clients[b];
    }
  }

  /** What the rooms list and what the seating plan says are the same names. */
  lemma OtherNamesArePlaced(s: Rooms, ws: Ws)
    requires Inv(s) && ws in s.clients
    ensures OtherNames(s, ws) == OthersOf(Place(s), ws)
  {
    var r := s.clients[ws].roomId;
    assert ClientOk(s, ws) && RoomOk(s, r);
    forall n | n in OtherNames(s, ws) ensures n in OthersOf(Place(s), ws) {
      var m :| m in s.rooms[r] && m.name == n;
      assert m.ws in Place(s);
    }
    forall n | n in OthersOf(Place(s), ws) ensures n in OtherNames(s, ws) {
      var w :| w in s.clients && w != ws && s.clients[w].roomId == r && s.clients[w].name == n;
      assert ClientOk(s, w);
      PlaceIsOnePerSeat(s);
      assert Place(s)[w] != Place(s)[ws];
    }
  }

  lemma LeavePlace(s: Rooms, ws: Ws)
    ensures Place(Leave(s, ws).s) == Quit(Place(s), ws)
  {
  }

  lemma SetMemberPlace(s: Rooms, ws: Ws, m: Member)
    requires ws in s.clients && SeatOf(m) == SeatOf(s.clients[ws])
    ensures Place(SetMember(s, ws, m)) == Place(s)
  {
  }

  lemma JoinClients(s: Rooms, room: string, name: string, ws: Ws, team: Option<Team>, w: Ws)
    requires Inv(s) && w != ws
    ensures var c := Join(s, room, name, ws, team).s.clients;
            (w in c <==> w in s.clients && SeatOf(s.clients[w]) != Seat(room, name)) &&
            (w in c ==> c[w] == s.clients[w])
  {
    EvictedFacts(s, room, name, ws, team);
    if w in s.clients {
      assert ClientOk(s, w);
      if SeatOf(s.clients[w]) == Seat(room, name) { SeatFound(s, w); }
    }
  }

  lemma PlaceTake(c: map<Ws, Member>, c': map<Ws, Member>, ws: Ws, seat: Seat)
    requires ws in c' && SeatOf(c'[ws]) == seat
    requires forall w | w != ws :: w in c' <==> w in c && SeatOf(c[w]) != seat
    requires forall w | w != ws && w in c' :: c'[w] == c[w]
    ensures PlaceOf(c') == Take(PlaceOf(c), ws, seat)
  {
  }

  lemma JoinPlace(s: Rooms, room: string, name: string, ws: Ws, team: Option<Team>)
    requires Inv(s)
    ensures Place(Join(s, room, name, ws, team).s) == Take(Place(s), ws, Seat(room, name))
  {
    var c := Join(s, room, name, ws, team).s.clients;
    forall w | w != ws
      ensures w in c <==> w in s.clients && SeatOf(s.clients[w]) != Seat(room, name)
      ensures w in c ==> c[w] == s.clients[w]
    {
      JoinClients(s, room, name, ws, team, w);
    }
    PlaceTake(s.clients, c, ws, Seat(room, name));
  }

  // ---------- What every step keeps ----------

  /** OPEN sockets are known and not closed; only such, or closing, sockets are
    * in a room. */
  ghost predicate SocketsOk(sys: Sys) {
    && sys.open <= sys.known && sys.closed <= sys.known && sys.open !! sys.closed
    && sys.rooms.clients.Keys <= sys.known && sys.rooms.clients.Keys !! sys.closed
  }

  /** Every OPEN member sees exactly the other names in its room. */
  ghost predicate ViewsOk(sys: Sys, log: seq<Sent>) {
    forall w | w in sys.rooms.clients && w in sys.open :: View(log, w) == OthersOf(Place(sys.rooms), w)
  }

  lemma LeaveAndTellPlace(sys: Sys, ws: Ws)
    requires Inv(sys.rooms)
    ensures Inv(LeaveAndTell(sys, ws).sys.rooms)
    ensures Place(LeaveAndTell(sys, ws).sys.rooms) == Quit(Place(sys.rooms), ws)
    ensures LeaveAndTell(sys, ws).sys.rooms.clients == sys.rooms.clients - {ws}
    ensures LeaveAndTell(sys, ws).sys == sys.(rooms := LeaveAndTell(sys, ws).sys.rooms)
  {
    LeaveInv(sys.rooms, ws);
    LeavePlace(sys.rooms, ws);
  }

  lemma LeaveAndTellKeeps(sys: Sys, ws: Ws, log: seq<Sent>)
    requires Inv(sys.rooms) && ViewsOk(sys, log)
    ensures ViewsOk(LeaveAndTell(sys, ws).sys, log + LeaveAndTell(sys, ws).out)
  {
    var o := LeaveAndTell(sys, ws);
    LeaveAndTellPlace(sys, ws);
    if ws in sys.rooms.clients {
      forall w | w in o.sys.rooms.clients && w in o.sys.open
        ensures View(log + o.out, w) == OthersOf(Place(o.sys.rooms), w)
      {
        LeaveView(sys, ws, log, w);
      }
    } else {
      assert log + o.out == log && o.sys == sys;
    }
  }

  lemma LeaveView(sys: Sys, ws: Ws, log: seq<Sent>, w: Ws)
    requires Inv(sys.rooms) && ViewsOk(sys, log)
    requires ws in sys.rooms.clients && w in sys.rooms.clients && w != ws && w in sys.open
    ensures View(log + LeaveAndTell(sys, ws).out, w) == OthersOf(Quit(Place(sys.rooms), ws), w)
  {
    var s := sys.rooms;
    var m, left := s.clients[ws], Remaining(s, ws);
    var out := Broadcast(sys.open, left, PeerLeft(m.name));
    ViewOfAppend(log, out, w);
    BroadcastLeft(sys.open, left, m.name, View(log, w), w);
    LeaveKeeps(s, ws);
    MemberIffClient(s, m.roomId, w);
    assert ClientOk(s, ws);
    RemainingHas(s, ws, w);
    PlaceIsOnePerSeat(s);
    QuitOthers(Place(s), ws, w);
  }

  lemma RemainingHas(s: Rooms, ws: Ws, w: Ws)
    requires Inv(s) && ws in s.clients && w != ws
    ensures InMembers(Remaining(s, ws), w) <==> w in s.clients && s.clients[w].roomId == s.clients[ws].roomId
  {
    var m := s.clients[ws];
    assert ClientOk(s, ws);
    LeaveKeeps(s, ws);
    MemberIffClient(s, m.roomId, w);
    if InMembers(s.rooms[m.roomId], w) {
      var x :| x in s.rooms[m.roomId] && x.ws == w;
      assert x in Remaining(s, ws);
    }
  }

  lemma QuitOthers(seats: Seats, ws: Ws, w: Ws)
    requires OnePerSeat(seats) && ws in seats && w in seats && w != ws
    ensures OthersOf(Quit(seats, ws), w) ==
            if seats[w].room == seats[ws].room then OthersOf(seats, w) - {seats[ws].name} else OthersOf(seats, w)
  {
    var after := Quit(seats, ws);
    forall n | n in OthersOf(seats, w) && (seats[w].room == seats[ws].room ==> n != seats[ws].name)
      ensures n in OthersOf(after, w)
    {
      var x :| x in seats && x != w && seats[x].room == seats[w].room && seats[x].name == n;
      assert x in after;
    }
    forall n | n in OthersOf(after, w)
      ensures n in OthersOf(seats, w) && (seats[w].room == seats[ws].room ==> n != seats[ws].name)
    {
      var x :| x in after && x != w && after[x].room == after[w].room && after[x].name == n;
      assert x in seats && x != ws;
    }
  }

  lemma TakeOthers(seats: Seats, ws: Ws, seat: Seat, w: Ws)
    requires OnePerSeat(seats) && ws !in seats && w in Take(seats, ws, seat) && w != ws
    ensures OthersOf(Take(seats, ws, seat), w) ==
            if seats[w].room == seat.room then OthersOf(seats, w) + {seat.name} else OthersOf(seats, w)
  {
    var after := Take(seats, ws, seat);
    forall n | n in OthersOf(seats, w) ensures n in OthersOf(after, w) {
      var x :| x in seats && x != w && seats[x].room == seats[w].room && seats[x].name == n;
      if seats[x] == seat { assert after[ws] == seat; } else { assert x in after; }
    }
    if seats[w].room == seat.room {
      assert after[ws] == seat && ws in after;
    }
    forall n | n in OthersOf(after, w)
      ensures n in OthersOf(seats, w) || (seats[w].room == seat.room && n == seat.name)
    {
      var x :| x in after && x != w && after[x].room == after[w].room && after[x].name == n;
      if x != ws { assert x in seats; }
    }
  }

  lemma TakeOwnOthers(seats: Seats, ws: Ws, seat: Seat)
    requires OnePerSeat(seats) && ws !in seats
    ensures OthersOf(Take(seats, ws, seat), ws) == SeatedNames(seats, seat.room, seat.name)
  {
    var after := Take(seats, ws, seat);
    forall n | n in OthersOf(after, ws)
      ensures exists w :: w in seats && seats[w].room == seat.room && seats[w].name != seat.name && seats[w].name == n
    {
      var x :| x in after && x != ws && after[x].room == seat.room && after[x].name == n;
      assert x in seats;
    }
    forall w | w in seats && seats[w].room == seat.room && seats[w].name != seat.name
      ensures seats[w].name in OthersOf(after, ws)
    {
      assert w in after && after[w] == seats[w];
    }
  }

  lemma FlagKeeps(s: Rooms, ws: Ws, on: bool)
    requires Inv(s)
    ensures Inv(SetSharedReset(s, ws, on)) && Place(SetSharedReset(s, ws, on)) == Place(s)
    ensures SetSharedReset(s, ws, on).rooms.Keys == s.rooms.Keys
  {
    if ws in s.clients {
      assert ClientOk(s, ws);
      SetMemberInv(s, ws, s.clients[ws].(sharedReset := on));
      SetMemberPlace(s, ws, s.clients[ws].(sharedReset := on));
    }
  }

  lemma EnterPlace(sys: Sys, ws: Ws, room: string, name: string, team: Option<Team>, on: bool)
    requires Inv(sys.rooms) && ws !in sys.rooms.clients
    ensures var o := EnterRoom(sys, ws, room, name, team, on);
            Inv(o.sys.rooms) && Place(o.sys.rooms) == Take(Place(sys.rooms), ws, Seat(room, name)) &&
            o.sys.open <= sys.open && (ws in sys.open ==> ws in o.sys.open)
  {
    JoinInv(sys.rooms, room, name, ws, team);
    JoinPlace(sys.rooms, room, name, ws, team);
    FlagKeeps(Join(sys.rooms, room, name, ws, team).s, ws, on);
  }

  /** The others told of a join are exactly the others in the room. */
  lemma OthersAre(s: Rooms, ws: Ws, w: Ws)
    requires Inv(s) && ws in s.clients
    ensures InMembers(OthersInRoom(s, ws), w) <==>
            w != ws && w in s.clients && s.clients[w].roomId == s.clients[ws].roomId
  {
    var r := s.clients[ws].roomId;
    FilterOthersHas(RoomOf(s, r), ws);
    MemberIffClient(s, r, w);
    if InMembers(RoomOf(s, r), w) && w != ws {
      var m :| m in RoomOf(s, r) && m.ws == w;
      assert m in OthersInRoom(s, ws);
    }
  }

  function SeatedNames(seats: Seats, room: string, except: string): set<string> {
    set w | w in seats && seats[w].room == room && seats[w].name != except :: seats[w].name
  }

  lemma PeersAreSeated(s: Rooms, room: string, name: string, n: string)
    requires Inv(s) && n in Names(Kept(s, room, name))
    ensures n in SeatedNames(Place(s), room, name)
  {
    var kept := Kept(s, room, name);
    JoinKeeps(s, room, name);
    if room in s.rooms { assert RoomOk(s, room); }
    var i :| 0 <= i < |kept| && kept[i].name == n;
    assert kept[i] in kept;
    assert kept[i].ws in Place(s);
  }

  lemma SeatedArePeers(s: Rooms, room: string, name: string, w: Ws)
    requires Inv(s) && w in s.clients && s.clients[w].roomId == room && s.clients[w].name != name
    ensures s.clients[w].name in Names(Kept(s, room, name))
  {
    var kept := Kept(s, room, name);
    JoinKeeps(s, room, name);
    assert ClientOk(s, w);
    var m := s.clients[w];
    assert m in RoomOf(s, room) && m in kept;
    var i :| 0 <= i < |kept| && kept[i] == m;
    assert Names(kept)[i] == m.name;
  }

  /** The names a join reports are those seated with it, its own seat apart. */
  lemma PeersArePlaced(s: Rooms, room: string, name: string, ws: Ws, team: Option<Team>)
    requires Inv(s)
    ensures (set n | n in Join(s, room, name, ws, team).peers) == SeatedNames(Place(s), room, name)
  {
    var peers := Names(Kept(s, room, name));
    forall n | n in peers ensures n in SeatedNames(Place(s), room, name) {
      PeersAreSeated(s, room, name, n);
    }
    forall n | n in SeatedNames(Place(s), room, name) ensures n in peers {
      var w :| w in s.clients && s.clients[w].roomId == room && s.clients[w].name != name && s.clients[w].name == n;
      SeatedArePeers(s, room, name, w);
    }
  }

  /** The joiner makes of its frames what the first one says. */
  lemma JoinerFold(open: set<Ws>, ws: Ws, peers: seq<string>, others: seq<Member>, name: string, view: set<string>)
    requires ws in open && !InMembers(others, ws)
    ensures FoldAll(view, Send(open, ws, RoomStateFrame(peers)) + Broadcast(open, others, PeerJoined(name)), ws) ==
            set n | n in peers
  {
    var first := Send(open, ws, RoomStateFrame(peers));
    var known := set n | n in peers;
    FoldAppend(view, first, Broadcast(open, others, PeerJoined(name)), ws);
    assert FoldAll(view, first, ws) == FoldAll(known, [], ws) == known;
    BroadcastJoined(open, others, name, known, ws);
  }

  /** Anyone else learns of the joiner exactly when listed. */
  lemma OtherFold(open: set<Ws>, ws: Ws, peers: seq<string>, others: seq<Member>, name: string, view: set<string>,
      w: Ws)
    requires w in open && w != ws
    ensures FoldAll(view, Send(open, ws, RoomStateFrame(peers)) + Broadcast(open, others, PeerJoined(name)), w) ==
            if InMembers(others, w) then view + {name} else view
  {
    var first := Send(open, ws, RoomStateFrame(peers));
    FoldAppend(view, first, Broadcast(open, others, PeerJoined(name)), w);
    assert FoldAll(view, first, w) == view;
    BroadcastJoined(open, others, name, view, w);
  }

  lemma EnterOwnView(sys: Sys, ws: Ws, room: string, name: string, team: Option<Team>, on: bool, view: set<string>)
    requires Inv(sys.rooms) && ws !in sys.rooms.clients && ws in sys.open
    ensures var o := EnterRoom(sys, ws, room, name, team, on);
            FoldAll(view, o.out, ws) == OthersOf(Take(Place(sys.rooms), ws, Seat(room, name)), ws)
  {
    var o := EnterRoom(sys, ws, room, name, team, on);
    EnterPlace(sys, ws, room, name, team, on);
    assert ws in Place(o.sys.rooms);
    OthersAre(o.sys.rooms, ws, ws);
    JoinerFold(o.sys.open, ws, Join(sys.rooms, room, name, ws, team).peers, OthersInRoom(o.sys.rooms, ws), name, view);
    PeersArePlaced(sys.rooms, room, name, ws, team);
    PlaceIsOnePerSeat(sys.rooms);
    TakeOwnOthers(Place(sys.rooms), ws, Seat(room, name));
  }

  lemma EnterOthersView(sys: Sys, ws: Ws, room: string, name: string, team: Option<Team>, on: bool, view: set<string>,
      w: Ws)
    requires Inv(sys.rooms) && ws !in sys.rooms.clients && w != ws
    requires w in Take(Place(sys.rooms), ws, Seat(room, name))
    requires w in EnterRoom(sys, ws, room, name, team, on).sys.open
    requires view == OthersOf(Place(sys.rooms), w)
    ensures FoldAll(view, EnterRoom(sys, ws, room, name, team, on).out, w) ==
            OthersOf(Take(Place(sys.rooms), ws, Seat(room, name)), w)
  {
    var o := EnterRoom(sys, ws, room, name, team, on);
    EnterPlace(sys, ws, room, name, team, on);
    assert ws in Place(o.sys.rooms) && w in Place(o.sys.rooms);
    assert Place(o.sys.rooms)[ws] == Seat(room, name) && Place(o.sys.rooms)[w] == Place(sys.rooms)[w];
    OthersAre(o.sys.rooms, ws, w);
    OtherFold(o.sys.open, ws, Join(sys.rooms, room, name, ws, team).peers, OthersInRoom(o.sys.rooms, ws), name, view,
        w);
    PlaceIsOnePerSeat(sys.rooms);
    TakeOthers(Place(sys.rooms), ws, Seat(room, name), w);
  }

  lemma EnterKeeps(sys: Sys, ws: Ws, room: string, name: string, team: Option<Team>, on: bool, log: seq<Sent>)
    requires Inv(sys.rooms) && ws !in sys.rooms.clients && ViewsOk(sys, log)
    ensures var o := EnterRoom(sys, ws, room, name, team, on); ViewsOk(o.sys, log + o.out)
  {
    var o := EnterRoom(sys, ws, room, name, team, on);
    EnterPlace(sys, ws, room, name, team, on);
    forall w | w in o.sys.rooms.clients && w in o.sys.open
      ensures View(log + o.out, w) == OthersOf(Place(o.sys.rooms), w)
    {
      ViewOfAppend(log, o.out, w);
      assert w in Place(o.sys.rooms);
      if w == ws {
        EnterOwnView(sys, ws, room, name, team, on, View(log, w));
      } else {
        assert w in Place(sys.rooms);
        EnterOthersView(sys, ws, room, name, team, on, View(log, w), w);
      }
    }
  }
}
