/** Which sockets are OPEN, and what reaches them, told from the events alone
  * (server/src/ws-handler.ts). */
module WsSockets {
  import opened Options
  import opened RoomState
  import opened WsProtocol
  import opened WsMembership
  import opened WsRuns
  import opened WsHistory

  /** Another socket joins under the seat `w` holds: `w` is turned out. */
  predicate TakesOver(seats: Seats, e: Event, w: Ws) {
    e.Received? && e.msg.JoinMsg? && e.ws != w && w in seats && seats[w] == Seat(e.msg.room, e.msg.name)
  }

  /** The socket starts to close, has closed, or is turned out. */
  predicate Shuts(seats: Seats, e: Event, w: Ws) {
    ((e.Closing? || e.Closed?) && e.ws == w) || TakesOver(seats, e, w)
  }

  lemma EnterOpen(sys: Sys, ws: Ws, room: string, name: string, team: Option<Team>, on: bool, w: Ws)
    requires Inv(sys.rooms)
    ensures w in EnterRoom(sys, ws, room, name, team, on).sys.open <==>
            w in sys.open && !(w != ws && w in Place(sys.rooms) && Place(sys.rooms)[w] == Seat(room, name))
  {
    hide SetSharedReset, OthersInRoom, NewMember;
    EvictedFacts(sys.rooms, room, name, ws, team);
    if w in sys.rooms.clients {
      assert ClientOk(sys.rooms, w);
      SeatFound(sys.rooms, w);
    }
  }

  lemma JoinOpen(sys: Sys, ws: Ws, room: string, name: string, team: Option<Team>, on: bool, now: int, w: Ws)
    requires Inv(sys.rooms)
    ensures w in OnJoin(sys, ws, room, name, team, on).sys.open <==>
            w in sys.open && !TakesOver(Place(sys.rooms), Received(ws, JoinMsg(room, name, team, on), now), w)
  {
    hide Inv, EnterRoom, LeaveAndTell;
    if IsRepeat(sys.rooms, ws, room, name) {
      PlaceIsOnePerSeat(sys.rooms);
      assert Place(sys.rooms)[ws] == Seat(room, name);
      assert OnJoin(sys, ws, room, name, team, on) == OnRepeatJoin(sys, ws, team, on);
    } else {
      var left := LeaveAndTell(sys, ws).sys;
      OnJoinFresh(sys, ws, room, name, team, on);
      LeftFacts(sys, ws);
      EnterOpen(left, ws, room, name, team, on, w);
    }
  }

  lemma LeftFacts(sys: Sys, ws: Ws)
    requires Inv(sys.rooms)
    ensures var left := LeaveAndTell(sys, ws).sys;
            Inv(left.rooms) && left.open == sys.open && Place(left.rooms) == Quit(Place(sys.rooms), ws)
  {
    LeaveInv(sys.rooms, ws);
    LeavePlace(sys.rooms, ws);
  }

  lemma StepOpen(sys: Sys, e: Event, w: Ws)
    requires Inv(sys.rooms)
    ensures w in Step(sys, e).sys.open <==> (w in sys.open && !Shuts(Place(sys.rooms), e, w)) || e == Connect(w)
  {
    hide Inv, Place;
    match e {
      case Received(ws, JoinMsg(room, name, team, on), now) => JoinOpen(sys, ws, room, name, team, on, now, w);
      case Received(ws, msg, now) => OtherOpen(sys, ws, msg, now);
      case Closed(ws) => LeftFacts(sys.(open := sys.open - {ws}, closed := sys.closed + {ws}), ws);
      case _ =>
    }
  }

  lemma OtherOpen(sys: Sys, ws: Ws, msg: Message, now: int)
    requires !msg.JoinMsg?
    ensures OnMessage(sys, ws, msg, now).sys.open == sys.open
  {
  }

  ghost predicate StaysOpen(es: seq<Event>, i: nat, w: Ws) {
    i < |es| && es[i] == Connect(w) && forall j: nat | i < j < |es| :: !ShutsAt(es, j, w)
  }

  ghost predicate ShutsAt(es: seq<Event>, j: nat, w: Ws)
    requires j < |es|
  {
    Shuts(Seated(es[..j]), es[j], w)
  }

  lemma StillOpenBefore(es: seq<Event>, i: nat, w: Ws)
    requires es != [] && StaysOpen(es, i, w) && i < |es| - 1
    ensures StaysOpen(es[..|es| - 1], i, w) && !ShutsAt(es, |es| - 1, w)
  {
    var rest := es[..|es| - 1];
    forall j: nat | j < |rest| ensures ShutsAt(rest, j, w) == ShutsAt(es, j, w) {
      assert rest[..j] == es[..j];
    }
  }

  /** Over any run, a socket is OPEN exactly if it connected and has since neither
    * begun to close nor been turned out of its seat by another. */
  lemma {:induction false} OpenExactly(es: seq<Event>, w: Ws)
    requires LegalRun(es)
    ensures w in After(es).open <==> exists i: nat :: StaysOpen(es, i, w)
  {
    if es != [] {
      var n := |es| - 1;
      var rest, e := es[..n], es[n];
      OpenExactly(rest, w);
      RunKeeps(rest);
      StepOpen(After(rest), e, w);
      hide Step, LegalRun, Seated;
      assert forall j: nat | j < n :: rest[..j] == es[..j];
      assert forall j: nat | j < n :: ShutsAt(rest, j, w) == ShutsAt(es, j, w);
      if e == Connect(w) {
        assert StaysOpen(es, n, w);
      } else if w in After(es).open {
        var i: nat :| StaysOpen(rest, i, w);
        assert !ShutsAt(es, n, w);
        assert StaysOpen(es, i, w);
      } else {
        forall i: nat | StaysOpen(es, i, w) ensures false { StillOpenBefore(es, i, w); }
      }
    }
  }

  /** Another socket, seated in the same room. */
  predicate Beside(seats: Seats, ws: Ws, w: Ws) {
    ws in seats && w in seats && w != ws && seats[w].room == seats[ws].room
  }

  /** What a seated socket tells of itself reaches exactly the OPEN sockets seated
    * beside it, under its name and unchanged. */
  lemma PositionReachesOthers(es: seq<Event>, ws: Ws, blob: string, now: int, x: Sent)
    requires LegalRun(es) && ws in Seated(es)
    ensures x in Step(After(es), Received(ws, PositionMsg(blob), now)).out <==>
            && x.frame == PositionFrom(Seated(es)[ws].name, blob)
            && x.to in After(es).open && Beside(Seated(es), ws, x.to)
  {
    RunKeeps(es);
    var s := After(es).rooms;
    hide After, Seated, LegalRun;
    BroadcastHas(After(es).open, OthersInRoom(s, ws), PositionFrom(s.clients[ws].name, blob), x);
    OthersAre(s, ws, x.to);
  }

  lemma OthersAre(s: Rooms, ws: Ws, w: Ws)
    requires Inv(s) && ws in s.clients
    ensures InMembers(OthersInRoom(s, ws), w) <==> Beside(Place(s), ws, w)
  {
    var room := s.clients[ws].roomId;
    assert ClientOk(s, ws) && RoomOk(s, room);
    FilterOthersHas(s.rooms[room], ws);
    if w in s.clients { assert ClientOk(s, w); }
  }

  /** A socket with no seat is answered with an error, and changes nothing, whatever
    * it asks but to join. */
  lemma UnseatedAreRefused(es: seq<Event>, ws: Ws, msg: Message, now: int)
    requires LegalRun(es) && ws !in Seated(es) && !msg.JoinMsg?
    ensures var o := Step(After(es), Received(ws, msg, now));
            o.sys == After(es) && o.relayed == None &&
            o.out == if ws in After(es).open then [Sent(ws, ErrorFrame)] else []
  {
    RunKeeps(es);
    assert ws !in After(es).rooms.clients;
  }
}
