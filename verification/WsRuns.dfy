/** Whole runs of the room server: membership and views, where signals go, how
  * far apart RESETs are relayed, and what last sightings are stored. */
module WsRuns {
  import opened Options
  import opened RoomState
  import opened WsProtocol
  import opened WsMembership

  // ---------- One step ----------

  lemma UpdateKeeps(s: Rooms, ws: Ws, m: Member)
    requires Inv(s) && ws in s.clients && Disciplined(m)
    requires m.ws == ws && SeatOf(m) == SeatOf(s.clients[ws])
    ensures Inv(SetMember(s, ws, m)) && Place(SetMember(s, ws, m)) == Place(s)
    ensures SetMember(s, ws, m).clients == s.clients[ws := m]
  {
    SetMemberInv(s, ws, m);
    SetMemberPlace(s, ws, m);
  }

  /** A step that changes no seat and sends nothing about membership. */
  lemma QuietKeeps(sys: Sys, sys': Sys, out: seq<Sent>, log: seq<Sent>)
    requires ViewsOk(sys, log) && Place(sys'.rooms) == Place(sys.rooms)
    requires sys'.open <= sys.open && forall x | x in out :: Silent(x.frame)
    ensures ViewsOk(sys', log + out)
  {
    assert Place(sys.rooms).Keys == sys.rooms.clients.Keys && Place(sys'.rooms).Keys == sys'.rooms.clients.Keys;
    forall w | w in sys'.rooms.clients && w in sys'.open ensures View(log + out, w) == OthersOf(Place(sys'.rooms), w) {
      ViewOfAppend(log, out, w);
      SilentFrames(View(log, w), out, w);
    }
  }

  lemma TakeAgain(seats: Seats, ws: Ws, seat: Seat)
    requires OnePerSeat(seats) && ws in seats && seats[ws] == seat
    ensures Take(seats, ws, seat) == seats
  {
  }

  lemma QuitThenTake(seats: Seats, ws: Ws, seat: Seat)
    ensures Take(Quit(seats, ws), ws, seat) == Take(seats, ws, seat)
  {
  }

  /** The names a repeated join is answered with are those of the others. */
  lemma OthersNamed(s: Rooms, ws: Ws)
    requires Inv(s) && ws in s.clients
    ensures (set n | n in Names(OthersInRoom(s, ws))) == OthersOf(Place(s), ws)
  {
    var others, r := OthersInRoom(s, ws), s.clients[ws].roomId;
    assert ClientOk(s, ws) && RoomOk(s, r);
    FilterOthersHas(RoomOf(s, r), ws);
    forall n | n in Names(others) ensures n in OthersOf(Place(s), ws) {
      var i :| 0 <= i < |others| && others[i].name == n;
      assert others[i] in others;
      assert others[i].ws in Place(s);
    }
    forall n | n in OthersOf(Place(s), ws) ensures n in Names(others) {
      var w :| w in s.clients && w != ws && s.clients[w].roomId == r && s.clients[w].name == n;
      assert ClientOk(s, w);
      var m := s.clients[w];
      assert m in others;
      var i :| 0 <= i < |others| && others[i] == m;
      assert Names(others)[i] == n;
    }
  }

  lemma RepeatJoinPlace(sys: Sys, ws: Ws, team: Option<Team>, on: bool)
    requires Inv(sys.rooms) && ws in sys.rooms.clients
    ensures var o := OnRepeatJoin(sys, ws, team, on);
            Inv(o.sys.rooms) && Place(o.sys.rooms) == Place(sys.rooms) && o.sys == sys.(rooms := o.sys.rooms) &&
            o.out == Send(sys.open, ws, RoomStateFrame(Names(OthersInRoom(o.sys.rooms, ws))))
  {
    var s := sys.rooms;
    assert ClientOk(s, ws);
    var s1 := if team.Some? then SetTeam(s, ws, team.value) else s;
    if team.Some? { UpdateKeeps(s, ws, s.clients[ws].(team := team)); }
    FlagKeeps(s1, ws, on);
  }

  lemma RepeatJoinViews(sys: Sys, ws: Ws, team: Option<Team>, on: bool, log: seq<Sent>)
    requires Inv(sys.rooms) && ws in sys.rooms.clients && ViewsOk(sys, log)
    ensures var o := OnRepeatJoin(sys, ws, team, on); ViewsOk(o.sys, log + o.out)
  {
    var o := OnRepeatJoin(sys, ws, team, on);
    RepeatJoinPlace(sys, ws, team, on);
    PlaceKeys(sys.rooms);
    PlaceKeys(o.sys.rooms);
    OthersNamed(o.sys.rooms, ws);
    forall w | w in o.sys.rooms.clients && w in o.sys.open
      ensures View(log + o.out, w) == OthersOf(Place(o.sys.rooms), w)
    {
      ViewOfAppend(log, o.out, w);
      RepeatFold(sys.open, ws, Names(OthersInRoom(o.sys.rooms, ws)), View(log, w), w);
    }
  }

  lemma PlaceKeys(s: Rooms)
    ensures Place(s).Keys == s.clients.Keys
  {
  }

  lemma RepeatFold(open: set<Ws>, ws: Ws, peers: seq<string>, view: set<string>, w: Ws)
    requires w in open
    ensures FoldAll(view, Send(open, ws, RoomStateFrame(peers)), w) == if w == ws then set n | n in peers else view
  {
    var out := Send(open, ws, RoomStateFrame(peers));
    if out != [] { assert FoldAll(view, out, w) == FoldAll(Fold(view, out[0], w), [], w); }
  }

  predicate IsRepeat(s: Rooms, ws: Ws, room: string, name: string) {
    ws in s.clients && SeatOf(s.clients[ws]) == Seat(room, name)
  }

  lemma JoinStructure(sys: Sys, ws: Ws, room: string, name: string, team: Option<Team>, on: bool)
    requires Inv(sys.rooms)
    ensures var o := OnJoin(sys, ws, room, name, team, on);
            Inv(o.sys.rooms) && Place(o.sys.rooms) == Take(Place(sys.rooms), ws, Seat(room, name)) &&
            o.sys.open <= sys.open && o.sys.known == sys.known && o.sys.closed == sys.closed
  {
    if IsRepeat(sys.rooms, ws, room, name) {
      PlaceIsOnePerSeat(sys.rooms);
      assert ws in Place(sys.rooms);
      TakeAgain(Place(sys.rooms), ws, Seat(room, name));
      RepeatJoinPlace(sys, ws, team, on);
    } else {
      LeaveAndTellPlace(sys, ws);
      EnterPlace(LeaveAndTell(sys, ws).sys, ws, room, name, team, on);
      QuitThenTake(Place(sys.rooms), ws, Seat(room, name));
    }
  }

  lemma OnJoinFresh(sys: Sys, ws: Ws, room: string, name: string, team: Option<Team>, on: bool)
    requires !IsRepeat(sys.rooms, ws, room, name)
    ensures var left := LeaveAndTell(sys, ws);
            var entered := EnterRoom(left.sys, ws, room, name, team, on);
            OnJoin(sys, ws, room, name, team, on) == Outcome(entered.sys, left.out + entered.out, left.emptied, None)
  {
  }

  lemma AppendAssoc(sys: Sys, log: seq<Sent>, a: seq<Sent>, b: seq<Sent>)
    requires ViewsOk(sys, log + a + b)
    ensures ViewsOk(sys, log + (a + b))
  {
    assert log + a + b == log + (a + b);
  }

  lemma JoinViews(sys: Sys, ws: Ws, room: string, name: string, team: Option<Team>, on: bool, log: seq<Sent>)
    requires Inv(sys.rooms) && ViewsOk(sys, log)
    ensures var o := OnJoin(sys, ws, room, name, team, on); ViewsOk(o.sys, log + o.out)
  {
    if IsRepeat(sys.rooms, ws, room, name) {
      RepeatJoinViews(sys, ws, team, on, log);
    } else {
      OnJoinFresh(sys, ws, room, name, team, on);
      var left := LeaveAndTell(sys, ws);
      LeaveAndTellPlace(sys, ws);
      LeaveAndTellKeeps(sys, ws, log);
      EnterKeeps(left.sys, ws, room, name, team, on, log + left.out);
      var entered := EnterRoom(left.sys, ws, room, name, team, on);
      AppendAssoc(entered.sys, log, left.out, entered.out);
    }
  }

  lemma CoordsKeep(s: Rooms, ws: Ws, report: CoordsReport, now: int)
    requires Inv(s) && ws in s.clients
    ensures var o := OnCoords(Sys(s, {}, {}, {}), ws, report, now).sys.rooms;
            Inv(o) && Place(o) == Place(s)
  {
    assert ClientOk(s, ws);
    var m := s.clients[ws];
    match report {
      case Malformed =>
      case Lost(seen) =>
        UpdateKeeps(s, ws, m.(position := None, camera := None,
                              lastSeen := if seen.Some? then Some(Anchored(seen.value, now)) else None));
      case Live(x, y, camera) =>
        var m1 := m.(position := Some(Stamped(x, y, now)), lastSeen := None);
        UpdateKeeps(s, ws, m1);
        var s1 := SetPosition(s, ws, x, y, now);
        UpdateKeeps(s1, ws, if camera.Some? then m1.(camera := Some(Stamped(camera.value.0, camera.value.1, now)))
                            else m1.(camera := None));
    }
  }

  lemma ResetAllKeeps(sys: Sys, ws: Ws, now: int)
    requires Inv(sys.rooms)
    ensures var o := OnResetAll(sys, ws, now);
            Inv(o.sys.rooms) && o.sys.rooms.clients == sys.rooms.clients && o.sys.rooms.rooms == sys.rooms.rooms &&
            forall x | x in o.out :: Silent(x.frame)
  {
    var o := OnResetAll(sys, ws, now);
    if ws in sys.rooms.clients && ResetAccepted(sys.rooms, ws, now) {
      assert ClientOk(sys.rooms, ws);
      BroadcastSilent(sys.open, OptedIn(OthersInRoom(o.sys.rooms, ws)), Reset(sys.rooms.clients[ws].name));
      SameMembersInv(sys.rooms, o.sys.rooms);
    }
  }

  lemma SameMembersInv(s: Rooms, t: Rooms)
    requires Inv(s) && t.rooms == s.rooms && t.clients == s.clients
    requires t.roomResetMs.Keys <= s.rooms.Keys && t.senderResetMs.Keys <= s.rooms.Keys
    ensures Inv(t)
  {
    forall r | r in t.rooms ensures RoomOk(t, r) { assert RoomOk(s, r); }
    forall w | w in t.clients ensures ClientOk(t, w) { assert ClientOk(s, w); }
  }

  /** The step changes no seat and sends nothing about membership. */
  ghost predicate IsQuiet(sys: Sys, o: Outcome) {
    && Inv(o.sys.rooms) && Place(o.sys.rooms) == Place(sys.rooms) && o.sys == sys.(rooms := o.sys.rooms)
    && forall x | x in o.out :: Silent(x.frame)
  }

  lemma ReplyIsQuiet(sys: Sys, o: Outcome, to: Ws, f: Frame)
    requires Inv(sys.rooms) && o.sys == sys && o.out == Send(sys.open, to, f) && Silent(f)
    ensures IsQuiet(sys, o)
  {
  }

  lemma SignalIsQuiet(sys: Sys, ws: Ws, to: string, payload: string)
    requires Inv(sys.rooms)
    ensures IsQuiet(sys, OnSignal(sys, ws, to, payload))
  {
  }

  lemma PositionIsQuiet(sys: Sys, ws: Ws, blob: string)
    requires Inv(sys.rooms)
    ensures IsQuiet(sys, OnPosition(sys, ws, blob))
  {
    if ws in sys.rooms.clients {
      BroadcastSilent(sys.open, OthersInRoom(sys.rooms, ws), PositionFrom(sys.rooms.clients[ws].name, blob));
    } else {
      ReplyIsQuiet(sys, OnPosition(sys, ws, blob), ws, ErrorFrame);
    }
  }

  lemma FlagIsQuiet(sys: Sys, ws: Ws, on: bool)
    requires Inv(sys.rooms)
    ensures IsQuiet(sys, OnSharedReset(sys, ws, on))
  {
    FlagKeeps(sys.rooms, ws, on);
  }

  lemma CoordsIsQuiet(sys: Sys, ws: Ws, report: CoordsReport, now: int)
    requires Inv(sys.rooms)
    ensures IsQuiet(sys, OnCoords(sys, ws, report, now))
  {
    if ws in sys.rooms.clients { CoordsKeep(sys.rooms, ws, report, now); }
  }

  lemma ResetAllIsQuiet(sys: Sys, ws: Ws, now: int)
    requires Inv(sys.rooms)
    ensures IsQuiet(sys, OnResetAll(sys, ws, now))
  {
    ResetAllKeeps(sys, ws, now);
  }

  /** The messages that change no seat. */
  lemma MessageIsQuiet(sys: Sys, ws: Ws, msg: Message, now: int)
    requires Inv(sys.rooms) && !msg.JoinMsg?
    ensures IsQuiet(sys, OnMessage(sys, ws, msg, now))
  {
    match msg {
      case SignalMsg(to, payload) => SignalIsQuiet(sys, ws, to, payload);
      case PositionMsg(blob) => PositionIsQuiet(sys, ws, blob);
      case SharedResetMsg(on) => FlagIsQuiet(sys, ws, on);
      case ResetAllMsg => ResetAllIsQuiet(sys, ws, now);
      case CoordsMsg(report) => CoordsIsQuiet(sys, ws, report, now);
      case Rejected => ReplyIsQuiet(sys, OnMessage(sys, ws, msg, now), ws, ErrorFrame);
    }
  }

  ghost predicate Good(sys: Sys, log: seq<Sent>) {
    Inv(sys.rooms) && SocketsOk(sys) && ViewsOk(sys, log)
  }

  lemma TakeKeys(seats: Seats, ws: Ws, seat: Seat)
    ensures Take(seats, ws, seat).Keys <= seats.Keys + {ws}
  {
  }

  lemma JoinReceivedKeeps(sys: Sys, ws: Ws, room: string, name: string, team: Option<Team>, on: bool, log: seq<Sent>)
    requires Good(sys, log) && ws in sys.known && ws !in sys.closed
    ensures var o := OnJoin(sys, ws, room, name, team, on);
            Good(o.sys, log + o.out) && Place(o.sys.rooms) == Take(Place(sys.rooms), ws, Seat(room, name))
  {
    var o := OnJoin(sys, ws, room, name, team, on);
    JoinViews(sys, ws, room, name, team, on, log);
    JoinStructure(sys, ws, room, name, team, on);
    JoinSockets(sys, o.sys, ws, Seat(room, name));
  }

  lemma JoinSockets(sys: Sys, sys': Sys, ws: Ws, seat: Seat)
    requires SocketsOk(sys) && ws in sys.known && ws !in sys.closed
    requires Place(sys'.rooms) == Take(Place(sys.rooms), ws, seat)
    requires sys'.open <= sys.open && sys'.known == sys.known && sys'.closed == sys.closed
    ensures SocketsOk(sys')
  {
    PlaceKeys(sys.rooms);
    PlaceKeys(sys'.rooms);
    TakeKeys(Place(sys.rooms), ws, seat);
  }

  lemma OtherReceivedKeeps(sys: Sys, ws: Ws, msg: Message, now: int, log: seq<Sent>)
    requires Good(sys, log) && !msg.JoinMsg?
    ensures var o := OnMessage(sys, ws, msg, now);
            Good(o.sys, log + o.out) && Place(o.sys.rooms) == Place(sys.rooms)
  {
    var o := OnMessage(sys, ws, msg, now);
    MessageIsQuiet(sys, ws, msg, now);
    QuietKeeps(sys, o.sys, o.out, log);
    PlaceKeys(sys.rooms);
    PlaceKeys(o.sys.rooms);
  }

  lemma ReceivedKeeps(sys: Sys, ws: Ws, msg: Message, now: int, log: seq<Sent>)
    requires Good(sys, log) && ws in sys.known && ws !in sys.closed
    ensures var o := OnMessage(sys, ws, msg, now);
            Good(o.sys, log + o.out) && Place(o.sys.rooms) == SeatsStep(Place(sys.rooms), Received(ws, msg, now))
  {
    match msg {
      case JoinMsg(room, name, team, on) => JoinReceivedKeeps(sys, ws, room, name, team, on, log);
      case _ => OtherReceivedKeeps(sys, ws, msg, now, log);
    }
  }

  lemma ClosedKeeps(sys: Sys, ws: Ws, log: seq<Sent>)
    requires Good(sys, log) && ws in sys.known && ws !in sys.closed
    ensures var o := Step(sys, Closed(ws));
            Good(o.sys, log + o.out) && Place(o.sys.rooms) == Quit(Place(sys.rooms), ws)
  {
    var sys1 := sys.(open := sys.open - {ws}, closed := sys.closed + {ws});
    LeaveAndTellPlace(sys1, ws);
    LeaveAndTellKeeps(sys1, ws, log);
  }

  lemma StepKeeps(sys: Sys, e: Event, log: seq<Sent>)
    requires Good(sys, log) && Legal(sys, e)
    ensures var o := Step(sys, e);
            Good(o.sys, log + o.out) && Place(o.sys.rooms) == SeatsStep(Place(sys.rooms), e)
  {
    match e {
      case Connect(ws) =>
        assert log + [] == log;
      case Received(ws, msg, now) =>
        ReceivedKeeps(sys, ws, msg, now, log);
      case Closing(ws) =>
        QuietKeeps(sys, sys.(open := sys.open - {ws}), [], log);
      case Closed(ws) =>
        ClosedKeeps(sys, ws, log);
    }
  }

  // ---------- Whole runs ----------

  function After(es: seq<Event>): Sys {
    if es == [] then START else Step(After(es[..|es| - 1]), es[|es| - 1]).sys
  }

  /** Every frame sent so far. */
  function Log(es: seq<Event>): seq<Sent> {
    if es == [] then [] else Log(es[..|es| - 1]) + Step(After(es[..|es| - 1]), es[|es| - 1]).out
  }

  function Seated(es: seq<Event>): Seats {
    if es == [] then map[] else SeatsStep(Seated(es[..|es| - 1]), es[|es| - 1])
  }

  ghost predicate LegalRun(es: seq<Event>) {
    es != [] ==> LegalRun(es[..|es| - 1]) && Legal(After(es[..|es| - 1]), es[|es| - 1])
  }

  lemma {:induction false} RunKeeps(es: seq<Event>)
    requires LegalRun(es)
    ensures Good(After(es), Log(es)) && Place(After(es).rooms) == Seated(es)
  {
    if es != [] {
      RunKeeps(es[..|es| - 1]);
      StepKeeps(After(es[..|es| - 1]), es[|es| - 1], Log(es[..|es| - 1]));
    }
  }

  /** Membership agreement: after any run, across takeovers, repeated joins,
    * moves and late closes of evicted sockets, the two indexes are inverse with
    * unique names per room and no empty room, they list exactly the seats of the
    * reference plan, and every member still OPEN has been told exactly the other
    * names in its room. */
  lemma MembershipAgreement(es: seq<Event>)
    requires LegalRun(es)
    ensures Inv(After(es).rooms)
    ensures Place(After(es).rooms) == Seated(es)
    ensures forall w | w in After(es).rooms.clients && w in After(es).open ::
            View(Log(es), w) == OtherNames(After(es).rooms, w)
  {
    RunKeeps(es);
    var s := After(es).rooms;
    forall w | w in s.clients && w in After(es).open ensures View(Log(es), w) == OtherNames(s, w) {
      OtherNamesArePlaced(s, w);
    }
  }

  // ---------- Where signals go ----------

  /** The newest join of a seat, if its socket has neither moved nor closed
    * since. */
  ghost predicate NewestHolds(es: seq<Event>, i: nat, w: Ws, seat: Seat) {
    && i < |es|
    && TakesSeat(es[i], w, seat)
    && forall j | i < j < |es| :: !Unseats(es[j], w, seat)
  }

  ghost predicate Holds(es: seq<Event>, w: Ws, seat: Seat) {
    exists i: nat :: NewestHolds(es, i, w, seat)
  }

  predicate TakesSeat(e: Event, w: Ws, seat: Seat) {
    e.Received? && e.ws == w && e.msg.JoinMsg? && Seat(e.msg.room, e.msg.name) == seat
  }

  /** Any join of the seat, and the socket's own moves and close. */
  predicate Unseats(e: Event, w: Ws, seat: Seat) {
    || (e.Received? && e.msg.JoinMsg? && (e.ws == w || Seat(e.msg.room, e.msg.name) == seat))
    || (e.Closed? && e.ws == w)
  }

  /** A seat is held exactly by its newest join. */
  lemma {:induction false} SeatHeldByNewestJoin(es: seq<Event>, w: Ws, seat: Seat)
    ensures w in Seated(es) && Seated(es)[w] == seat <==> Holds(es, w, seat)
  {
    if es == [] {
    } else {
      var n := |es| - 1;
      var rest, e := es[..n], es[n];
      SeatHeldByNewestJoin(rest, w, seat);
      if TakesSeat(e, w, seat) {
        assert NewestHolds(es, n, w, seat);
      } else if w in Seated(es) && Seated(es)[w] == seat {
        assert w in Seated(rest) && Seated(rest)[w] == seat;
        var i: nat :| NewestHolds(rest, i, w, seat);
        assert !Unseats(e, w, seat);
        assert NewestHolds(es, i, w, seat);
      } else if i: nat :| NewestHolds(es, i, w, seat) {
        assert i < n && !Unseats(es[n], w, seat);
        assert NewestHolds(rest, i, w, seat);
      }
    }
  }

  lemma FindIsSeat(s: Rooms, room: string, name: string)
    requires Inv(s)
    ensures var f := FindInRoom(s, room, name);
            (f.Some? ==> f.value.ws in Place(s) && Place(s)[f.value.ws] == Seat(room, name)) &&
            (f.None? ==> forall w | w in Place(s) :: Place(s)[w] != Seat(room, name))
  {
    var f := FindInRoom(s, room, name);
    if f.Some? {
      assert RoomOk(s, room);
      assert f.value in s.rooms[room];
    }
    forall w | w in s.clients && SeatOf(s.clients[w]) == Seat(room, name) ensures f.Some? {
      SeatFound(s, w);
    }
  }

  /** A signal goes to whoever is found under the name, if OPEN. */
  lemma SignalOut(sys: Sys, ws: Ws, to: string, payload: string)
    requires Inv(sys.rooms) && ws in sys.rooms.clients && to != ""
    ensures var m := sys.rooms.clients[ws];
            var f := FindInRoom(sys.rooms, m.roomId, to);
            OnSignal(sys, ws, to, payload).out ==
            if f.Some? && f.value.ws in sys.open then [Sent(f.value.ws, SignalFrom(m.name, payload))]
            else Send(sys.open, ws, ErrorFrame)
  {
  }

  /** A name is found exactly under the socket of the newest join still holding it. */
  lemma FoundIsNewest(es: seq<Event>, room: string, name: string, w: Ws)
    requires Inv(After(es).rooms) && Place(After(es).rooms) == Seated(es)
    ensures var f := FindInRoom(After(es).rooms, room, name);
            Holds(es, w, Seat(room, name)) <==> f.Some? && f.value.ws == w
  {
    var s := After(es).rooms;
    FindIsSeat(s, room, name);
    PlaceIsOnePerSeat(s);
    SeatHeldByNewestJoin(es, w, Seat(room, name));
  }

  /** A signal from a seated socket goes to the socket of the newest join still
    * holding the name in the sender's room, when that socket is OPEN, and to no
    * other; otherwise the sender is answered with an error. */
  lemma SignalGoesToNewestJoin(es: seq<Event>, ws: Ws, to: string, payload: string, now: int)
    requires LegalRun(es) && ws in Seated(es) && to != ""
    ensures var sys := After(es);
            var from := Seated(es)[ws];
            var out := Step(sys, Received(ws, SignalMsg(to, payload), now)).out;
            && (forall w | Holds(es, w, Seat(from.room, to)) && w in sys.open ::
                  out == [Sent(w, SignalFrom(from.name, payload))])
            && ((forall w | Holds(es, w, Seat(from.room, to)) :: w !in sys.open) ==>
                  out == Send(sys.open, ws, ErrorFrame))
  {
    RunKeeps(es);
    PlaceKeys(After(es).rooms);
    SignalOut(After(es), ws, to, payload);
    var room := Seated(es)[ws].room;
    forall w ensures var f := FindInRoom(After(es).rooms, room, to);
                     Holds(es, w, Seat(room, to)) <==> f.Some? && f.value.ws == w
    {
      FoundIsNewest(es, room, to, w);
    }
  }
}
