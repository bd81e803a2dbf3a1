/** What a run leaves behind besides membership: the shared RESETs relayed while
  * a room lasts, and the last sightings stored. */
module WsHistory {
  import opened Options
  import opened RoomState
  import opened WsProtocol
  import opened WsMembership
  import opened WsRuns

  // ---------- Shared RESETs ----------

  /** The RESETs relayed in each room since it was last empty, oldest first. */
  type ResetLog = map<string, seq<ResetRec>>

  function LogOf(rs: ResetLog, room: string): seq<ResetRec> {
    if room in rs then rs[room] else []
  }

  function ResetsStep(rs: ResetLog, o: Outcome): ResetLog {
    var kept := if o.emptied.Some? then rs - {o.emptied.value} else rs;
    match o.relayed
    case None => kept
    case Some((room, rec)) => kept[room := LogOf(kept, room) + [rec]]
  }

  function ResetsOf(es: seq<Event>): ResetLog {
    if es == [] then map[] else ResetsStep(ResetsOf(es[..|es| - 1]), Step(After(es[..|es| - 1]), es[|es| - 1]))
  }

  /** When each name last had one relayed. */
  function LastTimes(log: seq<ResetRec>): map<string, int> {
    if log == [] then map[] else LastTimes(log[..|log| - 1])[log[|log| - 1].name := log[|log| - 1].at]
  }

  /** A new one at `now` is far enough from an earlier one. */
  predicate FarEnough(rec: ResetRec, name: string, now: int) {
    now - rec.at >= 15_000 && (rec.name == name ==> now - rec.at >= 30_000)
  }

  ghost predicate AllFarEnough(log: seq<ResetRec>, name: string, now: int) {
    forall i | 0 <= i < |log| :: FarEnough(log[i], name, now)
  }

  ghost predicate Spaced(log: seq<ResetRec>) {
    forall i, j | 0 <= i < j < |log| :: FarEnough(log[i], log[j].name, log[j].at)
  }

  ghost predicate ClocksOk(s: Rooms, rs: ResetLog) {
    && s.roomResetMs.Keys == rs.Keys && s.senderResetMs.Keys == rs.Keys
    && forall r {:trigger RoomClocksOk(s, rs, r)} | r in rs :: RoomClocksOk(s, rs, r)
  }

  ghost predicate RoomClocksOk(s: Rooms, rs: ResetLog, r: string) {
    r in rs && r in s.roomResetMs && r in s.senderResetMs && SumUp(s.roomResetMs[r], s.senderResetMs[r], rs[r])
  }

  /** A room's two clocks sum up the RESETs relayed in it, which are spaced. */
  ghost predicate SumUp(last: int, byName: map<string, int>, log: seq<ResetRec>) {
    log != [] && Spaced(log) && last == log[|log| - 1].at && byName == LastTimes(log)
  }

  /** The per-name clock is the time of the name's latest entry. */
  lemma {:induction false} LastTimeIsLatest(log: seq<ResetRec>, name: string)
    requires Spaced(log)
    ensures name in LastTimes(log) <==> exists i :: 0 <= i < |log| && log[i].name == name
    ensures name in LastTimes(log) ==>
              (exists i :: 0 <= i < |log| && log[i].name == name && log[i].at == LastTimes(log)[name]) &&
              (forall i | 0 <= i < |log| && log[i].name == name :: log[i].at <= LastTimes(log)[name])
  {
    if log != [] {
      var rest, last := log[..|log| - 1], log[|log| - 1];
      LastTimeIsLatest(rest, name);
      forall i | 0 <= i < |rest| ensures rest[i] == log[i] && FarEnough(log[i], last.name, last.at) {}
      if last.name == name {
        assert log[|log| - 1].name == name;
      } else if name in LastTimes(log) {
        var i :| 0 <= i < |rest| && rest[i].name == name && rest[i].at == LastTimes(rest)[name];
        assert log[i].name == name;
      }
    }
  }

  lemma LastIsLatest(log: seq<ResetRec>)
    requires Spaced(log) && log != []
    ensures forall i | 0 <= i < |log| :: log[i].at <= log[|log| - 1].at
  {
    forall i | 0 <= i < |log| - 1 ensures log[i].at <= log[|log| - 1].at {
      assert FarEnough(log[i], log[|log| - 1].name, log[|log| - 1].at);
    }
  }

  /** The two clock checks accept exactly when every RESET relayed in the room
    * since it was last empty is far enough back. */
  lemma AcceptedIffSpaced(s: Rooms, rs: ResetLog, ws: Ws, now: int)
    requires ClocksOk(s, rs) && ws in s.clients
    ensures ResetAccepted(s, ws, now) <==>
            s.clients[ws].sharedReset && AllFarEnough(LogOf(rs, s.clients[ws].roomId), s.clients[ws].name, now)
  {
    var r, name := s.clients[ws].roomId, s.clients[ws].name;
    if r in rs {
      assert RoomClocksOk(s, rs, r);
      var log := rs[r];
      LastTimeIsLatest(log, name);
      LastIsLatest(log);
      assert LogOf(rs, r) == log && LogOf(rs, r)[|log| - 1] == log[|log| - 1];
      if name in LastTimes(log) {
        var i :| 0 <= i < |log| && log[i].name == name && log[i].at == LastTimes(log)[name];
        assert LogOf(rs, r)[i] == log[i];
      }
    }
  }

  lemma SameClocks(s: Rooms, t: Rooms, rs: ResetLog)
    requires ClocksOk(s, rs) && t.roomResetMs == s.roomResetMs && t.senderResetMs == s.senderResetMs
    ensures ClocksOk(t, rs)
  {
    forall r | r in rs ensures RoomClocksOk(t, rs, r) { assert RoomClocksOk(s, rs, r); }
  }

  lemma LeaveClocks(sys: Sys, ws: Ws, rs: ResetLog)
    requires ClocksOk(sys.rooms, rs)
    ensures var o := LeaveAndTell(sys, ws); ClocksOk(o.sys.rooms, ResetsStep(rs, o))
  {
    var o := LeaveAndTell(sys, ws);
    var rs' := ResetsStep(rs, o);
    forall r | r in rs' ensures RoomClocksOk(o.sys.rooms, rs', r) {
      assert RoomClocksOk(sys.rooms, rs, r);
    }
  }

  /** One RESET more, far enough from all before it. */
  lemma SpacedSnoc(log: seq<ResetRec>, rec: ResetRec)
    requires Spaced(log) && forall i | 0 <= i < |log| :: FarEnough(log[i], rec.name, rec.at)
    ensures SumUp(rec.at, LastTimes(log)[rec.name := rec.at], log + [rec])
  {
    var all := log + [rec];
    assert all[..|all| - 1] == log;
    forall i, j | 0 <= i < j < |all| ensures FarEnough(all[i], all[j].name, all[j].at) {
      if j < |log| { assert FarEnough(log[i], log[j].name, log[j].at); }
    }
  }

  lemma RelayClocks(s: Rooms, rs: ResetLog, room: string, rec: ResetRec, ws: Ws)
    requires ClocksOk(s, rs) && ws in s.clients && s.clients[ws].roomId == room && s.clients[ws].name == rec.name
    requires ResetAccepted(s, ws, rec.at)
    ensures var t := StampSenderReset(StampRoomReset(s, room, rec.at), room, rec.name, rec.at);
            ClocksOk(t, rs[room := LogOf(rs, room) + [rec]])
  {
    var t := StampSenderReset(StampRoomReset(s, room, rec.at), room, rec.name, rec.at);
    var log := LogOf(rs, room);
    var rs' := rs[room := log + [rec]];
    AcceptedIffSpaced(s, rs, ws, rec.at);
    if room in rs { assert RoomClocksOk(s, rs, room); }
    SpacedSnoc(log, rec);
    hide ResetAccepted, SumUp;
    forall r | r in rs' ensures RoomClocksOk(t, rs', r) {
      if r != room { assert RoomClocksOk(s, rs, r); }
    }
  }

  lemma JoinClocks(sys: Sys, ws: Ws, room: string, name: string, team: Option<Team>, on: bool, rs: ResetLog)
    requires ClocksOk(sys.rooms, rs)
    ensures var o := OnJoin(sys, ws, room, name, team, on); ClocksOk(o.sys.rooms, ResetsStep(rs, o))
  {
    var o := OnJoin(sys, ws, room, name, team, on);
    if IsRepeat(sys.rooms, ws, room, name) {
      SameClocks(sys.rooms, o.sys.rooms, rs);
    } else {
      OnJoinFresh(sys, ws, room, name, team, on);
      var left := LeaveAndTell(sys, ws);
      LeaveClocks(sys, ws, rs);
      SameClocks(left.sys.rooms, o.sys.rooms, ResetsStep(rs, left));
    }
  }

  lemma MessageClocks(sys: Sys, ws: Ws, msg: Message, now: int, rs: ResetLog)
    requires ClocksOk(sys.rooms, rs)
    ensures var o := OnMessage(sys, ws, msg, now); ClocksOk(o.sys.rooms, ResetsStep(rs, o))
  {
    var o := OnMessage(sys, ws, msg, now);
    match msg {
      case JoinMsg(room, name, team, on) => JoinClocks(sys, ws, room, name, team, on, rs);
      case ResetAllMsg =>
        if ResetAccepted(sys.rooms, ws, now) {
          var m := sys.rooms.clients[ws];
          RelayClocks(sys.rooms, rs, m.roomId, ResetRec(m.name, now), ws);
        }
      case _ => SameClocks(sys.rooms, o.sys.rooms, rs);
    }
  }

  lemma {:induction false} RunClocks(es: seq<Event>)
    ensures ClocksOk(After(es).rooms, ResetsOf(es))
  {
    if es != [] {
      var rest, e := es[..|es| - 1], es[|es| - 1];
      RunClocks(rest);
      var sys, rs := After(rest), ResetsOf(rest);
      match e {
        case Connect(ws) => SameClocks(sys.rooms, Step(sys, e).sys.rooms, rs);
        case Received(ws, msg, now) => MessageClocks(sys, ws, msg, now, rs);
        case Closing(ws) => SameClocks(sys.rooms, Step(sys, e).sys.rooms, rs);
        case Closed(ws) => LeaveClocks(sys.(open := sys.open - {ws}, closed := sys.closed + {ws}), ws, rs);
      }
    }
  }

  /** Spacing over runs: while a room never empties, RESETs are relayed in it at
    * least 15 s apart and for one name at least 30 s apart, through reconnects
    * and whatever the clock does; and reset clocks exist only for rooms with
    * someone in them. */
  lemma ResetsAreSpaced(es: seq<Event>, room: string)
    requires LegalRun(es)
    ensures Spaced(LogOf(ResetsOf(es), room))
    ensures room in After(es).rooms.roomResetMs || room in After(es).rooms.senderResetMs ==>
              room in After(es).rooms.rooms && After(es).rooms.rooms[room] != []
  {
    RunClocks(es);
    RunKeeps(es);
    if room in ResetsOf(es) { assert RoomClocksOk(After(es).rooms, ResetsOf(es), room); }
    if room in After(es).rooms.rooms { assert RoomOk(After(es).rooms, room); }
  }

  /** A request is relayed exactly when its sender has opted in and every RESET
    * relayed since the room was last empty is far enough back; one that is
    * refused changes nothing at all. */
  lemma RelayedExactlyWhenSpaced(es: seq<Event>, ws: Ws, now: int)
    requires LegalRun(es) && ws in After(es).rooms.clients
    ensures var sys, m := After(es), After(es).rooms.clients[ws];
            var o := Step(sys, Received(ws, ResetAllMsg, now));
            var log := LogOf(ResetsOf(es), m.roomId);
            && (o.relayed.Some? <==> m.sharedReset && AllFarEnough(log, m.name, now))
            && (o.relayed.Some? ==> o.relayed.value == (m.roomId, ResetRec(m.name, now)))
            && (o.relayed.None? ==> o.sys == sys && o.out == [])
  {
    RunClocks(es);
    AcceptedIffSpaced(After(es).rooms, ResetsOf(es), ws, now);
    hide ResetAccepted, AllFarEnough, LogOf, LegalRun;
    AskedFor(After(es), ws, now);
  }

  lemma AskedFor(sys: Sys, ws: Ws, now: int)
    requires ws in sys.rooms.clients
    ensures var o, m := Step(sys, Received(ws, ResetAllMsg, now)), sys.rooms.clients[ws];
            && (o.relayed.Some? <==> ResetAccepted(sys.rooms, ws, now))
            && (o.relayed.Some? ==> o.relayed.value == (m.roomId, ResetRec(m.name, now)))
            && (o.relayed.None? ==> o.sys == sys && o.out == [])
  {
  }

  /** The state of a server with one player in one room and nobody else. */
  function Alone(ws: Ws, room: string, name: string): Rooms {
    var m := Member(room, name, ws, None, None, None, None, true);
    Rooms(map[room := [m]], map[ws := m], map[], map[])
  }

  lemma LoneJoin(sys: Sys, ws: Ws, room: string, name: string, now: int)
    requires sys.rooms == NO_ROOMS
    ensures Step(sys, Received(ws, JoinMsg(room, name, None, true), now)).sys == sys.(rooms := Alone(ws, room, name))
  {
    var m := Member(room, name, ws, None, None, None, None, false);
    var j := Join(sys.rooms, room, name, ws, None);
    assert j.evicted == None && j.s.rooms[room] == [m] && j.s.clients[ws] == m;
    assert j.s == Rooms(map[room := [m]], map[ws := m], map[], map[]);
    assert FindWs([m], ws) == Some(0) && [m][0 := m.(sharedReset := true)] == [m.(sharedReset := true)];
    assert SetSharedReset(j.s, ws, true) == Alone(ws, room, name);
  }

  /** It is relayed, and the room's clocks go with its last member. */
  lemma LoneResetAndClose(sys: Sys, ws: Ws, room: string, name: string, now: int)
    requires sys.rooms == Alone(ws, room, name)
    ensures var o := Step(sys, Received(ws, ResetAllMsg, now));
            && o.relayed == Some((room, ResetRec(name, now))) && o.sys.known == sys.known && o.sys.closed == sys.closed
            && Step(o.sys, Closed(ws)).sys ==
               sys.(rooms := NO_ROOMS, open := sys.open - {ws}, closed := sys.closed + {ws})
  {
    var o := Step(sys, Received(ws, ResetAllMsg, now));
    assert o.sys.rooms.rooms == sys.rooms.rooms && o.sys.rooms.clients == sys.rooms.clients;
    assert Remaining(o.sys.rooms, ws) == [];
    assert Leave(o.sys.rooms, ws).s == NO_ROOMS;
  }

  lemma AfterMore(es: seq<Event>, e: Event)
    requires LegalRun(es) && Legal(After(es), e)
    ensures LegalRun(es + [e]) && After(es + [e]) == Step(After(es), e).sys
  {
    assert (es + [e])[..|es|] == es;
  }

  /** A sender's clock does not outlive its reconnecting when nobody else is in the
    * room: a player alone has a RESET relayed at 100 s, drops, joins again under the
    * same name, and has another relayed one second after the first. */
  lemma ClockLostWithTheRoom() returns (before: seq<Event>, between: seq<Event>)
    ensures var first, again := Received(0, ResetAllMsg, 100_000), Received(1, ResetAllMsg, 101_000);
            && before == [Connect(0)] + [Received(0, JoinMsg("r", "a", None, true), 0)]
            && between == before + [first] + [Closed(0)] + [Connect(1)] +
                [Received(1, JoinMsg("r", "a", None, true), 101_000)]
            && LegalRun(between + [again])
            && Step(After(before), first).relayed == Some(("r", ResetRec("a", 100_000)))
            && Step(After(between), again).relayed == Some(("r", ResetRec("a", 101_000)))
  {
    hide OnMessage, LeaveAndTell, Alone;
    var join := JoinMsg("r", "a", None, true);
    AfterMore([], Connect(0));
    assert [] + [Connect(0)] == [Connect(0)];
    assert After([Connect(0)]) == Sys(NO_ROOMS, {0}, {0}, {});
    AfterMore([Connect(0)], Received(0, join, 0));
    LoneJoin(After([Connect(0)]), 0, "r", "a", 0);
    before := [Connect(0)] + [Received(0, join, 0)];
    between := Reconnect(before, 0, 1, "r", "a", 100_000, 101_000);
    LoneResetAndClose(After(between), 1, "r", "a", 101_000);
    AfterMore(between, Received(1, ResetAllMsg, 101_000));
  }

  /** A player alone in a room has a RESET relayed, drops and joins again. */
  lemma Reconnect(es: seq<Event>, ws: Ws, next: Ws, room: string, name: string, now: int, later: int)
    returns (after: seq<Event>)
    requires LegalRun(es) && After(es) == Sys(Alone(ws, room, name), {ws}, {ws}, {}) && next != ws
    ensures after == es + [Received(ws, ResetAllMsg, now)] + [Closed(ws)] + [Connect(next)] +
                     [Received(next, JoinMsg(room, name, None, true), later)]
    ensures Step(After(es), Received(ws, ResetAllMsg, now)).relayed == Some((room, ResetRec(name, now)))
    ensures LegalRun(after) && After(after) == Sys(Alone(next, room, name), {ws, next}, {next}, {ws})
  {
    hide OnMessage, LeaveAndTell, Alone;
    after := es + [Received(ws, ResetAllMsg, now)];
    LoneResetAndClose(After(es), ws, room, name, now);
    AfterMore(es, Received(ws, ResetAllMsg, now));
    AfterMore(after, Closed(ws));
    after := after + [Closed(ws)];
    assert After(after) == Sys(NO_ROOMS, {ws}, {}, {ws});
    AfterMore(after, Connect(next));
    after := after + [Connect(next)];
    assert After(after) == Sys(NO_ROOMS, {ws, next}, {next}, {ws});
    AfterMore(after, Received(next, JoinMsg(room, name, None, true), later));
    LoneJoin(After(after), next, room, name, later);
    after := after + [Received(next, JoinMsg(room, name, None, true), later)];
  }

  // ---------- Who is reset ----------

  lemma {:induction false} BroadcastHas(open: set<Ws>, ms: seq<Member>, f: Frame, x: Sent)
    ensures x in Broadcast(open, ms, f) <==> x.frame == f && x.to in open && InMembers(ms, x.to)
    decreases ms
  {
    if ms != [] {
      BroadcastHas(open, ms[1..], f, x);
      InMembersCons(ms, x.to);
    }
  }

  lemma {:induction false} OptedInHas(ms: seq<Member>, m: Member)
    ensures m in OptedIn(ms) <==> m in ms && m.sharedReset
  {
    if ms != [] {
      OptedInHas(ms[1..], m);
      assert ms == [ms[0]] + ms[1..];
    }
  }

  /** A member of the sender's room, not the sender, who has opted in. */
  predicate ToBeReset(s: Rooms, ws: Ws, w: Ws) {
    ws in s.clients && w in s.clients && w != ws && s.clients[w].roomId == s.clients[ws].roomId &&
        s.clients[w].sharedReset
  }

  lemma OptedInOthers(s: Rooms, ws: Ws, w: Ws)
    requires Inv(s) && ws in s.clients
    ensures InMembers(OptedIn(OthersInRoom(s, ws)), w) <==> ToBeReset(s, ws, w)
  {
    var room := s.clients[ws].roomId;
    var others := OthersInRoom(s, ws);
    assert ClientOk(s, ws) && RoomOk(s, room);
    FilterOthersHas(s.rooms[room], ws);
    if m :| m in OptedIn(others) && m.ws == w { OptedInHas(others, m); }
    if ToBeReset(s, ws, w) {
      assert ClientOk(s, w);
      OptedInHas(others, s.clients[w]);
    }
  }

  /** A RESET that is relayed reaches exactly the OPEN sockets of those in the
    * room, the sender apart, who have opted in, and carries the sender's name. */
  lemma ResetReachesOptedIn(es: seq<Event>, ws: Ws, now: int, x: Sent)
    requires LegalRun(es) && ResetAccepted(After(es).rooms, ws, now)
    ensures var sys := After(es);
            x in Step(sys, Received(ws, ResetAllMsg, now)).out <==>
              x.frame == Reset(sys.rooms.clients[ws].name) && x.to in sys.open && ToBeReset(sys.rooms, ws, x.to)
  {
    RunKeeps(es);
    var sys := After(es);
    var s' := Step(sys, Received(ws, ResetAllMsg, now)).sys.rooms;
    ResetAllKeeps(sys, ws, now);
    OptedInOthers(s', ws, x.to);
    BroadcastHas(sys.open, OptedIn(OthersInRoom(s', ws)), Reset(sys.rooms.clients[ws].name), x);
  }

  lemma LeaveSendsNoReset(sys: Sys, ws: Ws, x: Sent)
    ensures x in LeaveAndTell(sys, ws).out ==> !x.frame.Reset?
  {
    var l := Leave(sys.rooms, ws);
    if l.gone.Some? { BroadcastHas(sys.open, l.gone.value.remaining, PeerLeft(l.gone.value.name), x); }
  }

  lemma JoinSendsNoReset(sys: Sys, ws: Ws, room: string, name: string, team: Option<Team>, on: bool, x: Sent)
    ensures x in OnJoin(sys, ws, room, name, team, on).out ==> !x.frame.Reset?
  {
    if !IsRepeat(sys.rooms, ws, room, name) {
      OnJoinFresh(sys, ws, room, name, team, on);
      LeaveSendsNoReset(sys, ws, x);
      EnterSendsNoReset(LeaveAndTell(sys, ws).sys, ws, room, name, team, on, x);
    }
  }

  lemma EnterSendsNoReset(sys: Sys, ws: Ws, room: string, name: string, team: Option<Team>, on: bool, x: Sent)
    ensures x in EnterRoom(sys, ws, room, name, team, on).out ==> !x.frame.Reset?
  {
    var o := EnterRoom(sys, ws, room, name, team, on);
    BroadcastHas(o.sys.open, OthersInRoom(o.sys.rooms, ws), PeerJoined(name), x);
  }

  /** No one who has not opted in is ever sent a RESET: whatever the event, one
    * goes only to an opted-in member of the room of an opted-in sender who asked. */
  lemma OnlyOptedInAreReset(es: seq<Event>, e: Event, x: Sent)
    requires LegalRun(es) && x in Step(After(es), e).out && x.frame.Reset?
    ensures e.Received? && e.msg == ResetAllMsg && ResetAccepted(After(es).rooms, e.ws, e.now)
    ensures ToBeReset(After(es).rooms, e.ws, x.to)
  {
    var sys := After(es);
    match e {
      case Received(ws, JoinMsg(room, name, team, on), now) => JoinSendsNoReset(sys, ws, room, name, team, on, x);
      case Received(ws, PositionMsg(blob), now) =>
        if ws in sys.rooms.clients {
          BroadcastHas(sys.open, OthersInRoom(sys.rooms, ws), PositionFrom(sys.rooms.clients[ws].name, blob), x);
        }
      case Received(ws, ResetAllMsg, now) =>
        if ResetAccepted(sys.rooms, ws, now) { ResetReachesOptedIn(es, ws, now, x); }
      case Closed(ws) =>
        LeaveSendsNoReset(sys.(open := sys.open - {ws}, closed := sys.closed + {ws}), ws, x);
      case _ =>
    }
  }

  // ---------- Last sightings ----------

  /** A sighting as reported: by whom, where and how long ago, and when. */
  datatype SightRec = SightRec(room: string, name: string, seen: Sighting, at: int)

  function SightedBy(s: Rooms, e: Event): seq<SightRec> {
    match e
    case Received(ws, CoordsMsg(Lost(Some(seen))), now) =>
      if ws in s.clients then [SightRec(s.clients[ws].roomId, s.clients[ws].name, seen, now)] else []
    case _ => []
  }

  /** Every sighting reported so far. */
  function Sighted(es: seq<Event>): seq<SightRec> {
    if es == [] then [] else Sighted(es[..|es| - 1]) + SightedBy(After(es[..|es| - 1]).rooms, es[|es| - 1])
  }

  /** The entry's last sighting is this one, reported under its room and name,
    * dated by the age reported, clamped. */
  predicate ReportedFor(m: Member, rec: SightRec) {
    m.lastSeen == Some(Anchored(rec.seen, rec.at)) && rec.room == m.roomId && rec.name == m.name
  }

  ghost predicate SightingOk(m: Member, log: seq<SightRec>) {
    m.lastSeen.Some? ==> exists rec | rec in log :: ReportedFor(m, rec)
  }

  ghost predicate SightingsOk(c: map<Ws, Member>, log: seq<SightRec>) {
    forall w | w in c :: SightingOk(c[w], log)
  }

  lemma SightingsLater(c: map<Ws, Member>, log: seq<SightRec>, more: seq<SightRec>)
    requires SightingsOk(c, log)
    ensures SightingsOk(c, log + more)
  {
    forall w | w in c ensures SightingOk(c[w], log + more) {
      assert SightingOk(c[w], log);
      if c[w].lastSeen.Some? {
        var rec :| rec in log && ReportedFor(c[w], rec);
        assert rec in log + more;
      }
    }
  }

  lemma SetSighting(c: map<Ws, Member>, ws: Ws, m: Member, log: seq<SightRec>)
    requires SightingsOk(c, log) && SightingOk(m, log)
    ensures SightingsOk(c[ws := m], log)
  {
    var c' := c[ws := m];
    forall w | w in c' ensures SightingOk(c'[w], log) {
      if w != ws { assert SightingOk(c[w], log); }
    }
  }

  /** Joining carries the evicted entry's sighting, of the same room and name. */
  lemma JoinSightings(s: Rooms, room: string, name: string, ws: Ws, team: Option<Team>, log: seq<SightRec>)
    requires Inv(s) && ws !in s.clients && SightingsOk(s.clients, log)
    ensures SightingsOk(Join(s, room, name, ws, team).s.clients, log)
  {
    var j := Join(s, room, name, ws, team);
    EvictedFacts(s, room, name, ws, team);
    forall w | w in j.s.clients ensures SightingOk(j.s.clients[w], log) {
      if w != ws { assert SightingOk(s.clients[w], log); }
      else if j.evicted.Some? { assert SightingOk(s.clients[j.evicted.value.ws], log); }
    }
  }

  lemma LeaveSightings(s: Rooms, ws: Ws, log: seq<SightRec>)
    requires SightingsOk(s.clients, log)
    ensures SightingsOk(Leave(s, ws).s.clients, log)
  {
    var c := Leave(s, ws).s.clients;
    forall w | w in c ensures SightingOk(c[w], log) {
      assert SightingOk(s.clients[w], log);
    }
  }

  lemma FlagSightings(s: Rooms, ws: Ws, on: bool, log: seq<SightRec>)
    requires SightingsOk(s.clients, log)
    ensures SightingsOk(SetSharedReset(s, ws, on).clients, log)
  {
    if ws in s.clients {
      assert SightingOk(s.clients[ws], log);
      SetSighting(s.clients, ws, s.clients[ws].(sharedReset := on), log);
    }
  }

  lemma OnJoinSightings(sys: Sys, ws: Ws, room: string, name: string, team: Option<Team>, on: bool, log: seq<SightRec>)
    requires Inv(sys.rooms) && SightingsOk(sys.rooms.clients, log)
    ensures SightingsOk(OnJoin(sys, ws, room, name, team, on).sys.rooms.clients, log)
  {
    if IsRepeat(sys.rooms, ws, room, name) {
      var s := sys.rooms;
      assert SightingOk(s.clients[ws], log);
      var s1 := if team.Some? then SetTeam(s, ws, team.value) else s;
      if team.Some? { SetSighting(s.clients, ws, s.clients[ws].(team := team), log); }
      FlagSightings(s1, ws, on, log);
    } else {
      OnJoinFresh(sys, ws, room, name, team, on);
      var left := LeaveAndTell(sys, ws).sys.rooms;
      LeaveAndTellPlace(sys, ws);
      LeaveSightings(sys.rooms, ws, log);
      JoinSightings(left, room, name, ws, team, log);
      FlagSightings(Join(left, room, name, ws, team).s, ws, on, log);
    }
  }

  lemma CoordsSightings(sys: Sys, ws: Ws, report: CoordsReport, now: int, log: seq<SightRec>)
    requires SightingsOk(sys.rooms.clients, log)
    ensures SightingsOk(OnCoords(sys, ws, report, now).sys.rooms.clients,
                        log + SightedBy(sys.rooms, Received(ws, CoordsMsg(report), now)))
  {
    var more := SightedBy(sys.rooms, Received(ws, CoordsMsg(report), now));
    SightingsLater(sys.rooms.clients, log, more);
    if ws in sys.rooms.clients {
      var c, m := sys.rooms.clients, sys.rooms.clients[ws];
      match report {
        case Malformed =>
        case Lost(seen) =>
          var m' := m.(position := None, camera := None,
                       lastSeen := if seen.Some? then Some(Anchored(seen.value, now)) else None);
          if seen.Some? { assert more[0] in log + more; }
          SetSighting(c, ws, m', log + more);
        case Live(x, y, camera) =>
          var m1 := m.(position := Some(Stamped(x, y, now)), lastSeen := None);
          SetSighting(c, ws, m1, log + more);
          var m2 := m1.(camera := if camera.Some? then Some(Stamped(camera.value.0, camera.value.1, now)) else None);
          SetSighting(c[ws := m1], ws, m2, log + more);
      }
    }
  }

  lemma StepSightings(sys: Sys, e: Event, log: seq<SightRec>)
    requires Inv(sys.rooms) && SightingsOk(sys.rooms.clients, log)
    ensures SightingsOk(Step(sys, e).sys.rooms.clients, log + SightedBy(sys.rooms, e))
  {
    match e {
      case Received(ws, JoinMsg(room, name, team, on), now) =>
        OnJoinSightings(sys, ws, room, name, team, on, log);
        assert log + [] == log;
      case Received(ws, CoordsMsg(report), now) =>
        CoordsSightings(sys, ws, report, now, log);
      case Received(ws, SharedResetMsg(on), now) =>
        FlagSightings(sys.rooms, ws, on, log);
        assert log + [] == log;
      case Closed(ws) =>
        LeaveSightings(sys.rooms, ws, log);
        assert log + [] == log;
      case _ =>
        assert log + [] == log;
    }
  }

  /** In every reachable state a position and a last sighting never stand
    * together, a camera stands only beside a position, and each stored sighting
    * was reported under that room and name, dated by its clamped age, through
    * any number of takeovers. */
  lemma {:induction false} StoredSightingsWereReported(es: seq<Event>)
    requires LegalRun(es)
    ensures SightingsOk(After(es).rooms.clients, Sighted(es))
    ensures forall w | w in After(es).rooms.clients :: Disciplined(After(es).rooms.clients[w])
  {
    RunKeeps(es);
    forall w | w in After(es).rooms.clients ensures Disciplined(After(es).rooms.clients[w]) {
      assert ClientOk(After(es).rooms, w);
    }
    if es != [] {
      var rest := es[..|es| - 1];
      StoredSightingsWereReported(rest);
      RunKeeps(rest);
      StepSightings(After(rest), es[|es| - 1], Sighted(rest));
    }
  }
}
