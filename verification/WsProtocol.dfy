/** The room server's protocol (server/src/ws-handler.ts) as steps over the room
  * state, the sockets' OPEN flags and the frames sent. */
module WsProtocol {
  import opened Options
  import opened RoomState

  const SHARED_RESET_ROOM_MS := 15_000
  const SHARED_RESET_SENDER_MS := 30_000

  datatype Frame =
    | RoomStateFrame(peers: seq<string>)
    | PeerJoined(name: string)
    | PeerLeft(name: string)
    | SignalFrom(from: string, payload: string)
    | PositionFrom(from: string, blob: string)
    | Reset(from: string)
    | ErrorFrame

  /** A frame handed to an OPEN socket. */
  datatype Sent = Sent(to: Ws, frame: Frame)

  datatype CoordsReport =
    | Malformed
    | Lost(seen: Option<Sighting>)
    | Live(x: real, y: real, camera: Option<(real, real)>)

  /** What a client's message asks for, once read. `Rejected` is everything
    * answered with an error and nothing else: a throttled or malformed message,
    * an invalid join, an unknown type. */
  datatype Message =
    | JoinMsg(room: string, name: string, team: Option<Team>, sharedReset: bool)
    | SignalMsg(to: string, payload: string)
    | PositionMsg(blob: string)
    | SharedResetMsg(on: bool)
    | ResetAllMsg
    | CoordsMsg(report: CoordsReport)
    | Rejected

  /** `Closing`: the socket stops being OPEN; it may still deliver messages until
    * its close event, `Closed`. */
  datatype Event =
    | Connect(ws: Ws)
    | Received(ws: Ws, msg: Message, now: int)
    | Closing(ws: Ws)
    | Closed(ws: Ws)

  /** Sockets seen, still OPEN, and closed for good. */
  datatype Sys = Sys(rooms: Rooms, known: set<Ws>, open: set<Ws>, closed: set<Ws>)

  const START := Sys(NO_ROOMS, {}, {}, {})

  /** A shared RESET that was relayed. */
  datatype ResetRec = ResetRec(name: string, at: int)

  /** One step: the state after it, the frames it sends, the room it emptied if
    * any (however briefly), and the RESET it relayed if any. */
  datatype Outcome = Outcome(sys: Sys, out: seq<Sent>, emptied: Option<string>, relayed: Option<(string, ResetRec)>)

  function Send(open: set<Ws>, to: Ws, frame: Frame): seq<Sent> {
    if to in open then [Sent(to, frame)] else []
  }

  function Broadcast(open: set<Ws>, ms: seq<Member>, frame: Frame): seq<Sent> {
    if ms == [] then [] else Send(open, ms[0].ws, frame) + Broadcast(open, ms[1..], frame)
  }

  function Quiet(sys: Sys, out: seq<Sent>): Outcome { Outcome(sys, out, None, None) }

  /** Leaving, and telling the old room from what remains of it. */
  function LeaveAndTell(sys: Sys, ws: Ws): Outcome {
    var l := Leave(sys.rooms, ws);
    if l.gone.None? then Quiet(sys, [])
    else
      var g := l.gone.value;
      Outcome(sys.(rooms := l.s), Broadcast(sys.open, g.remaining, PeerLeft(g.name)),
              if g.remaining == [] then Some(g.roomId) else None, None)
  }

  /** A join of a room under a name by a socket that is in no room. */
  function EnterRoom(sys: Sys, ws: Ws, room: string, name: string, team: Option<Team>, sharedReset: bool): Outcome {
    var j := Join(sys.rooms, room, name, ws, team);
    var s' := SetSharedReset(j.s, ws, sharedReset);
    var open := if j.evicted.Some? && j.evicted.value.ws != ws then sys.open - {j.evicted.value.ws} else sys.open;
    Quiet(sys.(rooms := s', open := open),
          Send(open, ws, RoomStateFrame(j.peers)) + Broadcast(open, OthersInRoom(s', ws), PeerJoined(name)))
  }

  function OnRepeatJoin(sys: Sys, ws: Ws, team: Option<Team>, sharedReset: bool): Outcome {
    var s1 := if team.Some? then SetTeam(sys.rooms, ws, team.value) else sys.rooms;
    var s2 := SetSharedReset(s1, ws, sharedReset);
    Quiet(sys.(rooms := s2), Send(sys.open, ws, RoomStateFrame(Names(OthersInRoom(s2, ws)))))
  }

  function OnJoin(sys: Sys, ws: Ws, room: string, name: string, team: Option<Team>, sharedReset: bool): Outcome {
    var existing := ClientInfo(sys.rooms, ws);
    if existing.Some? && existing.value.roomId == room && existing.value.name == name
    then OnRepeatJoin(sys, ws, team, sharedReset)
    else
      var left := LeaveAndTell(sys, ws);
      var entered := EnterRoom(left.sys, ws, room, name, team, sharedReset);
      Outcome(entered.sys, left.out + entered.out, left.emptied, None)
  }

  function OnSignal(sys: Sys, ws: Ws, to: string, payload: string): Outcome {
    var info := ClientInfo(sys.rooms, ws);
    if info.None? || to == "" then Quiet(sys, Send(sys.open, ws, ErrorFrame))
    else
      var target := FindInRoom(sys.rooms, info.value.roomId, to);
      if target.None? || target.value.ws !in sys.open then Quiet(sys, Send(sys.open, ws, ErrorFrame))
      else Quiet(sys, Send(sys.open, target.value.ws, SignalFrom(info.value.name, payload)))
  }

  function OnPosition(sys: Sys, ws: Ws, blob: string): Outcome {
    var info := ClientInfo(sys.rooms, ws);
    if info.None? then Quiet(sys, Send(sys.open, ws, ErrorFrame))
    else Quiet(sys, Broadcast(sys.open, OthersInRoom(sys.rooms, ws), PositionFrom(info.value.name, blob)))
  }

  function OnSharedReset(sys: Sys, ws: Ws, on: bool): Outcome {
    if ws !in sys.rooms.clients then Quiet(sys, Send(sys.open, ws, ErrorFrame))
    else Quiet(sys.(rooms := SetSharedReset(sys.rooms, ws, on)), [])
  }

  function OptedIn(ms: seq<Member>): seq<Member> {
    if ms == [] then [] else (if ms[0].sharedReset then [ms[0]] else []) + OptedIn(ms[1..])
  }

  predicate ResetAccepted(s: Rooms, ws: Ws, now: int) {
    && ws in s.clients && s.clients[ws].sharedReset
    && SenderResetAllowed(s, s.clients[ws].roomId, s.clients[ws].name, now, SHARED_RESET_SENDER_MS)
    && RoomResetAllowed(s, s.clients[ws].roomId, now, SHARED_RESET_ROOM_MS)
  }

  function OnResetAll(sys: Sys, ws: Ws, now: int): Outcome {
    if ws !in sys.rooms.clients then Quiet(sys, Send(sys.open, ws, ErrorFrame))
    else if !ResetAccepted(sys.rooms, ws, now) then Quiet(sys, [])
    else
      var info := sys.rooms.clients[ws];
      var s' := StampSenderReset(StampRoomReset(sys.rooms, info.roomId, now), info.roomId, info.name, now);
      Outcome(sys.(rooms := s'), Broadcast(sys.open, OptedIn(OthersInRoom(s', ws)), Reset(info.name)),
              None, Some((info.roomId, ResetRec(info.name, now))))
  }

  function OnCoords(sys: Sys, ws: Ws, report: CoordsReport, now: int): Outcome {
    if ws !in sys.rooms.clients then Quiet(sys, Send(sys.open, ws, ErrorFrame))
    else
      match report
      case Malformed => Quiet(sys, Send(sys.open, ws, ErrorFrame))
      case Lost(seen) => Quiet(sys.(rooms := ClearPosition(sys.rooms, ws, seen, now)), [])
      case Live(x, y, camera) =>
        var s1 := SetPosition(sys.rooms, ws, x, y, now);
        var s2 := if camera.Some? then SetCamera(s1, ws, camera.value.0, camera.value.1, now) else ClearCamera(s1, ws);
        Quiet(sys.(rooms := s2), [])
  }

  function OnMessage(sys: Sys, ws: Ws, msg: Message, now: int): Outcome {
    match msg
    case JoinMsg(room, name, team, on) => OnJoin(sys, ws, room, name, team, on)
    case SignalMsg(to, payload) => OnSignal(sys, ws, to, payload)
    case PositionMsg(blob) => OnPosition(sys, ws, blob)
    case SharedResetMsg(on) => OnSharedReset(sys, ws, on)
    case ResetAllMsg => OnResetAll(sys, ws, now)
    case CoordsMsg(report) => OnCoords(sys, ws, report, now)
    case Rejected => Quiet(sys, Send(sys.open, ws, ErrorFrame))
  }

  function Step(sys: Sys, e: Event): Outcome {
    match e
    case Connect(ws) => Quiet(sys.(known := sys.known + {ws}, open := sys.open + {ws}), [])
    case Received(ws, msg, now) => OnMessage(sys, ws, msg, now)
    case Closing(ws) => Quiet(sys.(open := sys.open - {ws}), [])
    case Closed(ws) =>
      LeaveAndTell(sys.(open := sys.open - {ws}, closed := sys.closed + {ws}), ws)
  }

  /** Sockets connect once, and say nothing after their close event. */
  predicate Legal(sys: Sys, e: Event) {
    if e.Connect? then e.ws !in sys.known else e.ws in sys.known && e.ws !in sys.closed
  }

  // ---------- What a client makes of its frames ----------

  /** The names a client takes to be in its room with it, folded from the frames
    * it was sent. */
  function View(log: seq<Sent>, ws: Ws): set<string> {
    if log == [] then {}
    else Fold(View(log[..|log| - 1], ws), log[|log| - 1], ws)
  }

  function Fold(view: set<string>, sent: Sent, ws: Ws): set<string> {
    if sent.to != ws then view
    else
      match sent.frame
      case RoomStateFrame(peers) => set n | n in peers
      case PeerJoined(n) => view + {n}
      case PeerLeft(n) => view - {n}
      case _ => view
  }

  function FoldAll(view: set<string>, out: seq<Sent>, ws: Ws): set<string>
    decreases out
  {
    if out == [] then view else FoldAll(Fold(view, out[0], ws), out[1..], ws)
  }

  lemma {:induction false} ViewOfAppend(log: seq<Sent>, out: seq<Sent>, ws: Ws)
    ensures View(log + out, ws) == FoldAll(View(log, ws), out, ws)
    decreases out
  {
    if out == [] {
      assert log + out == log;
    } else {
      var next := log + [out[0]];
      assert next[..|next| - 1] == log && next + out[1..] == log + out;
      ViewOfAppend(next, out[1..], ws);
    }
  }

  lemma {:induction false} FoldAppend(view: set<string>, a: seq<Sent>, b: seq<Sent>, ws: Ws)
    ensures FoldAll(view, a + b, ws) == FoldAll(FoldAll(view, a, ws), b, ws)
    decreases a
  {
    if a == [] {
      assert a + b == b;
    } else {
      assert (a + b)[1..] == a[1..] + b;
      FoldAppend(Fold(view, a[0], ws), a[1..], b, ws);
    }
  }

  /** The other names in the room of `ws`. */
  function OtherNames(s: Rooms, ws: Ws): set<string>
    requires ws in s.clients
  {
    (set m | m in RoomOf(s, s.clients[ws].roomId) :: m.name) - {s.clients[ws].name}
  }

  // ---------- Broadcasts ----------

  ghost predicate InMembers(ms: seq<Member>, ws: Ws) { exists m | m in ms :: m.ws == ws }

  /** A broadcast of a join reaches each OPEN listed member, and no one else. */
  lemma {:induction false} BroadcastJoined(open: set<Ws>, ms: seq<Member>, name: string, view: set<string>, ws: Ws)
    ensures FoldAll(view, Broadcast(open, ms, PeerJoined(name)), ws) ==
            if ws in open && InMembers(ms, ws) then view + {name} else view
    decreases ms
  {
    if ms != [] {
      var view' := FoldAll(view, Send(open, ms[0].ws, PeerJoined(name)), ws);
      FoldAppend(view, Send(open, ms[0].ws, PeerJoined(name)), Broadcast(open, ms[1..], PeerJoined(name)), ws);
      BroadcastJoined(open, ms[1..], name, view', ws);
      InMembersCons(ms, ws);
    }
  }

  lemma {:induction false} BroadcastLeft(open: set<Ws>, ms: seq<Member>, name: string, view: set<string>, ws: Ws)
    ensures FoldAll(view, Broadcast(open, ms, PeerLeft(name)), ws) ==
            if ws in open && InMembers(ms, ws) then view - {name} else view
    decreases ms
  {
    if ms != [] {
      var view' := FoldAll(view, Send(open, ms[0].ws, PeerLeft(name)), ws);
      FoldAppend(view, Send(open, ms[0].ws, PeerLeft(name)), Broadcast(open, ms[1..], PeerLeft(name)), ws);
      BroadcastLeft(open, ms[1..], name, view', ws);
      InMembersCons(ms, ws);
    }
  }

  lemma InMembersCons(ms: seq<Member>, ws: Ws)
    requires ms != []
    ensures InMembers(ms, ws) <==> ms[0].ws == ws || InMembers(ms[1..], ws)
  {
    assert ms == [ms[0]] + ms[1..];
  }

  /** Frames that say nothing about membership leave every view alone. */
  predicate Silent(f: Frame) { !f.RoomStateFrame? && !f.PeerJoined? && !f.PeerLeft? }

  lemma {:induction false} SilentFrames(view: set<string>, out: seq<Sent>, ws: Ws)
    requires forall x | x in out :: Silent(x.frame)
    ensures FoldAll(view, out, ws) == view
    decreases out
  {
    if out != [] {
      assert out[0] in out;
      SilentFrames(view, out[1..], ws);
    }
  }

  lemma {:induction false} BroadcastSilent(open: set<Ws>, ms: seq<Member>, f: Frame)
    requires Silent(f)
    ensures forall x | x in Broadcast(open, ms, f) :: Silent(x.frame)
    decreases ms
  {
    if ms != [] { BroadcastSilent(open, ms[1..], f); }
  }
}
