/** The connection handler as it runs (server/src/ws-handler.ts): each message
  * updates the room manager in place and sends frames in loops. Every handler is
  * proved to do one step of WsProtocol, so a server object that has handled any
  * legal history of events is in the state, and has sent the frames, that the
  * theorems about runs speak of. */
module WsHandling {
  import opened Options
  import opened RoomState
  import opened RoomManagement
  import opened WsProtocol
  import WsMembership
  import WsRuns

  lemma Regroup(a: seq<Sent>, b: seq<Sent>, c: seq<Sent>)
    ensures a + b + c == a + (b + c)
  {
  }

  lemma BroadcastStep(open: set<Ws>, ms: seq<Member>, i: nat, frame: Frame)
    requires i < |ms|
    ensures Broadcast(open, ms[i..], frame) == Send(open, ms[i].ws, frame) + Broadcast(open, ms[i + 1..], frame)
  {
    assert ms[i..][1..] == ms[i + 1..];
  }

  lemma OptedInStep(open: set<Ws>, ms: seq<Member>, i: nat, frame: Frame)
    requires i < |ms|
    ensures Broadcast(open, OptedIn(ms[i..]), frame) ==
            (if ms[i].sharedReset then Send(open, ms[i].ws, frame) else []) +
                Broadcast(open, OptedIn(ms[i + 1..]), frame)
  {
    var tail := OptedIn(ms[i + 1..]);
    assert ms[i..][1..] == ms[i + 1..];
    assert OptedIn(ms[i..]) == if ms[i].sharedReset then [ms[i]] + tail else tail;
    assert ([ms[i]] + tail)[1..] == tail;
  }

  class Server {
    const rooms: RoomManager
    /** Sockets that ever connected, are still OPEN, and have had their close event. */
    var known: set<Ws>
    var open: set<Ws>
    var closed: set<Ws>
    /** Every frame handed to an OPEN socket, in order. */
    var sent: seq<Sent>

    /** The events handled so far. */
    ghost var History: seq<Event>

    ghost function State(): Sys
      reads this, rooms
    {
      Sys(rooms.State, known, open, closed)
    }

    ghost predicate Tied()
      reads this, rooms, rooms.Repr
    {
      rooms.Valid() && Inv(rooms.State)
    }

    /** The server is where its history of legal events leads, and has sent
      * exactly the frames those steps send. */
    ghost predicate Valid()
      reads this, rooms, rooms.Repr
    {
      && Tied()
      && WsRuns.LegalRun(History) && State() == WsRuns.After(History) && sent == WsRuns.Log(History)
    }

    constructor ()
      ensures Valid() && History == [] && fresh(rooms) && rooms.Repr == {}
    {
      rooms := new RoomManager();
      known, open, closed, sent, History := {}, {}, {}, [], [];
    }

    // ---------- Sending ----------

    method Send(to: Ws, frame: Frame) returns (ok: bool)
      modifies `sent
      ensures ok == (to in open) && sent == old(sent) + WsProtocol.Send(open, to, frame)
    {
      if to !in open { return false; }
      sent := sent + [Sent(to, frame)];
      ok := true;
    }

    method SendAll(peers: seq<ClientObject>, frame: Frame, ghost ms: seq<Member>)
      requires |peers| == |ms| && forall i | 0 <= i < |peers| :: peers[i].ws == ms[i].ws
      modifies `sent
      ensures sent == old(sent) + Broadcast(open, ms, frame)
    {
      assert ms[0..] == ms && Broadcast(open, [], frame) == [];
      hide Broadcast, WsProtocol.Send;
      for i := 0 to |peers|
        invariant sent + Broadcast(open, ms[i..], frame) == old(sent) + Broadcast(open, ms, frame)
      {
        BroadcastStep(open, ms, i, frame);
        Regroup(sent, WsProtocol.Send(open, ms[i].ws, frame), Broadcast(open, ms[i + 1..], frame));
        var _ := Send(peers[i].ws, frame);
      }
      assert ms[|ms|..] == [];
    }

    // ---------- Joining and leaving ----------

    method LeaveAndTell(ws: Ws)
      requires Tied()
      modifies `sent, rooms
      ensures rooms.Repr == old(rooms.Repr) && rooms.Valid()
      ensures var o := WsProtocol.LeaveAndTell(old(State()), ws);
              State() == o.sys && sent == old(sent) + o.out
    {
      var gone := rooms.Leave(ws);
      if gone.Some? {
        SendAll(gone.value.remaining, PeerLeft(gone.value.name),
            RoomState.Leave(old(rooms.State), ws).gone.value.remaining);
      }
    }

    /** The joiner is told who is there, and they are told of the joiner. */
    method Greet(ws: Ws, peers: seq<string>, name: string)
      requires Tied()
      modifies `sent
      ensures sent == old(sent) + (WsProtocol.Send(open, ws, RoomStateFrame(peers)) +
                                   Broadcast(open, OthersInRoom(rooms.State, ws), PeerJoined(name)))
    {
      hide RoomManager.Valid, Inv, OthersInRoom, Broadcast;
      var _ := Send(ws, RoomStateFrame(peers));
      var others := rooms.GetOthersInRoom(ws);
      SendAll(others, PeerJoined(name), OthersInRoom(rooms.State, ws));
    }

    /** The joiner takes its entry, and the socket it replaces stops being OPEN. */
    method TakeEntry(ws: Ws, room: string, name: string, team: Option<Team>, sharedReset: bool)
        returns (peers: seq<string>)
      requires Tied() && ws !in rooms.State.clients
      modifies `open, rooms, rooms.Repr
      ensures rooms.Valid() && fresh(rooms.Repr - old(rooms.Repr))
      ensures var j := RoomState.Join(old(rooms.State), room, name, ws, team);
              && peers == j.peers && rooms.State == RoomState.SetSharedReset(j.s, ws, sharedReset)
              && open == old(open) - (if j.evicted.Some? then {j.evicted.value.ws} - {ws} else {})
    {
      hide RoomManager.Valid, Inv, RoomState.Join, RoomState.SetSharedReset;
      var evicted;
      peers, evicted := rooms.Join(room, name, ws, team);
      rooms.SetSharedReset(ws, sharedReset);
      if evicted.Some? && evicted.value.ws != ws {
        open := open - {evicted.value.ws};
      }
    }

    method EnterRoom(ws: Ws, room: string, name: string, team: Option<Team>, sharedReset: bool)
      requires Tied() && ws !in rooms.State.clients
      modifies `sent, `open, rooms, rooms.Repr
      ensures rooms.Valid() && fresh(rooms.Repr - old(rooms.Repr))
      ensures var o := WsProtocol.EnterRoom(old(State()), ws, room, name, team, sharedReset);
              State() == o.sys && sent == old(sent) + o.out
    {
      hide RoomManager.Valid, Inv, RoomState.Join, RoomState.SetSharedReset, OthersInRoom, Broadcast;
      WsMembership.EnterPlace(State(), ws, room, name, team, sharedReset);
      var peers := TakeEntry(ws, room, name, team, sharedReset);
      Greet(ws, peers, name);
    }

    method OnRepeatJoin(ws: Ws, team: Option<Team>, sharedReset: bool)
      requires Tied() && ws in rooms.State.clients
      modifies `sent, rooms, rooms.Repr
      ensures rooms.Valid() && rooms.Repr == old(rooms.Repr)
      ensures var o := WsProtocol.OnRepeatJoin(old(State()), ws, team, sharedReset);
              State() == o.sys && sent == old(sent) + o.out
    {
      hide RoomManager.Valid, Inv, RoomState.SetTeam, RoomState.SetSharedReset, OthersInRoom;
      WsRuns.RepeatJoinPlace(State(), ws, team, sharedReset);
      if team.Some? { rooms.SetTeam(ws, team.value); }
      rooms.SetSharedReset(ws, sharedReset);
      var others := rooms.GetOthersInRoom(ws);
      assert NamesOf(others) == Names(OthersInRoom(rooms.State, ws));
      var _ := Send(ws, RoomStateFrame(NamesOf(others)));
    }

    /** A socket that is in a room leaves it before it joins another. */
    method LeaveOldRoom(ws: Ws)
      requires Tied()
      modifies `sent, rooms
      ensures rooms.Repr == old(rooms.Repr) && rooms.Valid()
      ensures var o := WsProtocol.LeaveAndTell(old(State()), ws);
              State() == o.sys && sent == old(sent) + o.out
    {
      var existing := rooms.GetClientInfo(ws);
      if existing.Some? { LeaveAndTell(ws); }
    }

    /** A join that is not a repeat: any old room is told, then the new one. */
    method MoveInto(ws: Ws, room: string, name: string, team: Option<Team>, sharedReset: bool)
      requires Tied() && !WsRuns.IsRepeat(rooms.State, ws, room, name)
      modifies `sent, `open, rooms, rooms.Repr
      ensures rooms.Valid() && fresh(rooms.Repr - old(rooms.Repr))
      ensures var o := WsProtocol.OnJoin(old(State()), ws, room, name, team, sharedReset);
              State() == o.sys && sent == old(sent) + o.out
    {
      hide RoomManager.Valid, Inv, WsProtocol.LeaveAndTell, WsProtocol.EnterRoom, WsProtocol.OnJoin;
      ghost var was, log := State(), sent;
      ghost var left := WsProtocol.LeaveAndTell(was, ws);
      ghost var entered := WsProtocol.EnterRoom(left.sys, ws, room, name, team, sharedReset);
      WsRuns.OnJoinFresh(was, ws, room, name, team, sharedReset);
      WsMembership.LeaveAndTellPlace(was, ws);
      LeaveOldRoom(ws);
      assert State() == left.sys && sent == log + left.out;
      EnterRoom(ws, room, name, team, sharedReset);
      assert State() == entered.sys && sent == log + left.out + entered.out;
      assert sent == log + (left.out + entered.out);
    }

    method OnJoin(ws: Ws, room: string, name: string, team: Option<Team>, sharedReset: bool)
      requires Tied()
      modifies `sent, `open, rooms, rooms.Repr
      ensures rooms.Valid() && fresh(rooms.Repr - old(rooms.Repr))
      ensures var o := WsProtocol.OnJoin(old(State()), ws, room, name, team, sharedReset);
              State() == o.sys && sent == old(sent) + o.out
    {
      var existing := rooms.GetClientInfo(ws);
      if existing.Some? && existing.value.roomId == room && existing.value.name == name {
        OnRepeatJoin(ws, team, sharedReset);
      } else {
        MoveInto(ws, room, name, team, sharedReset);
      }
    }

    // ---------- Relaying ----------

    method OnSignal(ws: Ws, to: string, payload: string)
      requires Tied()
      modifies `sent
      ensures var o := WsProtocol.OnSignal(State(), ws, to, payload);
              State() == o.sys && sent == old(sent) + o.out
    {
      var info := rooms.GetClientInfo(ws);
      if info.None? || to == "" {
        var _ := Send(ws, ErrorFrame);
        return;
      }
      var target := rooms.FindInRoom(info.value.roomId, to);
      if target.None? {
        var _ := Send(ws, ErrorFrame);
        return;
      }
      var ok := Send(target.value.ws, SignalFrom(info.value.name, payload));
      if !ok {
        var _ := Send(ws, ErrorFrame);
      }
    }

    method OnPosition(ws: Ws, blob: string)
      requires Tied()
      modifies `sent
      ensures var o := WsProtocol.OnPosition(State(), ws, blob);
              State() == o.sys && sent == old(sent) + o.out
    {
      var info := rooms.GetClientInfo(ws);
      if info.None? {
        var _ := Send(ws, ErrorFrame);
        return;
      }
      var others := rooms.GetOthersInRoom(ws);
      SendAll(others, PositionFrom(info.value.name, blob), OthersInRoom(rooms.State, ws));
    }

    // ---------- Shared RESET ----------

    method OnSharedReset(ws: Ws, on: bool)
      requires Tied()
      modifies `sent, rooms, rooms.Repr
      ensures rooms.Valid() && rooms.Repr == old(rooms.Repr)
      ensures var o := WsProtocol.OnSharedReset(old(State()), ws, on);
              State() == o.sys && sent == old(sent) + o.out
    {
      var info := rooms.GetClientInfo(ws);
      if info.None? {
        var _ := Send(ws, ErrorFrame);
        return;
      }
      rooms.SetSharedReset(ws, on);
    }

    /** The relay loop of a RESET: only to those who opted in. */
    method SendToOptedIn(peers: seq<ClientObject>, frame: Frame, ghost ms: seq<Member>)
      requires |peers| == |ms|
      requires forall i | 0 <= i < |peers| :: peers[i].ws == ms[i].ws && peers[i].sharedReset == ms[i].sharedReset
      modifies `sent
      ensures sent == old(sent) + Broadcast(open, OptedIn(ms), frame)
    {
      assert ms[0..] == ms && Broadcast(open, OptedIn([]), frame) == [];
      hide Broadcast, OptedIn, WsProtocol.Send;
      for i := 0 to |peers|
        invariant sent + Broadcast(open, OptedIn(ms[i..]), frame) == old(sent) + Broadcast(open, OptedIn(ms), frame)
        invariant forall k | 0 <= k < |peers| :: peers[k].sharedReset == ms[k].sharedReset
      {
        OptedInStep(open, ms, i, frame);
        ghost var part := if ms[i].sharedReset then WsProtocol.Send(open, ms[i].ws, frame) else [];
        Regroup(sent, part, Broadcast(open, OptedIn(ms[i + 1..]), frame));
        if peers[i].sharedReset {
          var _ := Send(peers[i].ws, frame);
        } else {
          assert sent + part == sent;
        }
      }
      assert ms[|ms|..] == [];
    }

    method Relay(ws: Ws, name: string)
      requires Tied()
      modifies `sent
      ensures sent == old(sent) + Broadcast(open, OptedIn(OthersInRoom(rooms.State, ws)), Reset(name))
    {
      var others := rooms.GetOthersInRoom(ws);
      assert forall i | 0 <= i < |others| :: others[i].Value() == OthersInRoom(rooms.State, ws)[i];
      SendToOptedIn(others, Reset(name), OthersInRoom(rooms.State, ws));
    }

    method OnResetAll(ws: Ws, now: int)
      requires Tied()
      modifies `sent, rooms
      ensures rooms.Valid() && rooms.Repr == old(rooms.Repr)
      ensures var o := WsProtocol.OnResetAll(old(State()), ws, now);
              State() == o.sys && sent == old(sent) + o.out
    {
      var info := rooms.GetClientInfo(ws);
      if info.None? {
        var _ := Send(ws, ErrorFrame);
        return;
      }
      if !info.value.sharedReset { return; }
      hide RoomManager.Valid, Inv, OthersInRoom, Broadcast, OptedIn;
      WsRuns.ResetAllKeeps(State(), ws, now);
      ghost var o := WsProtocol.OnResetAll(State(), ws, now);
      var stamped := StampReset(info.value.roomId, info.value.name, now);
      if !stamped { return; }
      assert rooms.State == o.sys.rooms;
      Relay(ws, info.value.name);
    }

    /** Both clocks stamped, if both allow it. */
    method StampReset(roomId: string, name: string, now: int) returns (ok: bool)
      requires rooms.Valid()
      modifies rooms
      ensures rooms.Valid() && rooms.Repr == old(rooms.Repr)
      ensures ok == (RoomState.SenderResetAllowed(old(rooms.State), roomId, name, now, SHARED_RESET_SENDER_MS) &&
                     RoomState.RoomResetAllowed(old(rooms.State), roomId, now, SHARED_RESET_ROOM_MS))
      ensures rooms.State ==
              if ok then StampSenderReset(StampRoomReset(old(rooms.State), roomId, now), roomId, name, now)
              else old(rooms.State)
    {
      hide RoomManager.Valid;
      ok := rooms.SenderResetAllowed(roomId, name, now, SHARED_RESET_SENDER_MS);
      if !ok { return; }
      ok := rooms.TryStampRoomReset(roomId, now, SHARED_RESET_ROOM_MS);
      if ok { rooms.StampSenderReset(roomId, name, now); }
    }

    // ---------- Coordinates ----------

    method OnCoords(ws: Ws, report: CoordsReport, now: int)
      requires Tied()
      modifies `sent, rooms, rooms.Repr
      ensures rooms.Valid() && rooms.Repr == old(rooms.Repr)
      ensures var o := WsProtocol.OnCoords(old(State()), ws, report, now);
              State() == o.sys && sent == old(sent) + o.out
    {
      var info := rooms.GetClientInfo(ws);
      if info.None? {
        var _ := Send(ws, ErrorFrame);
        return;
      }
      match report {
        case Malformed =>
          var _ := Send(ws, ErrorFrame);
        case Lost(seen) =>
          rooms.ClearPosition(ws, seen, now);
        case Live(x, y, camera) =>
          rooms.SetPosition(ws, x, y, now);
          if camera.Some? {
            rooms.SetCamera(ws, camera.value.0, camera.value.1, now);
          } else {
            rooms.ClearCamera(ws);
          }
      }
    }

    // ---------- The listeners ----------

    method OnMessage(ws: Ws, msg: Message, now: int)
      requires Tied()
      modifies `sent, `open, rooms, rooms.Repr
      ensures rooms.Valid() && fresh(rooms.Repr - old(rooms.Repr))
      ensures var o := WsProtocol.OnMessage(old(State()), ws, msg, now);
              State() == o.sys && sent == old(sent) + o.out
    {
      match msg {
        case JoinMsg(room, name, team, on) => OnJoin(ws, room, name, team, on);
        case SignalMsg(to, payload) => OnSignal(ws, to, payload);
        case PositionMsg(blob) => OnPosition(ws, blob);
        case SharedResetMsg(on) => OnSharedReset(ws, on);
        case ResetAllMsg => OnResetAll(ws, now);
        case CoordsMsg(report) => OnCoords(ws, report, now);
        case Rejected => var _ := Send(ws, ErrorFrame);
      }
    }

    method OnClose(ws: Ws)
      requires Tied()
      modifies `sent, `open, `closed, rooms
      ensures rooms.Repr == old(rooms.Repr) && rooms.Valid()
      ensures var o := Step(old(State()), Closed(ws));
              State() == o.sys && sent == old(sent) + o.out
    {
      open, closed := open - {ws}, closed + {ws};
      LeaveAndTell(ws);
    }

    /** One event, taking the server from one point of a run to the next. */
    method Handle(e: Event)
      requires Valid() && Legal(State(), e)
      modifies this, rooms, rooms.Repr
      ensures Valid() && History == old(History) + [e] && fresh(rooms.Repr - old(rooms.Repr))
    {
      hide RoomManager.Valid, Inv, WsProtocol.OnMessage, WsProtocol.LeaveAndTell;
      ghost var was, log := State(), sent;
      WsRuns.RunKeeps(History);
      WsRuns.StepKeeps(was, e, log);
      match e {
        case Connect(ws) =>
          known, open := known + {ws}, open + {ws};
        case Received(ws, msg, now) =>
          OnMessage(ws, msg, now);
        case Closing(ws) =>
          open := open - {ws};
        case Closed(ws) =>
          OnClose(ws);
      }
      ghost var o := Step(was, e);
      assert State() == o.sys && sent == log + o.out;
      History := History + [e];
      assert History[..|History| - 1] == old(History);
    }
  }
}
