/** What the room server keeps of each player, told from the messages alone
  * (server/src/rooms.ts, server/src/ws-handler.ts): by seat, not by socket, since a
  * reconnecting player takes over what its last socket reported. */
module WsReports {
  import opened Options
  import opened RoomState
  import opened WsProtocol
  import opened WsMembership
  import opened WsRuns

  /** What is known of the holder of a seat. */
  datatype Entry = Entry(
    team: Option<Team>, position: Option<Stamped>, camera: Option<Stamped>, lastSeen: Option<Stamped>,
        sharedReset: bool)

  type Book = map<Seat, Entry>

  /** A join into a seat that is held takes over what is known of it, with the team if
    * the join names one; into a seat that is not, starts from nothing. */
  function Joined(book: Book, seat: Seat, team: Option<Team>, on: bool): Entry {
    if seat in book then book[seat].(team := if team.Some? then team else book[seat].team, sharedReset := on)
    else Entry(team, None, None, None, on)
  }

  /** A report of where a player is, or that it is lost and was last seen somewhere up
    * to 20 s ago. */
  function Told(entry: Entry, report: CoordsReport, now: int): Entry {
    match report
    case Malformed => entry
    case Live(x, y, None) => entry.(position := Some(Stamped(x, y, now)), camera := None, lastSeen := None)
    case Live(x, y, Some((cx, cy))) =>
      entry.(position := Some(Stamped(x, y, now)), camera := Some(Stamped(cx, cy, now)), lastSeen := None)
    case Lost(None) => entry.(position := None, camera := None, lastSeen := None)
    case Lost(Some(s)) =>
      var ago := if s.agoMs < 0 then 0 else if s.agoMs > 20_000 then 20_000 else s.agoMs;
      entry.(position := None, camera := None, lastSeen := Some(Stamped(s.x, s.y, now - ago)))
  }

  /** What is known by seat after an event, who held which before it. */
  function BookStep(seats: Seats, book: Book, e: Event): Book {
    match e
    case Received(ws, JoinMsg(room, name, team, on), now) =>
      var seat := Seat(room, name);
      (if ws in seats && seats[ws] != seat then book - {seats[ws]} else book)[seat := Joined(book, seat, team, on)]
    case Received(ws, SharedResetMsg(on), now) =>
      if ws in seats && seats[ws] in book then book[seats[ws] := book[seats[ws]].(sharedReset := on)] else book
    case Received(ws, CoordsMsg(report), now) =>
      if ws in seats && seats[ws] in book then book[seats[ws] := Told(book[seats[ws]], report, now)] else book
    case Closed(ws) => if ws in seats then book - {seats[ws]} else book
    case _ => book
  }

  function BookOf(es: seq<Event>): Book {
    if es == [] then map[] else BookStep(Seated(es[..|es| - 1]), BookOf(es[..|es| - 1]), es[|es| - 1])
  }

  function EntryOf(m: Member): Entry { Entry(m.team, m.position, m.camera, m.lastSeen, m.sharedReset) }

  ghost predicate EntryKept(c: map<Ws, Member>, book: Book, w: Ws)
    requires w in c
  {
    SeatOf(c[w]) in book && book[SeatOf(c[w])] == EntryOf(c[w])
  }

  ghost predicate Held(c: map<Ws, Member>, seat: Seat) { exists w :: w in c && SeatOf(c[w]) == seat }

  /** The entries stored are those of the book, one for each seat held. */
  ghost predicate BookOk(c: map<Ws, Member>, book: Book) {
    && (forall w {:trigger EntryKept(c, book, w)} | w in c :: EntryKept(c, book, w))
    && (forall seat | seat in book :: Held(c, seat))
  }

  lemma SetEntry(s: Rooms, ws: Ws, m: Member, book: Book)
    requires Inv(s) && ws in s.clients && SeatOf(m) == SeatOf(s.clients[ws]) && BookOk(s.clients, book)
    ensures BookOk(s.clients[ws := m], book[SeatOf(m) := EntryOf(m)])
  {
    var c, b := s.clients[ws := m], book[SeatOf(m) := EntryOf(m)];
    PlaceIsOnePerSeat(s);
    forall w | w in c ensures EntryKept(c, b, w) {
      if w != ws {
        assert EntryKept(s.clients, book, w);
        assert w in Place(s) && ws in Place(s);
      }
    }
    forall seat | seat in b ensures Held(c, seat) {
      if seat == SeatOf(m) { assert SeatOf(c[ws]) == seat; }
      else { var w :| w in s.clients && SeatOf(s.clients[w]) == seat; assert SeatOf(c[w]) == seat; }
    }
  }

  lemma LeaveEntry(s: Rooms, ws: Ws, book: Book)
    requires Inv(s) && BookOk(s.clients, book)
    ensures BookOk(Leave(s, ws).s.clients, if ws in s.clients then book - {SeatOf(s.clients[ws])} else book)
  {
    if ws in s.clients {
      var c, b := Leave(s, ws).s.clients, book - {SeatOf(s.clients[ws])};
      PlaceIsOnePerSeat(s);
      assert c == s.clients - {ws};
      forall w | w in c ensures EntryKept(c, b, w) {
        assert EntryKept(s.clients, book, w);
        assert w in Place(s) && ws in Place(s);
      }
      forall seat | seat in b ensures Held(c, seat) {
        var w :| w in s.clients && SeatOf(s.clients[w]) == seat;
        assert w in c && SeatOf(c[w]) == seat;
      }
    }
  }

  lemma JoinStores(s: Rooms, room: string, name: string, ws: Ws, team: Option<Team>, on: bool)
    requires Inv(s)
    ensures var j := Join(s, room, name, ws, team).s;
            var m := NewMember(room, name, ws, team, FindInRoom(s, room, name));
            && ws in j.clients && j.clients[ws] == m
            && SetSharedReset(j, ws, on).clients == j.clients[ws := m.(sharedReset := on)]
  {
    EvictedFacts(s, room, name, ws, team);
  }

  /** What a join stores for the joiner. */
  lemma JoinerEntry(s: Rooms, room: string, name: string, ws: Ws, team: Option<Team>, on: bool, book: Book)
    requires Inv(s) && BookOk(s.clients, book)
    ensures var m := NewMember(room, name, ws, team, FindInRoom(s, room, name)).(sharedReset := on);
            SeatOf(m) == Seat(room, name) && EntryOf(m) == Joined(book, Seat(room, name), team, on)
  {
    var seat, f := Seat(room, name), FindInRoom(s, room, name);
    FindIsSeat(s, room, name);
    hide FindInRoom, Inv;
    if f.Some? { assert EntryKept(s.clients, book, f.value.ws); }
    if seat in book {
      var w :| w in s.clients && SeatOf(s.clients[w]) == seat;
      SeatFound(s, w);
      assert EntryKept(s.clients, book, w);
    }
  }

  lemma EnterBook(s: Rooms, room: string, name: string, ws: Ws, team: Option<Team>, on: bool, book: Book)
    requires Inv(s) && ws !in s.clients && BookOk(s.clients, book)
    ensures BookOk(SetSharedReset(Join(s, room, name, ws, team).s, ws, on).clients,
                   book[Seat(room, name) := Joined(book, Seat(room, name), team, on)])
  {
    var seat := Seat(room, name);
    var c := SetSharedReset(Join(s, room, name, ws, team).s, ws, on).clients;
    var b := book[seat := Joined(book, seat, team, on)];
    JoinerEntry(s, room, name, ws, team, on, book);
    JoinStores(s, room, name, ws, team, on);
    hide Join, SetSharedReset, Joined, NewMember, FindInRoom;
    forall w | w in c ensures EntryKept(c, b, w) {
      if w != ws {
        JoinClients(s, room, name, ws, team, w);
        assert EntryKept(s.clients, book, w);
      }
    }
    forall x | x in b ensures Held(c, x) {
      if x == seat {
        assert SeatOf(c[ws]) == seat;
      } else {
        var w :| w in s.clients && SeatOf(s.clients[w]) == x;
        JoinClients(s, room, name, ws, team, w);
        assert w in c && SeatOf(c[w]) == x;
      }
    }
  }

  lemma MoveIsLeaveAndJoin(sys: Sys, ws: Ws, room: string, name: string, team: Option<Team>, on: bool)
    requires !IsRepeat(sys.rooms, ws, room, name)
    ensures OnJoin(sys, ws, room, name, team, on).sys.rooms ==
            SetSharedReset(Join(Leave(sys.rooms, ws).s, room, name, ws, team).s, ws, on)
  {
    hide SetSharedReset, Join;
    OnJoinFresh(sys, ws, room, name, team, on);
  }

  lemma MoveBook(s: Rooms, ws: Ws, room: string, name: string, team: Option<Team>, on: bool, now: int, book: Book)
    requires Inv(s) && BookOk(s.clients, book) && !IsRepeat(s, ws, room, name)
    ensures BookOk(SetSharedReset(Join(Leave(s, ws).s, room, name, ws, team).s, ws, on).clients,
                   BookStep(Place(s), book, Received(ws, JoinMsg(room, name, team, on), now)))
  {
    var seat := Seat(room, name);
    var b := if ws in s.clients then book - {SeatOf(s.clients[ws])} else book;
    LeaveEntry(s, ws, book);
    LeaveInv(s, ws);
    assert ws !in Leave(s, ws).s.clients;
    hide Leave, Join, SetSharedReset, Inv, BookOk;
    EnterBook(Leave(s, ws).s, room, name, ws, team, on, b);
    assert Joined(b, seat, team, on) == Joined(book, seat, team, on);
  }

  lemma JoinBook(sys: Sys, ws: Ws, room: string, name: string, team: Option<Team>, on: bool, now: int, book: Book)
    requires Inv(sys.rooms) && BookOk(sys.rooms.clients, book)
    ensures BookOk(OnJoin(sys, ws, room, name, team, on).sys.rooms.clients,
                   BookStep(Place(sys.rooms), book, Received(ws, JoinMsg(room, name, team, on), now)))
  {
    hide Inv, BookOk, LeaveAndTell, EnterRoom, OnRepeatJoin, Join, Leave, SetSharedReset;
    if IsRepeat(sys.rooms, ws, room, name) {
      RepeatJoinBook(sys, ws, team, on, book);
    } else {
      MoveIsLeaveAndJoin(sys, ws, room, name, team, on);
      MoveBook(sys.rooms, ws, room, name, team, on, now, book);
    }
  }

  lemma RepeatJoinBook(sys: Sys, ws: Ws, team: Option<Team>, on: bool, book: Book)
    requires Inv(sys.rooms) && ws in sys.rooms.clients && BookOk(sys.rooms.clients, book)
    ensures var seat := SeatOf(sys.rooms.clients[ws]);
            BookOk(OnRepeatJoin(sys, ws, team, on).sys.rooms.clients, book[seat := Joined(book, seat, team, on)])
  {
    var s := sys.rooms;
    var m := s.clients[ws];
    assert EntryKept(s.clients, book, ws);
    var m' := m.(team := if team.Some? then team else m.team, sharedReset := on);
    SetEntry(s, ws, m', book);
    assert OnRepeatJoin(sys, ws, team, on).sys.rooms.clients == s.clients[ws := m'];
  }

  lemma CoordsBook(sys: Sys, ws: Ws, report: CoordsReport, now: int, book: Book)
    requires Inv(sys.rooms) && ws in sys.rooms.clients && BookOk(sys.rooms.clients, book)
    ensures var seat := SeatOf(sys.rooms.clients[ws]);
            seat in book && BookOk(OnCoords(sys, ws, report, now).sys.rooms.clients,
                                   book[seat := Told(book[seat], report, now)])
  {
    var c, m := sys.rooms.clients, sys.rooms.clients[ws];
    assert EntryKept(c, book, ws);
    var after := OnCoords(sys, ws, report, now).sys.rooms.clients;
    assert after == c[ws := after[ws]];
    SetEntry(sys.rooms, ws, after[ws], book);
  }

  lemma StepBook(sys: Sys, e: Event, book: Book)
    requires Inv(sys.rooms) && BookOk(sys.rooms.clients, book)
    ensures BookOk(Step(sys, e).sys.rooms.clients, BookStep(Place(sys.rooms), book, e))
  {
    match e {
      case Received(ws, JoinMsg(room, name, team, on), now) => JoinBook(sys, ws, room, name, team, on, now, book);
      case Received(ws, CoordsMsg(report), now) =>
        if ws in sys.rooms.clients { CoordsBook(sys, ws, report, now, book); }
      case Received(ws, SharedResetMsg(on), now) =>
        if ws in sys.rooms.clients {
          assert EntryKept(sys.rooms.clients, book, ws);
          SetEntry(sys.rooms, ws, sys.rooms.clients[ws].(sharedReset := on), book);
        }
      case Closed(ws) => LeaveEntry(sys.rooms, ws, book);
      case _ =>
    }
  }

  /** Over any run, through takeovers, moves and repeated joins, what is stored of every
    * player is what the messages under its seat say, and there is an entry for exactly
    * the seats held. */
  lemma {:induction false} EntriesAreAsReported(es: seq<Event>)
    requires LegalRun(es)
    ensures BookOk(After(es).rooms.clients, BookOf(es))
  {
    if es != [] {
      var rest := es[..|es| - 1];
      EntriesAreAsReported(rest);
      RunKeeps(rest);
      StepBook(After(rest), es[|es| - 1], BookOf(rest));
    }
  }

  // ---------- The latest report ----------

  /** The event tells where the holder of a seat is, or is not. */
  predicate Tells(seats: Seats, e: Event, seat: Seat) {
    e.Received? && e.msg.CoordsMsg? && !e.msg.report.Malformed? && e.ws in seats && seats[e.ws] == seat
  }

  /** Since the i-th event the seat has been held all along, and no one has told. */
  ghost predicate QuietSince(es: seq<Event>, i: nat, seat: Seat) {
    forall j: nat | i < j < |es| :: QuietAt(es, j, seat)
  }

  ghost predicate QuietAt(es: seq<Event>, j: nat, seat: Seat)
    requires j < |es|
  {
    !Tells(Seated(es[..j]), es[j], seat) && seat in Seated(es[..j + 1]).Values
  }

  lemma TakeValues(seats: Seats, ws: Ws, seat: Seat, x: Seat)
    requires OnePerSeat(seats)
    ensures x in Take(seats, ws, seat).Values <==> x == seat || (x in seats.Values && !(ws in seats && seats[ws] == x))
    ensures OnePerSeat(Take(seats, ws, seat))
  {
    var after := Take(seats, ws, seat);
    assert after[ws] == seat && seat in after.Values;
    if w :| w in seats && seats[w] == x && w != ws && x != seat { assert after[w] == x && x in after.Values; }
  }

  lemma QuitValues(seats: Seats, ws: Ws, x: Seat)
    requires OnePerSeat(seats)
    ensures x in Quit(seats, ws).Values <==> x in seats.Values && !(ws in seats && seats[ws] == x)
    ensures OnePerSeat(Quit(seats, ws))
  {
    var after := Quit(seats, ws);
    if w :| w in seats && seats[w] == x && w != ws { assert after[w] == x && x in after.Values; }
  }

  /** There is an entry in the book for exactly the seats of the plan. */
  lemma {:induction false} BookSeats(es: seq<Event>, seat: Seat)
    ensures seat in BookOf(es) <==> seat in Seated(es).Values
    ensures OnePerSeat(Seated(es))
  {
    if es != [] {
      var rest, e := es[..|es| - 1], es[|es| - 1];
      BookSeats(rest, seat);
      hide OnePerSeat, Take, Quit, Told, Joined;
      match e {
        case Received(ws, JoinMsg(room, name, team, on), now) => TakeValues(Seated(rest), ws, Seat(room, name), seat);
        case Closed(ws) => QuitValues(Seated(rest), ws, seat);
        case _ =>
      }
    }
  }

  /** Where a player is, or was last seen. */
  datatype Spot = Spot(position: Option<Stamped>, camera: Option<Stamped>, lastSeen: Option<Stamped>)

  function SpotOf(entry: Entry): Spot { Spot(entry.position, entry.camera, entry.lastSeen) }

  /** What a report at `now` says of it. */
  function Said(report: CoordsReport, now: int): Spot
    requires !report.Malformed?
  {
    match report
    case Live(x, y, camera) =>
      var theirs := if camera.Some? then Some(Stamped(camera.value.0, camera.value.1, now)) else None;
      Spot(Some(Stamped(x, y, now)), theirs, None)
    case Lost(None) => Spot(None, None, None)
    case Lost(Some(seen)) => Spot(None, None, Some(Stamped(seen.x, seen.y, now - AgeUpTo20s(seen.agoMs))))
  }

  function AgeUpTo20s(agoMs: int): int { if agoMs < 0 then 0 else if agoMs > 20_000 then 20_000 else agoMs }

  lemma ToldIsSaid(entry: Entry, report: CoordsReport, now: int)
    requires !report.Malformed?
    ensures SpotOf(Told(entry, report, now)) == Said(report, now)
  {
  }

  lemma QuietStep(seats: Seats, book: Book, e: Event, seat: Seat)
    requires OnePerSeat(seats) && seat in book && seat in BookStep(seats, book, e) && !Tells(seats, e, seat)
    ensures SpotOf(BookStep(seats, book, e)[seat]) == SpotOf(book[seat])
  {
  }

  /** The latest report under a seat that has been held since stands, through any
    * takeovers, at its own place and time. */
  lemma {:induction false} LatestReportStands(es: seq<Event>, i: nat, seat: Seat)
    requires i < |es| && Tells(Seated(es[..i]), es[i], seat) && QuietSince(es, i, seat)
    ensures seat in BookOf(es) && SpotOf(BookOf(es)[seat]) == Said(es[i].msg.report, es[i].now)
  {
    var n := |es| - 1;
    var rest, e := es[..n], es[n];
    BookSeats(rest, seat);
    BookSeats(es, seat);
    hide Said, SpotOf, Told, Tells;
    if i == n {
      SaidStep(Seated(rest), BookOf(rest), e, seat);
    } else {
      forall j: nat | i < j < n ensures QuietAt(rest, j, seat) {
        assert QuietAt(es, j, seat) && rest[..j] == es[..j] && rest[..j + 1] == es[..j + 1];
      }
      assert rest[..i] == es[..i] && rest[i] == es[i];
      LatestReportStands(rest, i, seat);
      assert QuietAt(es, n, seat) && es[..n + 1] == es;
      QuietStep(Seated(rest), BookOf(rest), e, seat);
    }
  }

  lemma SaidStep(seats: Seats, book: Book, e: Event, seat: Seat)
    requires Tells(seats, e, seat) && seat in book
    ensures seat in BookStep(seats, book, e) && SpotOf(BookStep(seats, book, e)[seat]) == Said(e.msg.report, e.now)
  {
    ToldIsSaid(book[seat], e.msg.report, e.now);
  }
}
