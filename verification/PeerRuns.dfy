/** The claim protocol over whole runs: where every connection and every early
  * signal ends up, whatever the interleaving. */
module PeerRuns {
  import opened Options
  import opened PeerClaims

  /** The service after a run; an event that cannot happen there is not one. */
  function After(es: seq<Event>): Audio {
    if es == [] then FRESH
    else
      var s, e := After(es[..|es| - 1]), es[|es| - 1];
      if Legal(s, e) then Step(s, e) else s
  }

  lemma {:induction false} RunKeeps(es: seq<Event>)
    ensures Inv(After(es))
  {
    if es == [] {
      FreshInv();
    } else {
      var rest, e := es[..|es| - 1], es[|es| - 1];
      RunKeeps(rest);
      if Legal(After(rest), e) { StepKeeps(After(rest), e); }
    }
  }

  // ---------- Connections ----------

  /** A name is never both claimed and connected, and the two maps of claims list
    * the same names; every connection the factory ever delivered is registered
    * under its own name or closed, and none that is registered is closed. So no
    * connection is ever overwritten while it lives. */
  lemma RegisteredOrClosed(es: seq<Event>, n: string, c: ConnId)
    ensures var s := After(es);
            && s.claims.Keys == s.creations.Keys && !(n in s.claims && n in s.peers)
            && (c in s.conns ==> (!s.conns[c].closed <==> s.conns[c].name in s.peers && s.peers[s.conns[c].name] == c))
            && (n in s.peers ==> s.peers[n] in s.conns && s.conns[s.peers[n]].name == n)
  {
    RunKeeps(es);
    var s := After(es);
    assert NameOk(s, n);
    if c in s.conns {
      assert ConnOk(s, c);
      assert NameOk(s, s.conns[c].name);
    }
  }

  /** Connections keep their names and stay closed once closed, callers keep what
    * they were told, and a session that ended stays ended. */
  ghost predicate Grows(s: Audio, t: Audio) {
    && (forall c | c in s.conns ::
          c in t.conns && t.conns[c].name == s.conns[c].name && (s.conns[c].closed ==> t.conns[c].closed))
    && (forall id | id in s.calls ::
          id in t.calls && t.calls[id].created == s.calls[id].created && t.calls[id].source == s.calls[id].source)
    && (s.disposed ==> t.disposed)
  }

  function Creations(s: Audio): set<ClaimId> { s.suspended.Keys + s.settled.Keys }

  lemma EnsureGrows(s: Audio, call: CallId, name: string, purpose: Purpose)
    requires call !in s.calls
    ensures Grows(s, EnsurePeer(s, call, name, purpose))
    ensures forall k | k in Creations(EnsurePeer(s, call, name, purpose)) && k !in Creations(s) ::
              Owned(EnsurePeer(s, call, name, purpose), k)
  {
    var t := EnsurePeer(s, call, name, purpose);
    forall k | k in Creations(t) && k !in Creations(s) ensures Owned(t, k) {
      assert call in t.calls && t.calls[call].created && t.calls[call].source == Awaiting(k);
    }
  }

  lemma SignalGrows(s: Audio, name: string, signal: Signal)
    ensures Grows(s, OnSignal(s, name, signal)) && Creations(OnSignal(s, name, signal)) == Creations(s)
  {
  }

  lemma DeliveredGrows(s: Audio, k: ClaimId, c: ConnId)
    requires k in s.suspended && c !in s.conns
    ensures Grows(s, OnDelivered(s, k, c)) && Creations(OnDelivered(s, k, c)) == Creations(s)
  {
  }

  lemma FailedGrows(s: Audio, k: ClaimId)
    requires k in s.suspended
    ensures Grows(s, Settle(s, k, Failed)) && Creations(Settle(s, k, Failed)) == Creations(s)
  {
  }

  lemma PhaseGrows(s: Audio, id: CallId, phase: Phase)
    requires id in s.calls
    ensures Grows(s, SetPhase(s, id, phase)) && Creations(SetPhase(s, id, phase)) == Creations(s)
  {
  }

  lemma ResumeGrows(s: Audio, id: CallId)
    requires id in s.calls
    ensures Grows(s, OnResume(s, id)) && Creations(OnResume(s, id)) == Creations(s)
  {
    PhaseGrows(s, id, NextPhase(s, s.calls[id]));
  }

  lemma DropGrows(s: Audio, name: string)
    ensures Grows(s, DropPeer(s, name)) && Creations(DropPeer(s, name)) == Creations(s)
  {
  }

  lemma OfferFailedGrows(s: Audio, id: CallId)
    requires id in s.calls && s.calls[id].phase.Offering?
    ensures Grows(s, OnOfferFailed(s, id)) && Creations(OnOfferFailed(s, id)) == Creations(s)
  {
  }

  lemma CleanupGrows(s: Audio)
    ensures Grows(s, OnCleanup(s)) && Creations(OnCleanup(s)) == Creations(s) && OnCleanup(s).disposed
  {
  }

  lemma StepGrows(s: Audio, e: Event)
    requires Legal(s, e)
    ensures Grows(s, Step(s, e)) && (e.Cleanup? ==> Step(s, e).disposed)
    ensures forall k | k in Creations(Step(s, e)) && k !in Creations(s) :: Owned(Step(s, e), k)
  {
    hide EnsurePeer, OnSignal, OnDelivered, Settle, SetPhase, OnResume, OnOfferFailed, DropPeer, OnCleanup;
    match e {
      case Connect(call, name, initiate) => EnsureGrows(s, call, name, Connecting(initiate));
      case Offer(call, name) => EnsureGrows(s, call, name, Answering);
      case Signalled(name, signal) => SignalGrows(s, name, signal);
      case Delivered(k, c) => DeliveredGrows(s, k, c);
      case FactoryFailed(k) => FailedGrows(s, k);
      case Resume(call) => ResumeGrows(s, call);
      case OfferMade(call) => PhaseGrows(s, call, Done);
      case OfferFailed(call) => OfferFailedGrows(s, call);
      case Disconnect(name) => DropGrows(s, name);
      case Cleanup => CleanupGrows(s);
    }
  }

  /** At most one caller per connection is told it created it, and only that one
    * may be making an offer on it. */
  lemma OneCreator(es: seq<Event>, a: CallId, b: CallId, c: ConnId)
    requires a in After(es).calls && b in After(es).calls
    requires var s := After(es); ResultOf(s, s.calls[a]) == Some(c) && ResultOf(s, s.calls[b]) == Some(c)
    requires var s := After(es); s.calls[a].created && (s.calls[b].created || s.calls[b].phase.Offering?)
    ensures a == b
  {
    RunKeeps(es);
    var s := After(es);
    assert CallOk(s, a) && CallOk(s, b) && ApartOwners(s, a, b);
    assert ApartClaims(s, s.calls[a].source.claim, s.calls[b].source.claim);
  }

  ghost predicate Owned(s: Audio, k: ClaimId) {
    exists id | id in s.calls :: s.calls[id].created && s.calls[id].source == Awaiting(k)
  }

  /** Every creation has a caller that was told it is its creator. */
  lemma {:induction false} SomeCreator(es: seq<Event>, k: ClaimId)
    requires k in Creations(After(es))
    ensures Owned(After(es), k)
  {
    if es != [] {
      var rest, e := es[..|es| - 1], es[|es| - 1];
      if k in Creations(After(rest)) { SomeCreator(rest, k); }
      if Legal(After(rest), e) {
        StepGrows(After(rest), e);
        if k in Creations(After(rest)) { OwnedLasts(After(rest), After(es), k); }
      }
    }
  }

  lemma OwnedLasts(s: Audio, t: Audio, k: ClaimId)
    requires Grows(s, t) && Owned(s, k)
    ensures Owned(t, k)
  {
    var id :| id in s.calls && s.calls[id].created && s.calls[id].source == Awaiting(k);
    assert id in t.calls;
  }

  /** Once the session has ended nothing is registered and every connection, even
    * one the factory delivers later, is closed. */
  lemma {:induction false} EndedIsClosed(es: seq<Event>)
    requires Cleanup in es
    ensures After(es).disposed && After(es).peers == map[]
    ensures forall c | c in After(es).conns :: After(es).conns[c].closed
  {
    var rest, e := es[..|es| - 1], es[|es| - 1];
    assert es == rest + [e];
    if e != Cleanup { EndedIsClosed(rest); }
    if Legal(After(rest), e) { StepGrows(After(rest), e); }
    RunKeeps(es);
    forall c | c in After(es).conns ensures After(es).conns[c].closed { assert ConnOk(After(es), c); }
  }

  // ---------- Early signals ----------

  function First(idx: seq<nat>, n: nat): seq<nat> { if |idx| <= n then idx else idx[..n] }

  /** The step closes the connection of a name or ends its claim. */
  predicate Drops(s: Audio, e: Event, n: string) {
    Legal(s, e) &&
    match e
    case Disconnect(name) => name == n
    case Cleanup => true
    case OfferFailed(id) => s.calls[id].name == n && n in s.peers && s.peers[n] == s.calls[id].phase.conn
    case _ => false
  }

  /** The step gives a name its connection. */
  predicate Registers(s: Audio, e: Event, n: string) {
    Legal(s, e) && e.Delivered? && s.suspended[e.claim] == n && StillWanted(s, n, e.claim)
  }

  /** When, in the run, each signal arrived that still waits for the connection of
    * a name: with no connection there, and none given nor the name dropped since. */
  function HeldAt(es: seq<Event>, n: string): seq<nat> {
    if es == [] then []
    else
      var rest, e := es[..|es| - 1], es[|es| - 1];
      if Drops(After(rest), e, n) || Registers(After(rest), e, n) then []
      else if e.Signalled? && e.name == n && n !in After(rest).peers then HeldAt(rest, n) + [|rest|]
      else HeldAt(rest, n)
  }

  /** When each signal arrived that a connection was handed, in the order it was
    * handed them: the first 64 that waited for it, then those that arrived while
    * it was registered. */
  function HeardAt(es: seq<Event>, c: ConnId): seq<nat> {
    if es == [] then []
    else
      var rest, e := es[..|es| - 1], es[|es| - 1];
      var s := After(rest);
      if e.Delivered? && e.conn == c && Legal(s, e) && Registers(s, e, s.suspended[e.claim])
      then First(HeldAt(rest, s.suspended[e.claim]), 64)
      else if e.Signalled? && e.name in s.peers && s.peers[e.name] == c then HeardAt(rest, c) + [|rest|]
      else HeardAt(rest, c)
  }

  /** Arrivals of one name within a run, in order. */
  ghost predicate Arrivals(es: seq<Event>, idx: seq<nat>, n: string) {
    && (forall i | 0 <= i < |idx| :: idx[i] < |es| && es[idx[i]].Signalled? && es[idx[i]].name == n)
    && (forall i, j | 0 <= i < j < |idx| :: idx[i] < idx[j])
  }

  function SignalsAt(es: seq<Event>, idx: seq<nat>): seq<Signal>
    requires forall i | 0 <= i < |idx| :: idx[i] < |es| && es[idx[i]].Signalled?
  {
    seq(|idx|, i requires 0 <= i < |idx| => es[idx[i]].signal)
  }

  lemma ArrivalsLater(es: seq<Event>, e: Event, idx: seq<nat>, n: string)
    requires Arrivals(es, idx, n)
    ensures Arrivals(es + [e], idx, n) && SignalsAt(es + [e], idx) == SignalsAt(es, idx)
  {
  }

  lemma ArrivalsMore(es: seq<Event>, e: Event, idx: seq<nat>, n: string)
    requires Arrivals(es, idx, n) && e.Signalled? && e.name == n
    ensures Arrivals(es + [e], idx + [|es|], n) && SignalsAt(es + [e], idx + [|es|]) == SignalsAt(es, idx) + [e.signal]
  {
    ArrivalsLater(es, e, idx, n);
  }

  lemma ArrivalsFirst(es: seq<Event>, idx: seq<nat>, n: string, k: nat)
    requires Arrivals(es, idx, n)
    ensures Arrivals(es, First(idx, k), n)
    ensures SignalsAt(es, First(idx, k)) == if |idx| <= k then SignalsAt(es, idx) else SignalsAt(es, idx)[..k]
  {
  }

  ghost predicate HeldIsFirst(es: seq<Event>, n: string) {
    && Arrivals(es, HeldAt(es, n), n) && Arrivals(es, First(HeldAt(es, n), 64), n)
    && PendingOf(After(es), n) == SignalsAt(es, First(HeldAt(es, n), 64))
  }

  // What each step does to what is held for a name.

  lemma EnsurePending(s: Audio, call: CallId, name: string, purpose: Purpose)
    ensures EnsurePeer(s, call, name, purpose).pending == s.pending
  {
  }

  lemma SignalPending(s: Audio, name: string, signal: Signal, n: string)
    requires Inv(s)
    ensures PendingOf(OnSignal(s, name, signal), n) ==
              if name == n && n !in s.peers && |PendingOf(s, n)| < 64
              then PendingOf(s, n) + [signal] else PendingOf(s, n)
  {
    assert NameOk(s, n);
  }

  lemma DeliveredPending(s: Audio, k: ClaimId, c: ConnId, n: string)
    requires k in s.suspended
    ensures PendingOf(OnDelivered(s, k, c), n) ==
              if s.suspended[k] == n && StillWanted(s, n, k) then [] else PendingOf(s, n)
  {
  }

  lemma OfferFailedPending(s: Audio, id: CallId, n: string)
    requires id in s.calls && s.calls[id].phase.Offering?
    ensures PendingOf(OnOfferFailed(s, id), n) == if Drops(s, OfferFailed(id), n) then [] else PendingOf(s, n)
  {
  }

  lemma ResumePending(s: Audio, id: CallId)
    requires id in s.calls
    ensures OnResume(s, id).pending == s.pending
  {
  }

  lemma DropPending(s: Audio, name: string, n: string)
    ensures PendingOf(DropPeer(s, name), n) == if n == name then [] else PendingOf(s, n)
  {
  }

  /** The signal, if any, that a step adds to what is held for a name. */
  predicate Waits(s: Audio, e: Event, n: string) { e.Signalled? && e.name == n && n !in s.peers }

  ghost predicate PendingStepsTo(s: Audio, e: Event, n: string)
    requires Legal(s, e)
  {
    PendingOf(Step(s, e), n) ==
      if Drops(s, e, n) || Registers(s, e, n) then []
      else if Waits(s, e, n) && |PendingOf(s, n)| < 64 then PendingOf(s, n) + [e.signal]
      else PendingOf(s, n)
  }

  lemma PendingStep(s: Audio, e: Event, n: string)
    requires Inv(s) && Legal(s, e)
    ensures PendingStepsTo(s, e, n)
  {
    hide Inv, EnsurePeer, OnSignal, OnDelivered, OnResume, OnOfferFailed, DropPeer;
    match e {
      case Connect(call, name, initiate) => EnsurePending(s, call, name, Connecting(initiate));
      case Offer(call, name) => EnsurePending(s, call, name, Answering);
      case Signalled(name, signal) => SignalPending(s, name, signal, n);
      case Delivered(k, c) => DeliveredPending(s, k, c, n);
      case FactoryFailed(k) =>
      case Resume(call) => ResumePending(s, call);
      case OfferMade(call) =>
      case OfferFailed(call) => OfferFailedPending(s, call, n);
      case Disconnect(name) => DropPending(s, name, n);
      case Cleanup =>
    }
  }

  lemma PendingNext(rest: seq<Event>, e: Event, n: string)
    ensures Legal(After(rest), e) ==> PendingStepsTo(After(rest), e, n)
  {
    hide Step, Inv;
    RunKeeps(rest);
    if Legal(After(rest), e) { PendingStep(After(rest), e, n); }
  }

  /** What is held for a name is the first 64 of the signals that wait for it. */
  lemma {:induction false} HeldIsFirst64(es: seq<Event>, n: string)
    ensures HeldIsFirst(es, n)
  {
    if es != [] {
      var rest, e := es[..|es| - 1], es[|es| - 1];
      var s := After(rest);
      HeldIsFirst64(rest, n);
      PendingNext(rest, e, n);
      HeldStep(rest, e, n);
      assert es == rest + [e];
    }
  }

  lemma HeldStep(rest: seq<Event>, e: Event, n: string)
    requires HeldIsFirst(rest, n)
    requires Legal(After(rest), e) ==> PendingStepsTo(After(rest), e, n)
    ensures HeldIsFirst(rest + [e], n)
  {
    hide Step;
    var es, idx := rest + [e], HeldAt(rest, n);
    assert es[..|es| - 1] == rest;
    ArrivalsFirst(rest, idx, n, 64);
    if Waits(After(rest), e, n) {
      ArrivalsMore(rest, e, idx, n);
      ArrivalsFirst(es, idx + [|rest|], n, 64);
    } else {
      ArrivalsLater(rest, e, idx, n);
      ArrivalsLater(rest, e, First(idx, 64), n);
    }
  }

  // What each step does to what a connection has been handed.

  function ReceivedOf(s: Audio, c: ConnId): seq<Signal> { if c in s.conns then s.conns[c].received else [] }

  /** The step makes and registers this connection. */
  predicate Makes(s: Audio, e: Event, c: ConnId) {
    Legal(s, e) && e.Delivered? && e.conn == c && Registers(s, e, s.suspended[e.claim])
  }

  /** The step hands its signal to this connection. */
  predicate Hands(s: Audio, e: Event, c: ConnId) { e.Signalled? && e.name in s.peers && s.peers[e.name] == c }

  lemma SignalReceived(s: Audio, name: string, signal: Signal, c: ConnId)
    requires Inv(s)
    ensures ReceivedOf(OnSignal(s, name, signal), c) ==
              if name in s.peers && s.peers[name] == c then ReceivedOf(s, c) + [signal] else ReceivedOf(s, c)
  {
    assert NameOk(s, name);
  }

  lemma DeliveredReceived(s: Audio, k: ClaimId, d: ConnId, c: ConnId)
    requires k in s.suspended && d !in s.conns
    ensures ReceivedOf(OnDelivered(s, k, d), c) ==
              if c == d && StillWanted(s, s.suspended[k], k) then PendingOf(s, s.suspended[k]) else ReceivedOf(s, c)
  {
  }

  lemma EnsureReceived(s: Audio, call: CallId, name: string, purpose: Purpose)
    ensures EnsurePeer(s, call, name, purpose).conns == s.conns
  {
  }

  lemma CleanupReceived(s: Audio, c: ConnId)
    ensures ReceivedOf(OnCleanup(s), c) == ReceivedOf(s, c)
  {
  }

  lemma DropReceived(s: Audio, name: string, c: ConnId)
    ensures ReceivedOf(DropPeer(s, name), c) == ReceivedOf(s, c)
  {
  }

  lemma OfferFailedReceived(s: Audio, id: CallId, c: ConnId)
    requires id in s.calls && s.calls[id].phase.Offering?
    ensures ReceivedOf(OnOfferFailed(s, id), c) == ReceivedOf(s, c)
  {
  }

  lemma ReceivedStep(s: Audio, e: Event, c: ConnId)
    requires Inv(s) && Legal(s, e)
    ensures ReceivedOf(Step(s, e), c) ==
              if Makes(s, e, c) then PendingOf(s, s.suspended[e.claim])
              else if Hands(s, e, c) then ReceivedOf(s, c) + [e.signal]
              else ReceivedOf(s, c)
  {
    hide Inv, EnsurePeer, OnSignal, OnDelivered, OnOfferFailed, DropPeer, OnCleanup;
    match e {
      case Connect(call, name, initiate) => EnsureReceived(s, call, name, Connecting(initiate));
      case Offer(call, name) => EnsureReceived(s, call, name, Answering);
      case Signalled(name, signal) => SignalReceived(s, name, signal, c);
      case Delivered(k, d) => DeliveredReceived(s, k, d, c);
      case FactoryFailed(k) =>
      case Resume(call) =>
      case OfferMade(call) =>
      case OfferFailed(call) => OfferFailedReceived(s, call, c);
      case Disconnect(name) => DropReceived(s, name, c);
      case Cleanup => CleanupReceived(s, c);
    }
  }

  ghost predicate HeardIs(es: seq<Event>, c: ConnId) {
    && (c !in After(es).conns ==> HeardAt(es, c) == [])
    && (c in After(es).conns ==> Arrivals(es, HeardAt(es, c), After(es).conns[c].name) &&
                                 After(es).conns[c].received == SignalsAt(es, HeardAt(es, c)))
  }

  /** Every connection has been handed exactly the first 64 signals that waited
    * for it and then all that arrived while it was registered, each once and in
    * the order they arrived. */
  lemma {:induction false} HeardInOrder(es: seq<Event>, c: ConnId)
    ensures HeardIs(es, c)
  {
    if es != [] {
      var rest, e := es[..|es| - 1], es[|es| - 1];
      var s := After(rest);
      HeardInOrder(rest, c);
      RunKeeps(rest);
      assert es == rest + [e];
      if Makes(s, e, c) {
        HeldIsFirst64(rest, s.suspended[e.claim]);
        MakesHeard(rest, e, c);
      } else if Legal(s, e) {
        OtherHeard(rest, e, c);
      }
    }
  }

  lemma MakesHeard(rest: seq<Event>, e: Event, c: ConnId)
    requires Inv(After(rest)) && Makes(After(rest), e, c) && HeldIsFirst(rest, After(rest).suspended[e.claim])
    ensures HeardIs(rest + [e], c)
  {
    var es, s := rest + [e], After(rest);
    assert es[..|es| - 1] == rest;
    var name := s.suspended[e.claim];
    var idx := First(HeldAt(rest, name), 64);
    ArrivalsLater(rest, e, idx, name);
    ReceivedStep(s, e, c);
    assert c in Step(s, e).conns && Step(s, e).conns[c].name == name;
  }

  lemma OtherHeard(rest: seq<Event>, e: Event, c: ConnId)
    requires Inv(After(rest)) && Legal(After(rest), e) && !Makes(After(rest), e, c) && HeardIs(rest, c)
    ensures HeardIs(rest + [e], c)
  {
    hide Inv, Step;
    var es, s := rest + [e], After(rest);
    var t := Step(s, e);
    assert es[..|es| - 1] == rest && After(es) == t;
    StepGrows(s, e);
    ReceivedStep(s, e, c);
    if Hands(s, e, c) {
      InvNames(s, e.name);
      ArrivalsMore(rest, e, HeardAt(rest, c), e.name);
    } else if c in s.conns {
      ArrivalsLater(rest, e, HeardAt(rest, c), s.conns[c].name);
    } else if c in t.conns {
      OthersAppear(s, e, c);
    }
  }

  /** A connection appears only by being delivered. */
  lemma OthersAppear(s: Audio, e: Event, c: ConnId)
    requires Legal(s, e) && c !in s.conns && c in Step(s, e).conns
    ensures e.Delivered? && e.conn == c
  {
  }

  // ---------- Each signal once, and never past a drop ----------

  predicate WaitsAt(es: seq<Event>, i: nat, n: string)
    requires i < |es|
  {
    Waits(After(es[..i]), es[i], n)
  }

  predicate GoneAt(es: seq<Event>, j: nat, n: string)
    requires j < |es|
  {
    Drops(After(es[..j]), es[j], n) || Registers(After(es[..j]), es[j], n)
  }

  /** A signal is held exactly when it arrived with no connection there, and its
    * name has neither been given one nor been dropped since. */
  lemma {:induction false} HeldExactly(es: seq<Event>, n: string, i: nat)
    ensures i in HeldAt(es, n) <==> i < |es| && WaitsAt(es, i, n) && forall j | i < j < |es| :: !GoneAt(es, j, n)
  {
    if es != [] {
      var rest := es[..|es| - 1];
      HeldExactly(rest, n, i);
      HeldIsFirst64(rest, n);
      assert es == rest + [es[|rest|]] && es[..|rest|] == rest;
      forall j | 0 <= j < |rest| ensures es[..j] == rest[..j] && es[j] == rest[j] {}
      if i < |rest| {
        assert WaitsAt(es, i, n) == WaitsAt(rest, i, n);
        assert forall j | i < j < |rest| :: GoneAt(es, j, n) == GoneAt(rest, j, n);
        assert GoneAt(es, |rest|, n) == (Drops(After(rest), es[|rest|], n) || Registers(After(rest), es[|rest|], n));
        assert i in HeldAt(es, n) <==> i in HeldAt(rest, n) && !GoneAt(es, |rest|, n);
      }
    }
  }

  lemma AllBefore(es: seq<Event>, n: string, c: ConnId)
    ensures forall i | i in HeldAt(es, n) :: i < |es| && es[i].Signalled? && es[i].name == n
    ensures forall i | i in HeardAt(es, c) :: i < |es|
  {
    HeldIsFirst64(es, n);
    HeardInOrder(es, c);
  }

  /** What a connection has been handed, it had already, or was held for its name
    * when it was made, or arrives now. */
  lemma HeardStep(es: seq<Event>, c: ConnId, i: nat)
    requires es != [] && i in HeardAt(es, c)
    ensures var rest, e := es[..|es| - 1], es[|es| - 1];
            var s := After(rest);
            if Makes(s, e, c) then i in HeldAt(rest, s.suspended[e.claim])
            else i in HeardAt(rest, c) || (Hands(s, e, c) && i == |rest|)
  {
  }

  lemma HeldStepIn(es: seq<Event>, n: string, i: nat)
    requires es != [] && i in HeldAt(es, n)
    ensures var rest, e := es[..|es| - 1], es[|es| - 1];
            !Registers(After(rest), e, n) && (i in HeldAt(rest, n) || (Waits(After(rest), e, n) && i == |rest|))
  {
  }

  /** No signal is handed to two connections, or handed out and still held. */
  lemma {:induction false} HeardOnce(es: seq<Event>, i: nat, c: ConnId, d: ConnId, n: string)
    ensures i in HeardAt(es, c) && i in HeardAt(es, d) ==> c == d
    ensures i in HeardAt(es, c) ==> i !in HeldAt(es, n)
  {
    if es != [] {
      var rest, e := es[..|es| - 1], es[|es| - 1];
      var s := After(rest);
      AllBefore(rest, n, c);
      AllBefore(rest, n, d);
      if i in HeardAt(es, c) { HeardStep(es, c, i); }
      if i in HeardAt(es, d) { HeardStep(es, d, i); }
      if i in HeldAt(es, n) { HeldStepIn(es, n, i); }
      HeardOnce(rest, i, c, d, n);
      if Makes(s, e, c) {
        var name := s.suspended[e.claim];
        AllBefore(rest, name, c);
        HeardOnce(rest, i, d, d, name);
      } else if Makes(s, e, d) {
        HeardOnce(rest, i, c, c, s.suspended[e.claim]);
      }
    }
  }

  /** A signal that arrived before its name was dropped is never handed to a
    * connection made after the drop. */
  lemma {:induction false} NeverPastADrop(es: seq<Event>, c: ConnId, i: nat, j: nat)
    requires i in HeardAt(es, c) && i < j < |es|
    requires c in After(es).conns && Drops(After(es[..j]), es[j], After(es).conns[c].name)
    ensures c in After(es[..j]).conns
  {
    var rest, e := es[..|es| - 1], es[|es| - 1];
    var s := After(rest);
    assert es[..|rest|] == rest && es == rest + [e];
    HeardInOrder(rest, c);
    if Makes(s, e, c) {
      MadeUnder(s, e, c);
      assert j < |rest| && es[..j] == rest[..j];
      HeldExactly(rest, s.suspended[e.claim], i);
      assert GoneAt(rest, j, s.suspended[e.claim]);
    } else if j < |rest| {
      assert es[..j] == rest[..j] && rest[j] == es[j];
      assert i in HeardAt(rest, c);
      if Legal(s, e) { StepGrows(s, e); }
      NeverPastADrop(rest, c, i, j);
    }
  }

  lemma MadeUnder(s: Audio, e: Event, c: ConnId)
    requires Makes(s, e, c)
    ensures c in Step(s, e).conns && Step(s, e).conns[c].name == s.suspended[e.claim]
  {
  }
}
