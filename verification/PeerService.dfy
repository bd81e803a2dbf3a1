/** The audio service's peer maps as it keeps them (src/services/audio.ts): each
  * method is one synchronous stretch of its async methods, updating the maps and
  * the connection objects in place. Every method is proved to take one step of
  * PeerClaims, so a service that has been through any history of events is where
  * the theorems about runs say. */
module PeerService {
  import opened Options
  import opened PeerClaims
  import PeerRuns

  class PeerConnection {
    const id: ConnId
    const name: string
    var closed: bool
    var received: seq<Signal>

    constructor (id: ConnId, name: string)
      ensures this.id == id && this.name == name && !closed && received == []
    {
      this.id, this.name, closed, received := id, name, false, [];
    }

    function Value(): Conn
      reads this
    {
      Conn(name, closed, received)
    }
  }

  class AudioService {
    var peers: map<string, PeerConnection>
    var peerCreations: map<string, ClaimId>
    var peerClaimIds: map<string, ClaimId>
    var pendingSignals: map<string, seq<Signal>>
    var nextClaimId: ClaimId
    var disposed: bool

    // What the runtime keeps of the async calls under way: the connections they
    // hold, the creations awaiting the factory, what the others came to, and the
    // callers.
    var conns: map<ConnId, PeerConnection>
    var suspended: map<ClaimId, string>
    var settled: map<ClaimId, Settled>
    var calls: map<CallId, Call>

    /** Which connection each name has, and what has become of every connection. */
    ghost var PeerIds: map<string, ConnId>
    ghost var ConnStates: map<ConnId, Conn>
    ghost var Repr: set<PeerConnection>
    /** The events so far. */
    ghost var History: seq<Event>

    ghost function State(): Audio
      reads this
    {
      Audio(PeerIds, peerCreations, peerClaimIds, pendingSignals, nextClaimId, disposed, ConnStates, suspended,
          settled, calls)
    }

    ghost predicate ConnTied(c: ConnId)
      reads `conns, `ConnStates, `Repr, Repr
    {
      c in conns && c in ConnStates && conns[c] in Repr && conns[c].id == c && conns[c].Value() == ConnStates[c]
    }

    ghost predicate PeerTied(n: string)
      reads `peers, `PeerIds, `conns
    {
      n in peers && n in PeerIds && PeerIds[n] in conns && peers[n] == conns[PeerIds[n]]
    }

    ghost predicate Tied()
      reads `peers, `PeerIds, `conns, `ConnStates, `Repr, Repr
    {
      && conns.Keys == ConnStates.Keys && peers.Keys == PeerIds.Keys
      && (forall c {:trigger ConnTied(c)} | c in conns :: ConnTied(c))
      && (forall n {:trigger PeerTied(n)} | n in peers :: PeerTied(n))
    }

    /** The service is where its history leads. */
    ghost predicate Valid()
      reads this, Repr
    {
      Tied() && State() == PeerRuns.After(History)
    }

    constructor ()
      ensures Valid() && History == [] && Repr == {}
    {
      peers, peerCreations, peerClaimIds, pendingSignals := map[], map[], map[], map[];
      nextClaimId, disposed := 1, false;
      conns, suspended, settled, calls := map[], map[], map[], map[];
      PeerIds, ConnStates, Repr, History := map[], map[], {}, [];
    }

    // ---------- ensurePeer ----------

    method EnsurePeer(call: CallId, name: string, purpose: Purpose)
      requires Tied() && peerCreations == peerClaimIds
      modifies `calls, `nextClaimId, `peerClaimIds, `peerCreations, `suspended
      ensures State() == PeerClaims.EnsurePeer(old(State()), call, name, purpose)
    {
      if name in peers {
        assert PeerTied(name) && ConnTied(PeerIds[name]);
        calls := calls[call := Call(name, purpose, Existing(peers[name].id), false, Waiting)];
      } else if name in peerCreations {
        calls := calls[call := Call(name, purpose, Awaiting(peerCreations[name]), false, Waiting)];
      } else {
        var claimId := nextClaimId;
        nextClaimId := nextClaimId + 1;
        peerClaimIds := peerClaimIds[name := claimId];
        suspended := suspended[claimId := name];
        peerCreations := peerCreations[name := claimId];
        calls := calls[call := Call(name, purpose, Awaiting(claimId), true, Waiting)];
      }
    }

    // ---------- Signals ----------

    method BufferSignal(name: string, signal: Signal)
      modifies `pendingSignals
      ensures pendingSignals == Buffered(old(pendingSignals), name, signal)
    {
      var pending := if name in pendingSignals then pendingSignals[name] else [];
      if |pending| < MAX_PENDING_SIGNALS { pending := pending + [signal]; }
      pendingSignals := pendingSignals[name := pending];
    }

    method HandleSignal(name: string, signal: Signal)
      requires Tied()
      modifies `pendingSignals, `ConnStates, Repr
      ensures Tied() && State() == OnSignal(old(State()), name, signal)
    {
      if name !in peers {
        BufferSignal(name, signal);
        return;
      }
      assert PeerTied(name) && ConnTied(PeerIds[name]);
      var peer := peers[name];
      peer.received := peer.received + [signal];
      ConnStates := Handed(ConnStates, peer.id, signal);
      forall c | c in conns ensures ConnTied(c) { assert old(ConnTied(c)); }
      forall n | n in peers ensures PeerTied(n) { assert old(PeerTied(n)); }
    }

    // ---------- Closing ----------

    method ClosePeer(peer: PeerConnection)
      requires Tied() && peer.id in conns && conns[peer.id] == peer
      modifies `ConnStates, Repr
      ensures Tied() && ConnStates == Closed(old(ConnStates), peer.id)
    {
      assert ConnTied(peer.id);
      peer.closed := true;
      ConnStates := Closed(ConnStates, peer.id);
      forall c | c in conns ensures ConnTied(c) { assert old(ConnTied(c)); }
      forall n | n in peers ensures PeerTied(n) { assert old(PeerTied(n)); }
    }

    /** Close the connection of a name, if it has one, and take it out of the map. */
    method CloseRegistered(name: string)
      requires Tied()
      modifies `peers, `PeerIds, `ConnStates, Repr
      ensures Tied() && PeerIds == old(PeerIds) - {name}
      ensures ConnStates == if name in old(PeerIds) then Closed(old(ConnStates), old(PeerIds)[name])
              else old(ConnStates)
    {
      if name !in peers {
        assert PeerIds - {name} == PeerIds;
        return;
      }
      assert PeerTied(name) && ConnTied(PeerIds[name]);
      ClosePeer(peers[name]);
      label closed:
      peers, PeerIds := peers - {name}, PeerIds - {name};
      forall n | n in peers ensures PeerTied(n) { assert old@closed(PeerTied(n)); }
      forall c | c in conns ensures ConnTied(c) { assert old@closed(ConnTied(c)); }
    }

    method DropPeer(name: string)
      requires Tied()
      modifies `peers, `peerCreations, `peerClaimIds, `pendingSignals, `PeerIds, `ConnStates, Repr
      ensures Tied() && State() == PeerClaims.DropPeer(old(State()), name)
    {
      hide Closed, Tied;
      CloseRegistered(name);
      peerCreations := peerCreations - {name};
      peerClaimIds := peerClaimIds - {name};
      pendingSignals := pendingSignals - {name};
    }

    // ---------- createPeer, after the factory ----------

    /** Replay what was held for a name to the connection it now has. */
    method FlushPendingSignals(name: string)
      requires Tied() && name in peers
      modifies `pendingSignals, `ConnStates, Repr
      ensures Tied() && pendingSignals == old(pendingSignals) - {name}
      ensures ConnStates == HandedAll(old(ConnStates), PeerIds[name], HeldFor(old(pendingSignals), name))
    {
      assert PeerTied(name) && ConnTied(PeerIds[name]);
      if name !in pendingSignals {
        assert pendingSignals - {name} == pendingSignals;
        HandedNone(ConnStates, PeerIds[name]);
        return;
      }
      var pending := pendingSignals[name];
      pendingSignals := pendingSignals - {name};
      HandedNone(ConnStates, PeerIds[name]);
      assert pending[..0] == [];
      for i := 0 to |pending|
        invariant Tied() && pendingSignals == old(pendingSignals) - {name}
        invariant PeerIds[name] in ConnStates
        invariant ConnStates == HandedAll(old(ConnStates), PeerIds[name], pending[..i])
      {
        HandedMore(old(ConnStates), PeerIds[name], pending[..i], pending[i]);
        HandleSignal(name, pending[i]);
        assert pending[..i + 1] == pending[..i] + [pending[i]];
      }
      assert pending[..|pending|] == pending;
    }

    /** A wanted connection is registered. */
    method RegisterPeer(name: string, peer: PeerConnection)
      requires Tied() && peer.id !in conns && peer !in Repr && peer.name == name && !peer.closed && peer.received == []
      modifies `peers, `conns, `PeerIds, `ConnStates, `Repr
      ensures Tied() && Repr == old(Repr) + {peer} && PeerIds == old(PeerIds)[name := peer.id]
      ensures ConnStates == old(ConnStates)[peer.id := Conn(name, false, [])] && peers == old(peers)[name := peer]
    {
      conns, ConnStates := conns[peer.id := peer], ConnStates[peer.id := peer.Value()];
      peers, PeerIds := peers[name := peer], PeerIds[name := peer.id];
      Repr := Repr + {peer};
      forall c | c in conns ensures ConnTied(c) { if c != peer.id { assert old(ConnTied(c)); } }
      forall n | n in peers ensures PeerTied(n) { if n != name { assert old(PeerTied(n)); } }
    }

    /** One that is not is closed, and kept in no map. */
    method RefusePeer(name: string, peer: PeerConnection)
      requires Tied() && peer.id !in conns && peer !in Repr && peer.name == name && !peer.closed && peer.received == []
      modifies `conns, `ConnStates, `Repr, peer
      ensures Tied() && Repr == old(Repr) + {peer}
      ensures State() == Arrive(old(State()), name, peer.id, false)
    {
      peer.closed := true;
      conns, ConnStates := conns[peer.id := peer], ConnStates[peer.id := peer.Value()];
      Repr := Repr + {peer};
      forall c | c in conns ensures ConnTied(c) { if c != peer.id { assert old(ConnTied(c)); } }
      forall n | n in peers ensures PeerTied(n) { assert old(PeerTied(n)); }
    }

    /** A wanted connection is registered and handed what was held for it. */
    method TakePeer(name: string, peer: PeerConnection)
      requires Tied() && peer.id !in conns && peer !in Repr && peer.name == name && !peer.closed && peer.received == []
      modifies `peers, `conns, `pendingSignals, `PeerIds, `ConnStates, `Repr, Repr, peer
      ensures Tied() && Repr == old(Repr) + {peer} && PeerIds == old(PeerIds)[name := peer.id]
      ensures pendingSignals == old(pendingSignals) - {name}
      ensures ConnStates == old(ConnStates)[peer.id := Conn(name, false, HeldFor(old(pendingSignals), name))]
    {
      HandedFresh(ConnStates, peer.id, name, HeldFor(pendingSignals, name));
      hide Tied, HandedAll, HeldFor;
      RegisterPeer(name, peer);
      FlushPendingSignals(name);
    }

    /** A creation ends and, if its claim is still its own, releases it. */
    method FinishCreation(claimId: ClaimId, how: Settled)
      requires claimId in suspended
      modifies `peerCreations, `peerClaimIds, `suspended, `settled
      ensures State() == Settle(old(State()), claimId, how)
    {
      var name := suspended[claimId];
      if name in peerClaimIds && peerClaimIds[name] == claimId {
        peerCreations := peerCreations - {name};
        peerClaimIds := peerClaimIds - {name};
      } else {
        assert peerCreations - {} == peerCreations && peerClaimIds - {} == peerClaimIds;
      }
      suspended := suspended - {claimId};
      settled := settled[claimId := how];
    }

    method PeerArrives(claimId: ClaimId, peer: PeerConnection)
      requires Tied() && claimId in suspended && peer.name == suspended[claimId]
      requires peer.id !in conns && peer !in Repr && !peer.closed && peer.received == []
      modifies `peers, `conns, `peerCreations, `peerClaimIds, `pendingSignals, `suspended, `settled, `PeerIds,
               `ConnStates, `Repr, Repr, peer
      ensures Tied() && Repr == old(Repr) + {peer}
      ensures State() == OnDelivered(old(State()), claimId, peer.id)
    {
      hide Settle, Tied;
      var name := suspended[claimId];
      if disposed || !(name in peerClaimIds && peerClaimIds[name] == claimId) {
        RefusePeer(name, peer);
        FinishCreation(claimId, Abandoned);
      } else {
        TakePeer(name, peer);
        FinishCreation(claimId, Ready(peer.id));
      }
    }

    // ---------- connectToPeer and handleSignal, after ensurePeer ----------

    method SetPhase(call: CallId, phase: Phase)
      requires call in calls
      modifies `calls
      ensures State() == PeerClaims.SetPhase(old(State()), call, phase)
    {
      calls := calls[call := calls[call].(phase := phase)];
    }

    method AfterEnsure(call: CallId)
      requires Tied() && call in calls
      requires ResultOf(State(), calls[call]).Some? ==> ResultOf(State(), calls[call]).value in conns
      modifies `calls
      ensures State() == OnResume(old(State()), call)
    {
      var me := calls[call];
      if me.source.Awaiting? && !(me.source.claim in settled && settled[me.source.claim].Ready?) {
        SetPhase(call, Done);
        return;
      }
      var peer := conns[if me.source.Existing? then me.source.conn else settled[me.source.claim].conn];
      assert ConnTied(ResultOf(State(), me).value);
      var offer := false;
      if me.purpose.Connecting? && me.created && me.name in peers {
        assert PeerTied(me.name) && ConnTied(PeerIds[me.name]);
        offer := peers[me.name] == peer && me.purpose.initiate;
      }
      if offer {
        SetPhase(call, Offering(peer.id));
      } else {
        SetPhase(call, Done);
      }
    }

    method OfferFails(call: CallId)
      requires Tied() && call in calls && calls[call].phase.Offering? && calls[call].phase.conn in conns
      modifies `calls, `peers, `peerCreations, `peerClaimIds, `pendingSignals, `PeerIds, `ConnStates, Repr
      ensures Tied()
      ensures State() == OnOfferFailed(old(State()), call)
    {
      hide Closed;
      OfferFailedIs(State(), call);
      var name, peer := calls[call].name, conns[calls[call].phase.conn];
      assert ConnTied(calls[call].phase.conn);
      SetPhase(call, Done);
      if name in peers {
        assert PeerTied(name) && ConnTied(PeerIds[name]);
        if peers[name] == peer {
          DropPeer(name);
          return;
        }
      }
      ClosePeer(peer);
    }

    // ---------- The end of the session ----------

    method CloseAll()
      requires Tied()
      modifies `ConnStates, Repr
      ensures Tied() && ConnStates == ClosedAll(old(ConnStates), PeerIds.Values)
    {
      ghost var before, done := ConnStates, {};
      var todo := peers.Keys;
      ClosedNone(before);
      while todo != {}
        invariant Tied() && todo <= peers.Keys
        invariant done == (set n | n in PeerIds && n !in todo :: PeerIds[n])
        invariant ConnStates == ClosedAll(before, done)
        decreases |todo|
      {
        var n :| n in todo;
        assert PeerTied(n) && ConnTied(PeerIds[n]);
        ClosedMore(before, done, PeerIds[n]);
        ClosePeer(peers[n]);
        todo, done := todo - {n}, done + {PeerIds[n]};
      }
      assert done == PeerIds.Values;
    }

    method Cleanup()
      requires Tied()
      modifies `disposed, `peerCreations, `peerClaimIds, `pendingSignals, `peers, `PeerIds, `ConnStates, Repr
      ensures Tied() && State() == OnCleanup(old(State()))
    {
      hide ClosedPeers, Tied;
      EndSession();
      ReleasePeers();
    }

    method EndSession()
      modifies `disposed, `peerCreations, `peerClaimIds, `pendingSignals
      ensures disposed && peerCreations == map[] && peerClaimIds == map[] && pendingSignals == map[]
    {
      disposed := true;
      peerCreations, peerClaimIds, pendingSignals := map[], map[], map[];
    }

    method ReleasePeers()
      requires Tied()
      modifies `peers, `PeerIds, `ConnStates, Repr
      ensures Tied() && PeerIds == map[] && ConnStates == ClosedPeers(old(ConnStates), old(PeerIds))
    {
      CloseAll();
      ForgetPeers();
    }

    method ForgetPeers()
      requires Tied()
      modifies `peers, `PeerIds
      ensures Tied() && PeerIds == map[]
    {
      peers, PeerIds := map[], map[];
      forall c | c in conns ensures ConnTied(c) { assert old(ConnTied(c)); }
    }

    // ---------- Any event ----------

    /** The stretch of code each event runs. */
    method Dispatch(e: Event, made: PeerConnection)
      requires Tied() && peerCreations == peerClaimIds && Legal(State(), e)
      requires forall id | id in calls ::
                 && (ResultOf(State(), calls[id]).Some? ==> ResultOf(State(), calls[id]).value in conns)
                 && (calls[id].phase.Offering? ==> calls[id].phase.conn in conns)
      requires e.Delivered? ==>
                 && e.conn == made.id && e.conn !in conns && made.name == suspended[e.claim]
                 && made !in Repr && !made.closed && made.received == []
      modifies this, Repr, made
      ensures Tied() && State() == Step(old(State()), e) && History == old(History) && Repr <= old(Repr) + {made}
    {
      hide PeerClaims.EnsurePeer, OnSignal, OnDelivered, Settle, OnResume, OnOfferFailed, PeerClaims.DropPeer,
           OnCleanup, PeerClaims.SetPhase, Tied, ResultOf, Arrive, StillWanted;
      match e {
        case Connect(call, name, initiate) => EnsurePeer(call, name, Connecting(initiate));
        case Offer(call, name) => EnsurePeer(call, name, Answering);
        case Signalled(name, signal) => HandleSignal(name, signal);
        case Delivered(k, c) => PeerArrives(k, made);
        case FactoryFailed(k) => FinishCreation(k, Failed);
        case Resume(call) => AfterEnsure(call);
        case OfferMade(call) => SetPhase(call, Done);
        case OfferFailed(call) => OfferFails(call);
        case Disconnect(name) => DropPeer(name);
        case Cleanup => Cleanup();
      }
    }

    /** One event, taking the service from one point of a run to the next; a
      * delivery brings the connection object the factory made. */
    method Handle(e: Event, made: PeerConnection)
      requires Valid() && Legal(State(), e)
      requires e.Delivered? ==>
                 e.conn == made.id && made.name == suspended[e.claim] && made !in Repr && !made.closed &&
                     made.received == []
      modifies this, Repr, made
      ensures Valid() && History == old(History) + [e] && Repr <= old(Repr) + {made}
    {
      hide PeerClaims.Inv, Step;
      PeerRuns.RunKeeps(History);
      CallsHaveConns(State());
      Dispatch(e, made);
      History := History + [e];
      assert History[..|History| - 1] == old(History);
    }
  }

  lemma ClosedNone(conns: map<ConnId, Conn>)
    ensures ClosedAll(conns, {}) == conns
  {
  }

  lemma ClosedMore(conns: map<ConnId, Conn>, cs: set<ConnId>, c: ConnId)
    ensures ClosedAll(conns, cs + {c}) == Closed(ClosedAll(conns, cs), c)
  {
  }

  /** Callers hold only connections that were delivered. */
  lemma CallsHaveConns(s: Audio)
    requires PeerClaims.Inv(s)
    ensures s.claims == s.creations
    ensures forall id | id in s.calls ::
              && (ResultOf(s, s.calls[id]).Some? ==> ResultOf(s, s.calls[id]).value in s.conns)
              && (s.calls[id].phase.Offering? ==> s.calls[id].phase.conn in s.conns)
  {
    forall id | id in s.calls ensures ResultOf(s, s.calls[id]).Some? ==> ResultOf(s, s.calls[id]).value in s.conns {
      assert CallOk(s, id);
    }
    forall id | id in s.calls && s.calls[id].phase.Offering? ensures s.calls[id].phase.conn in s.conns {
      assert CallOk(s, id);
    }
  }

  lemma HandedNone(conns: map<ConnId, Conn>, c: ConnId)
    ensures HandedAll(conns, c, []) == conns
  {
    if c in conns { assert conns[c].received + [] == conns[c].received; }
  }

  lemma HandedFresh(conns: map<ConnId, Conn>, c: ConnId, name: string, signals: seq<Signal>)
    ensures HandedAll(conns[c := Conn(name, false, [])], c, signals) == conns[c := Conn(name, false, signals)]
  {
    assert [] + signals == signals;
  }

  lemma HandedMore(conns: map<ConnId, Conn>, c: ConnId, signals: seq<Signal>, signal: Signal)
    requires c in conns
    ensures HandedAll(conns, c, signals + [signal]) == Handed(HandedAll(conns, c, signals), c, signal)
  {
    assert conns[c].received + (signals + [signal]) == conns[c].received + signals + [signal];
  }

  /** Signals handed to a connection one after another. */
  ghost function HandedAll(conns: map<ConnId, Conn>, c: ConnId, signals: seq<Signal>): map<ConnId, Conn> {
    if c in conns then conns[c := conns[c].(received := conns[c].received + signals)] else conns
  }
}
