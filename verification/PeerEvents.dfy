/** The claim protocol told by its events alone (src/services/audio.ts): which
  * deliveries are registered, how long, whose creation a caller is given, and which
  * callers go on to make an offer. */
module PeerEvents {
  import opened Options
  import opened PeerClaims
  import opened PeerRuns

  /** The i-th event is a caller's that starts creation k of a name's connection. */
  ghost predicate Starts(es: seq<Event>, i: nat, k: ClaimId, name: string) {
    && i < |es| && (es[i].Connect? || es[i].Offer?) && es[i].name == name
    && k !in After(es[..i]).suspended && k in After(es[..i + 1]).suspended
  }

  /** Nobody has left under the name, nor the session ended, between two events. */
  ghost predicate NotDropped(es: seq<Event>, i: nat, j: nat, name: string)
    requires j <= |es|
  {
    forall l | i < l < j :: es[l] != Disconnect(name) && es[l] != Cleanup
  }

  // ---------- One step ----------

  /** This claim on the name stands. */
  predicate Claims(s: Audio, k: ClaimId, name: string) { name in s.claims && s.claims[name] == k }

  lemma EnsureClaims(s: Audio, call: CallId, name: string, purpose: Purpose, k: ClaimId, n: string)
    requires Inv(s) && k in s.suspended
    ensures var t := EnsurePeer(s, call, name, purpose);
            && k in t.suspended && t.suspended[k] == s.suspended[k]
            && (Claims(t, k, n) <==> Claims(s, k, n)) && t.disposed == s.disposed
  {
    assert ClaimOk(s, k);
  }

  lemma SettleClaims(s: Audio, j: ClaimId, how: Settled, k: ClaimId, n: string)
    requires j in s.suspended && k in s.suspended && j != k
    ensures var t := Settle(s, j, how);
            && k in t.suspended && t.suspended[k] == s.suspended[k]
            && (Claims(t, k, n) <==> Claims(s, k, n)) && t.disposed == s.disposed
  {
  }

  lemma ArriveClaims(s: Audio, name: string, c: ConnId, wanted: bool, k: ClaimId, n: string)
    ensures var t := Arrive(s, name, c, wanted);
            t.suspended == s.suspended && (Claims(t, k, n) <==> Claims(s, k, n)) && t.disposed == s.disposed
  {
  }

  lemma OfferFailedClaims(s: Audio, id: CallId, k: ClaimId, n: string)
    requires Inv(s) && id in s.calls && s.calls[id].phase.Offering?
    ensures var t := OnOfferFailed(s, id);
            t.suspended == s.suspended && (Claims(t, k, n) <==> Claims(s, k, n)) && t.disposed == s.disposed
  {
    assert NameOk(s, n);
  }

  /** A claim whose creation is still under way stands until its name is dropped. */
  lemma ClaimStep(s: Audio, e: Event, k: ClaimId, n: string)
    requires Inv(s) && Legal(s, e) && k in s.suspended && k in Step(s, e).suspended
    ensures Step(s, e).suspended[k] == s.suspended[k]
    ensures Claims(Step(s, e), k, n) <==> Claims(s, k, n) && e != Disconnect(n) && e != Cleanup
  {
    hide Inv, EnsurePeer, OnSignal, Settle, Arrive, OnOfferFailed, StillWanted, Claims;
    match e {
      case Connect(call, name, initiate) => EnsureClaims(s, call, name, Connecting(initiate), k, n);
      case Offer(call, name) => EnsureClaims(s, call, name, Answering, k, n);
      case Signalled(name, signal) => SignalClaims(s, name, signal, k, n);
      case Delivered(j, c) =>
        var name, wanted := s.suspended[j], StillWanted(s, s.suspended[j], j);
        ArriveClaims(s, name, c, wanted, k, n);
        if j == k { SettledIsGone(Arrive(s, name, c, wanted), j, if wanted then Ready(c) else Abandoned); }
        SettleClaims(Arrive(s, name, c, wanted), j, if wanted then Ready(c) else Abandoned, k, n);
      case FactoryFailed(j) =>
        if j == k { SettledIsGone(s, j, Failed); }
        SettleClaims(s, j, Failed, k, n);
      case Resume(call) => PhaseClaims(s, call, NextPhase(s, s.calls[call]), k, n);
      case OfferMade(call) => PhaseClaims(s, call, Done, k, n);
      case OfferFailed(call) => OfferFailedClaims(s, call, k, n);
      case Disconnect(name) => DropClaims(s, name, k, n);
      case Cleanup => CleanupClaims(s, k, n);
    }
  }

  lemma SettledIsGone(s: Audio, k: ClaimId, how: Settled)
    requires k in s.suspended
    ensures k !in Settle(s, k, how).suspended
  {
  }

  lemma SignalClaims(s: Audio, name: string, signal: Signal, k: ClaimId, n: string)
    ensures var t := OnSignal(s, name, signal); t.suspended == s.suspended && (Claims(t, k, n) <==> Claims(s, k, n))
  {
  }

  lemma PhaseClaims(s: Audio, id: CallId, phase: Phase, k: ClaimId, n: string)
    requires id in s.calls
    ensures var t := SetPhase(s, id, phase); t.suspended == s.suspended && (Claims(t, k, n) <==> Claims(s, k, n))
  {
  }

  lemma DropClaims(s: Audio, name: string, k: ClaimId, n: string)
    ensures var t := DropPeer(s, name);
            t.suspended == s.suspended && (Claims(t, k, n) <==> Claims(s, k, n) && name != n)
  {
  }

  lemma CleanupClaims(s: Audio, k: ClaimId, n: string)
    ensures OnCleanup(s).suspended == s.suspended && !Claims(OnCleanup(s), k, n)
  {
  }

  /** Creations are numbered upwards, and none begins twice. */
  lemma NumbersStep(s: Audio, e: Event, k: ClaimId)
    requires Legal(s, e)
    ensures s.nextClaim <= Step(s, e).nextClaim
    ensures k < s.nextClaim && k in Step(s, e).suspended ==> k in s.suspended
    ensures Step(s, e).disposed <==> s.disposed || e == Cleanup
  {
  }

  // ---------- Over a run ----------

  lemma AfterAt(es: seq<Event>, m: nat)
    requires m < |es|
    ensures After(es[..m + 1]) ==
            if Legal(After(es[..m]), es[m]) then Step(After(es[..m]), es[m]) else After(es[..m])
  {
    assert es[..m + 1][..m] == es[..m] && es[..m + 1][m] == es[m];
  }

  lemma {:induction false} DisposedIff(es: seq<Event>, m: nat)
    requires m <= |es|
    ensures After(es[..m]).disposed <==> Cleanup in es[..m]
  {
    if m > 0 {
      DisposedIff(es, m - 1);
      AfterAt(es, m - 1);
      assert es[..m] == es[..m - 1] + [es[m - 1]];
      if Legal(After(es[..m - 1]), es[m - 1]) { NumbersStep(After(es[..m - 1]), es[m - 1], 0); }
    }
  }

  /** What a start does. */
  lemma StartClaims(es: seq<Event>, i: nat, k: ClaimId, name: string)
    requires Starts(es, i, k, name)
    ensures var s := After(es[..i + 1]);
            s.suspended[k] == name && Claims(s, k, name) && k < s.nextClaim
  {
    AfterAt(es, i);
    RunKeeps(es[..i]);
    RunKeeps(es[..i + 1]);
    assert ClaimOk(After(es[..i + 1]), k);
  }

  lemma StartsMore(es: seq<Event>, e: Event, i: nat, k: ClaimId, name: string)
    requires i < |es|
    ensures Starts(es + [e], i, k, name) <==> Starts(es, i, k, name)
  {
    assert (es + [e])[..i] == es[..i] && (es + [e])[..i + 1] == es[..i + 1];
  }

  lemma NotDroppedMore(es: seq<Event>, e: Event, i: nat, name: string)
    requires i < |es|
    ensures NotDropped(es + [e], i, |es| + 1, name) <==>
              NotDropped(es, i, |es|, name) && e != Disconnect(name) && e != Cleanup
  {
    var more := es + [e];
    assert more[|es|] == e;
    if NotDropped(more, i, |more|, name) {
      forall l | i < l < |es| ensures es[l] != Disconnect(name) && es[l] != Cleanup { assert more[l] == es[l]; }
    }
  }

  lemma {:induction false} StillNumbered(es: seq<Event>, i: nat, k: ClaimId, name: string)
    requires Starts(es, i, k, name)
    ensures k < After(es).nextClaim
  {
    var n := |es| - 1;
    var rest, e := es[..n], es[n];
    assert es == rest + [e] && es[..n + 1] == es;
    if i == n {
      StartClaims(es, i, k, name);
    } else {
      StartsMore(rest, e, i, k, name);
      StillNumbered(rest, i, k, name);
      if Legal(After(rest), e) { NumbersStep(After(rest), e, k); }
    }
  }

  /** While a creation is under way its claim stands exactly if its name has not been
    * dropped since it began. */
  lemma {:induction false} ClaimStands(es: seq<Event>, i: nat, k: ClaimId, name: string)
    requires Starts(es, i, k, name) && k in After(es).suspended
    ensures After(es).suspended[k] == name
    ensures Claims(After(es), k, name) <==> NotDropped(es, i, |es|, name)
  {
    hide Inv, Step, Claims, NotDropped;
    var n := |es| - 1;
    var rest, e := es[..n], es[n];
    assert es == rest + [e] && es[..n + 1] == es;
    if i == n {
      StartClaims(es, i, k, name);
      NothingSince(es, name);
    } else {
      StartsMore(rest, e, i, k, name);
      StillNumbered(rest, i, k, name);
      NotDroppedMore(rest, e, i, name);
      RunKeeps(rest);
      ClaimGoesOn(After(rest), e, k, name);
      ClaimStands(rest, i, k, name);
    }
  }

  lemma NothingSince(es: seq<Event>, name: string)
    requires es != []
    ensures NotDropped(es, |es| - 1, |es|, name)
  {
  }

  lemma ClaimGoesOn(s: Audio, e: Event, k: ClaimId, n: string)
    requires Inv(s) && k < s.nextClaim
    ensures var t := if Legal(s, e) then Step(s, e) else s;
            k in t.suspended ==>
              && k in s.suspended && t.suspended[k] == s.suspended[k]
              && (Claims(t, k, n) <==> Claims(s, k, n) && e != Disconnect(n) && e != Cleanup)
  {
    hide Inv, Step, Claims;
    if Legal(s, e) {
      NumbersStep(s, e, k);
      if k in Step(s, e).suspended { ClaimStep(s, e, k, n); }
    }
  }

  predicate HasPeer(s: Audio, name: string, c: ConnId) { name in s.peers && s.peers[name] == c }

  /** A delivery is registered under its name if and only if the session has not ended
    * and nobody has left under the name since the creation it comes of began. */
  lemma RegisteredExactly(es: seq<Event>, i: nat, j: nat, k: ClaimId, name: string, c: ConnId)
    requires Starts(es, i, k, name) && i < j < |es| && es[j] == Delivered(k, c) && Legal(After(es[..j]), es[j])
    ensures HasPeer(After(es[..j + 1]), name, c) <==>
              Cleanup !in es[..j] && forall l | i < l < j :: es[l] != Disconnect(name)
  {
    var pre := es[..j];
    var s := After(pre);
    assert pre[..i] == es[..i] && pre[..i + 1] == es[..i + 1];
    ClaimStands(pre, i, k, name);
    DisposedIff(es, j);
    AfterAt(es, j);
    RunKeeps(pre);
    DeliveredPeers(s, k, c, name);
    if NotDropped(pre, i, j, name) {
      forall l | i < l < j ensures es[l] != Disconnect(name) { assert pre[l] == es[l]; }
    }
    if Cleanup !in pre && forall l | i < l < j :: es[l] != Disconnect(name) {
      forall l | i < l < j ensures pre[l] != Disconnect(name) && pre[l] != Cleanup {
        assert pre[l] == es[l] && pre[l] in pre;
      }
    }
  }

  lemma DeliveredPeers(s: Audio, k: ClaimId, c: ConnId, name: string)
    requires Inv(s) && k in s.suspended && s.suspended[k] == name && c !in s.conns
    ensures HasPeer(OnDelivered(s, k, c), name, c) <==> !s.disposed && Claims(s, k, name)
  {
    assert NameOk(s, name);
  }

  /** What is registered stays so until its name is dropped, the session ends, or an
    * offer on that very connection fails. */
  lemma RegistrationLasts(es: seq<Event>, e: Event, name: string, c: ConnId)
    requires HasPeer(After(es), name, c)
    ensures HasPeer(After(es + [e]), name, c) <==>
              !(e == Disconnect(name) || e == Cleanup ||
                (e.OfferFailed? && Legal(After(es), e) && After(es).calls[e.call].phase == Offering(c)))
  {
    var s := After(es);
    assert (es + [e])[..|es|] == es;
    RunKeeps(es);
    if Legal(s, e) { PeerStep(s, e, name, c); }
  }

  lemma PeerStep(s: Audio, e: Event, name: string, c: ConnId)
    requires Inv(s) && Legal(s, e) && HasPeer(s, name, c)
    ensures HasPeer(Step(s, e), name, c) <==>
              !(e == Disconnect(name) || e == Cleanup || (e.OfferFailed? && s.calls[e.call].phase == Offering(c)))
  {
    assert NameOk(s, name);
    match e {
      case Delivered(k, d) => assert NameOk(s, s.suspended[k]);
      case OfferFailed(id) =>
        assert CallOk(s, id);
        if s.calls[id].phase.conn == c { assert Named(s, c, s.calls[id].name); }
      case _ =>
    }
  }

  // ---------- What a caller is given ----------

  /** A creation of this name's connection is under way and its name not dropped. */
  ghost predicate UnderWay(es: seq<Event>, k: ClaimId, name: string) {
    k in After(es).suspended && exists i: nat :: Starts(es, i, k, name) && NotDropped(es, i, |es|, name)
  }

  /** Every creation under way was started by some caller. */
  lemma {:induction false} SomeStart(es: seq<Event>, k: ClaimId) returns (i: nat, name: string)
    requires k in After(es).suspended
    ensures Starts(es, i, k, name) && After(es).suspended[k] == name
  {
    var n := |es| - 1;
    var rest, e := es[..n], es[n];
    assert es == rest + [e];
    if k in After(rest).suspended {
      i, name := SomeStart(rest, k);
      StartsMore(rest, e, i, k, name);
      if Legal(After(rest), e) {
        RunKeeps(rest);
        ClaimStep(After(rest), e, k, name);
      }
    } else {
      i := n;
      assert es[..n + 1] == es;
      NewCreation(After(rest), e, k);
      name := e.name;
    }
  }

  lemma NewCreation(s: Audio, e: Event, k: ClaimId)
    requires Legal(s, e) && k !in s.suspended && k in Step(s, e).suspended
    ensures (e.Connect? || e.Offer?) && Step(s, e).suspended[k] == e.name
  {
  }

  lemma UnderWayIff(es: seq<Event>, k: ClaimId, name: string)
    ensures UnderWay(es, k, name) <==> Claims(After(es), k, name)
  {
    var s := After(es);
    RunKeeps(es);
    assert es[..|es|] == es;
    assert NameOk(s, name);
    hide Inv, NotDropped, Starts;
    if k in s.suspended {
      var i, n := SomeStart(es, k);
      ClaimStands(es, i, k, n);
    }
    if UnderWay(es, k, name) {
      var i: nat :| Starts(es, i, k, name) && NotDropped(es, i, |es|, name);
      ClaimStands(es, i, k, name);
    }
  }

  /** A caller is given the connection registered under its name; else the creation of
    * it under way; and only if there is neither does it start one, and is told so. */
  lemma CallersAreGiven(es: seq<Event>, e: Event, k: ClaimId)
    requires (e.Connect? || e.Offer?) && Legal(After(es), e)
    ensures var s, t := After(es), After(es + [e]);
            && e.call in t.calls && t.calls[e.call].name == e.name
            && (e.name in s.peers ==> t.calls[e.call].source == Existing(s.peers[e.name]) && !t.calls[e.call].created)
            && (e.name !in s.peers && UnderWay(es, k, e.name) ==>
                  t.calls[e.call].source == Awaiting(k) && !t.calls[e.call].created)
            && (e.name !in s.peers && (forall j :: !UnderWay(es, j, e.name)) ==>
                  t.calls[e.call].created && t.calls[e.call].source.Awaiting? &&
                  Starts(es + [e], |es|, t.calls[e.call].source.claim, e.name))
  {
    var s := After(es);
    assert (es + [e])[..|es|] == es && (es + [e])[..|es| + 1] == es + [e];
    RunKeeps(es);
    UnderWayIff(es, k, e.name);
    hide UnderWay;
    assert ClaimOk(s, s.nextClaim);
    if e.name in s.claims { UnderWayIff(es, s.claims[e.name], e.name); }
  }

  // ---------- Who makes an offer ----------

  /** A call keeps its name, its purpose, and what it was given. */
  ghost predicate SameCall(s: Audio, t: Audio, id: CallId) {
    && id in s.calls && id in t.calls && t.calls[id].name == s.calls[id].name
    && t.calls[id].purpose == s.calls[id].purpose && t.calls[id].source == s.calls[id].source
    && t.calls[id].created == s.calls[id].created
  }

  lemma SameCallStep(s: Audio, e: Event, id: CallId)
    requires Legal(s, e) && id in s.calls
    ensures SameCall(s, Step(s, e), id)
  {
  }

  lemma {:induction false} SameCallSince(es: seq<Event>, i: nat, id: CallId)
    requires i <= |es| && id in After(es[..i]).calls
    ensures SameCall(After(es[..i]), After(es), id)
    decreases |es|
  {
    if i == |es| {
      assert es[..i] == es;
    } else {
      var rest := es[..|es| - 1];
      assert rest[..i] == es[..i];
      SameCallSince(rest, i, id);
      if Legal(After(rest), es[|es| - 1]) { SameCallStep(After(rest), es[|es| - 1], id); }
    }
  }

  /** How a creation came out, and of which delivery. */
  lemma {:induction false} ReadyMeansDelivered(es: seq<Event>, k: ClaimId, c: ConnId) returns (j: nat)
    requires k in After(es).settled && After(es).settled[k] == Ready(c)
    ensures j < |es| && es[j] == Delivered(k, c) && Legal(After(es[..j]), es[j])
  {
    var n := |es| - 1;
    var rest, e := es[..n], es[n];
    if k in After(rest).settled && After(rest).settled[k] == Ready(c) {
      j := ReadyMeansDelivered(rest, k, c);
      assert rest[..j] == es[..j];
    } else {
      NewReady(After(rest), e, k, c);
      j := n;
    }
  }

  lemma NewReady(s: Audio, e: Event, k: ClaimId, c: ConnId)
    requires Legal(s, e) && k in Step(s, e).settled && Step(s, e).settled[k] == Ready(c)
    requires !(k in s.settled && s.settled[k] == Ready(c))
    ensures e == Delivered(k, c)
  {
  }

  /** A delivery settles its creation for good, and one that is refused is closed for
    * good. */
  lemma {:induction false} DeliveredSettles(es: seq<Event>, j: nat, k: ClaimId, c: ConnId)
    requires j < |es| && es[j] == Delivered(k, c) && Legal(After(es[..j]), es[j])
    ensures k in After(es).settled && c in After(es).conns
    ensures After(es).settled[k] == Ready(c) || (After(es).settled[k] == Abandoned && After(es).conns[c].closed)
    decreases |es|
  {
    var n := |es| - 1;
    var rest, e := es[..n], es[n];
    RunKeeps(rest);
    if j == n {
      DeliverySettles(After(rest), k, c);
    } else {
      assert rest[..j] == es[..j];
      DeliveredSettles(rest, j, k, c);
      if Legal(After(rest), e) {
        StepGrows(After(rest), e);
        SettledStep(After(rest), e, k);
      }
    }
  }

  lemma DeliverySettles(s: Audio, k: ClaimId, c: ConnId)
    requires k in s.suspended && c !in s.conns
    ensures var t := OnDelivered(s, k, c);
            && k in t.settled && c in t.conns
            && (t.settled[k] == Ready(c) || (t.settled[k] == Abandoned && t.conns[c].closed))
  {
  }

  lemma SettledStep(s: Audio, e: Event, k: ClaimId)
    requires Inv(s) && Legal(s, e) && k in s.settled
    ensures k in Step(s, e).settled && Step(s, e).settled[k] == s.settled[k]
  {
    assert ClaimOk(s, k);
  }

  predicate SettledAs(s: Audio, source: Source, c: ConnId) {
    source.Awaiting? && source.claim in s.settled && s.settled[source.claim] == Ready(c)
  }

  lemma ResumeOffers(s: Audio, id: CallId, c: ConnId)
    requires Legal(s, Resume(id)) && (s.calls[id].created ==> s.calls[id].source.Awaiting?)
    ensures Step(s, Resume(id)).calls[id].phase == Offering(c) <==>
              var call := s.calls[id];
              && call.purpose == Connecting(true) && call.created && HasPeer(s, call.name, c)
              && SettledAs(s, call.source, c)
  {
  }

  lemma StartedBy(s: Audio, id: CallId, name: string, purpose: Purpose, k: ClaimId)
    requires Inv(s)
    ensures var t := EnsurePeer(s, id, name, purpose);
            && id in t.calls && t.calls[id].name == name && t.calls[id].purpose == purpose
            && (t.calls[id].created && t.calls[id].source == Awaiting(k) <==> k !in s.suspended && k in t.suspended)
  {
    assert ClaimOk(s, s.nextClaim);
  }

  /** What a caller asked for, and that it created exactly the creation it started. */
  lemma CallIs(es: seq<Event>, i: nat, id: CallId, name: string, initiate: bool, k: ClaimId)
    requires i < |es| && es[i] == Connect(id, name, initiate) && Legal(After(es[..i]), es[i])
    ensures var s := After(es);
            && id in s.calls && s.calls[id].name == name && s.calls[id].purpose == Connecting(initiate)
            && (s.calls[id].created && s.calls[id].source == Awaiting(k) <==> Starts(es, i, k, name))
  {
    hide Inv, EnsurePeer;
    AfterAt(es, i);
    RunKeeps(es[..i]);
    StartedBy(After(es[..i]), id, name, Connecting(initiate), k);
    SameCallSince(es, i + 1, id);
  }

  lemma StartsOne(es: seq<Event>, i: nat, k: ClaimId, id: CallId)
    requires i < |es| && es[i].Connect? && es[i].call == id && Legal(After(es[..i]), es[i])
    requires Starts(es, i, k, es[i].name)
    ensures id in After(es).calls && After(es).calls[id].created && After(es).calls[id].source == Awaiting(k)
  {
    CallIs(es, i, id, es[i].name, es[i].initiate, k);
  }

  /** A caller that resumes makes an offer exactly if it is the one that started the
    * creation, is to initiate, and the connection delivered for it is still registered
    * under the name; and it offers on that connection. */
  lemma OffersExactly(es: seq<Event>, i: nat, id: CallId, name: string, initiate: bool, c: ConnId)
    requires i < |es| && es[i] == Connect(id, name, initiate) && Legal(After(es[..i]), es[i])
    requires Legal(After(es), Resume(id))
    ensures After(es + [Resume(id)]).calls[id].phase == Offering(c) <==>
              && initiate && HasPeer(After(es), name, c)
              && exists k, j: nat :: Starts(es, i, k, name) && j < |es| && es[j] == Delivered(k, c) &&
                   Legal(After(es[..j]), es[j])
  {
    var s := After(es);
    var call := s.calls[id];
    assert (es + [Resume(id)])[..|es|] == es;
    CallIs(es, i, id, name, initiate, if call.source.Awaiting? then call.source.claim else 0);
    RunKeeps(es);
    assert CallOk(s, id) && NameOk(s, name);
    ResumeOffers(s, id, c);
    hide Inv, Starts;
    if initiate && call.created && HasPeer(s, name, c) && SettledAs(s, call.source, c) {
      var j := ReadyMeansDelivered(es, call.source.claim, c);
    }
    if HasPeer(s, name, c) {
      if k, j: nat :| Starts(es, i, k, name) && j < |es| && es[j] == Delivered(k, c) && Legal(After(es[..j]), es[j]) {
        DeliveredSettles(es, j, k, c);
        StartsOne(es, i, k, id);
      }
    }
  }
}
