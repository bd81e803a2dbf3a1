/** One connection per peer (src/services/audio.ts): the claim protocol by which
  * racing callers share the creation of a connection that takes an await. Each
  * stretch of code between two awaits is one step; a run is any interleaving of
  * them. */
module PeerClaims {
  import opened Options

  const MAX_PENDING_SIGNALS := 64

  type ConnId = nat
  type ClaimId = nat
  type CallId = nat

  /** An answer or an ICE candidate; offers take another path and are never held. */
  datatype Signal = Answer(payload: string) | Candidate(payload: string)

  /** A connection the factory delivered: whose it is, whether this side closed
    * it, and the signals handed to it. */
  datatype Conn = Conn(name: string, closed: bool, received: seq<Signal>)

  /** How a creation came out. */
  datatype Settled = Ready(conn: ConnId) | Abandoned | Failed

  datatype Purpose = Connecting(initiate: bool) | Answering

  /** What a caller of ensurePeer was given: a connection, or a creation to await. */
  datatype Source = Existing(conn: ConnId) | Awaiting(claim: ClaimId)

  datatype Phase = Waiting | Offering(conn: ConnId) | Done

  datatype Call = Call(name: string, purpose: Purpose, source: Source, created: bool, phase: Phase)

  /** The maps of the service, the connections, and the suspended calls:
    * creations awaiting the factory, creations that settled, and callers. */
  datatype Audio = Audio(
    peers: map<string, ConnId>, creations: map<string, ClaimId>, claims: map<string, ClaimId>,
    pending: map<string, seq<Signal>>, nextClaim: ClaimId, disposed: bool,
    conns: map<ConnId, Conn>, suspended: map<ClaimId, string>, settled: map<ClaimId, Settled>, calls: map<CallId, Call>)

  const FRESH := Audio(map[], map[], map[], map[], 1, false, map[], map[], map[], map[])

  /** `Connect` and `Offer` start a call; `Delivered` and `FactoryFailed` resume a
    * creation after the factory; `Resume` resumes a caller; `OfferFailed` is the
    * failure of an offer under way. */
  datatype Event =
    | Connect(call: CallId, name: string, initiate: bool)
    | Offer(call: CallId, name: string)
    | Signalled(name: string, signal: Signal)
    | Delivered(claim: ClaimId, conn: ConnId)
    | FactoryFailed(claim: ClaimId)
    | Resume(call: CallId)
    | OfferMade(call: CallId)
    | OfferFailed(call: CallId)
    | Disconnect(name: string)
    | Cleanup

  // ---------- The steps ----------

  /** A name is claimed, and a creation of its connection starts awaiting the factory. */
  function Claim(s: Audio, name: string): Audio {
    var k := s.nextClaim;
    s.(nextClaim := k + 1, claims := s.claims[name := k], creations := s.creations[name := k],
       suspended := s.suspended[k := name])
  }

  function AddCall(s: Audio, id: CallId, call: Call): Audio { s.(calls := s.calls[id := call]) }

  /** Nobody has the name's connection or is creating it. */
  predicate Unclaimed(s: Audio, name: string) { name !in s.peers && name !in s.creations }

  /** Look the peer up, else the creation under way, else claim the name: one
    * synchronous run. */
  function EnsurePeer(s: Audio, call: CallId, name: string, purpose: Purpose): Audio {
    var source :=
      if name in s.peers then Existing(s.peers[name])
      else Awaiting(if name in s.creations then s.creations[name] else s.nextClaim);
    AddCall(if Unclaimed(s, name) then Claim(s, name) else s, call,
            Call(name, purpose, source, Unclaimed(s, name), Waiting))
  }

  function HeldFor(pending: map<string, seq<Signal>>, name: string): seq<Signal> {
    if name in pending then pending[name] else []
  }

  function PendingOf(s: Audio, name: string): seq<Signal> { HeldFor(s.pending, name) }

  /** A signal joins those held for a name, unless 64 are already. */
  function Buffered(pending: map<string, seq<Signal>>, name: string, signal: Signal): map<string, seq<Signal>> {
    var held := if name in pending then pending[name] else [];
    pending[name := if |held| >= MAX_PENDING_SIGNALS then held else held + [signal]]
  }

  /** A signal is handed to a connection. */
  function Handed(conns: map<ConnId, Conn>, c: ConnId, signal: Signal): map<ConnId, Conn>
    requires c in conns
  {
    conns[c := conns[c].(received := conns[c].received + [signal])]
  }

  function OnSignal(s: Audio, name: string, signal: Signal): Audio {
    var here := name in s.peers && s.peers[name] in s.conns;
    s.(conns := if here then Handed(s.conns, s.peers[name], signal) else s.conns,
       pending := if here then s.pending else Buffered(s.pending, name, signal))
  }

  function Closed(conns: map<ConnId, Conn>, c: ConnId): map<ConnId, Conn> {
    if c in conns then conns[c := conns[c].(closed := true)] else conns
  }

  function ClosedAll(conns: map<ConnId, Conn>, cs: set<ConnId>): map<ConnId, Conn> {
    map c | c in conns :: if c in cs then conns[c].(closed := true) else conns[c]
  }

  /** Every registered connection closed. */
  function ClosedPeers(conns: map<ConnId, Conn>, peers: map<string, ConnId>): map<ConnId, Conn> {
    ClosedAll(conns, peers.Values)
  }

  /** A creation comes out, and releases its claim if it is still its own. */
  function Settle(s: Audio, k: ClaimId, how: Settled): Audio
    requires k in s.suspended
  {
    var name := s.suspended[k];
    var own := if name in s.claims && s.claims[name] == k then {name} else {};
    s.(creations := s.creations - own, claims := s.claims - own,
       suspended := s.suspended - {k}, settled := s.settled[k := how])
  }

  /** Whether a connection that arrives for this claim is still wanted. */
  predicate StillWanted(s: Audio, name: string, k: ClaimId) {
    !s.disposed && name in s.claims && s.claims[name] == k
  }

  /** An arrival that is wanted is registered and handed what was held for it;
    * one that is not is closed at once. */
  function Arrive(s: Audio, name: string, c: ConnId, wanted: bool): Audio {
    s.(peers := if wanted then s.peers[name := c] else s.peers,
       conns := s.conns[c := Conn(name, !wanted, if wanted then PendingOf(s, name) else [])],
       pending := if wanted then s.pending - {name} else s.pending)
  }

  function OnDelivered(s: Audio, k: ClaimId, c: ConnId): Audio
    requires k in s.suspended
  {
    var name, wanted := s.suspended[k], StillWanted(s, s.suspended[k], k);
    Settle(Arrive(s, name, c, wanted), k, if wanted then Ready(c) else Abandoned)
  }

  /** Close the connection of a name and forget everything kept under it. */
  function DropPeer(s: Audio, name: string): Audio {
    s.(conns := if name in s.peers then Closed(s.conns, s.peers[name]) else s.conns,
       peers := s.peers - {name}, creations := s.creations - {name}, claims := s.claims - {name},
       pending := s.pending - {name})
  }

  function SetPhase(s: Audio, call: CallId, phase: Phase): Audio
    requires call in s.calls
  {
    s.(calls := s.calls[call := s.calls[call].(phase := phase)])
  }

  /** The connection a caller gets once what it awaits has settled. */
  function ResultOf(s: Audio, call: Call): Option<ConnId> {
    match call.source
    case Existing(c) => Some(c)
    case Awaiting(k) => if k in s.settled && s.settled[k].Ready? then Some(s.settled[k].conn) else None
  }

  /** What a caller goes on to: an offer, for the creator of a connection that is
    * to initiate and whose connection still stands; else nothing more here. */
  function NextPhase(s: Audio, call: Call): Phase {
    match ResultOf(s, call)
    case None => Done
    case Some(c) =>
      if call.purpose.Connecting? && call.purpose.initiate && call.created && call.name in s.peers &&
          s.peers[call.name] == c
      then Offering(c) else Done
  }

  function OnResume(s: Audio, id: CallId): Audio
    requires id in s.calls
  {
    SetPhase(s, id, NextPhase(s, s.calls[id]))
  }

  /** Whether an offer that failed was on the connection its name still has. */
  predicate OffersRegistered(s: Audio, id: CallId)
    requires id in s.calls && s.calls[id].phase.Offering?
  {
    s.calls[id].name in s.peers && s.peers[s.calls[id].name] == s.calls[id].phase.conn
  }

  /** The connection of a failed offer is closed; if its name still has it,
    * everything kept under the name is forgotten with it. */
  function OnOfferFailed(s: Audio, id: CallId): Audio
    requires id in s.calls && s.calls[id].phase.Offering?
  {
    var call := s.calls[id];
    var dropped := if OffersRegistered(s, id) then {call.name} else {};
    s.(conns := Closed(s.conns, call.phase.conn),
       peers := s.peers - dropped, creations := s.creations - dropped, claims := s.claims - dropped,
       pending := s.pending - dropped, calls := s.calls[id := call.(phase := Done)])
  }

  function OnCleanup(s: Audio): Audio {
    s.(disposed := true, creations := map[], claims := map[], pending := map[], peers := map[],
       conns := ClosedPeers(s.conns, s.peers))
  }

  predicate Legal(s: Audio, e: Event) {
    match e
    case Connect(call, _, _) => call !in s.calls
    case Offer(call, _) => call !in s.calls
    case Delivered(k, c) => k in s.suspended && c !in s.conns
    case FactoryFailed(k) => k in s.suspended
    case Resume(call) =>
      call in s.calls && s.calls[call].phase.Waiting? &&
      (s.calls[call].source.Awaiting? ==> s.calls[call].source.claim in s.settled)
    case OfferMade(call) => call in s.calls && s.calls[call].phase.Offering?
    case OfferFailed(call) => call in s.calls && s.calls[call].phase.Offering?
    case _ => true
  }

  function Step(s: Audio, e: Event): Audio
    requires Legal(s, e)
  {
    match e
    case Connect(call, name, initiate) => EnsurePeer(s, call, name, Connecting(initiate))
    case Offer(call, name) => EnsurePeer(s, call, name, Answering)
    case Signalled(name, signal) => OnSignal(s, name, signal)
    case Delivered(k, c) => OnDelivered(s, k, c)
    case FactoryFailed(k) => Settle(s, k, Failed)
    case Resume(call) => OnResume(s, call)
    case OfferMade(call) => SetPhase(s, call, Done)
    case OfferFailed(call) => OnOfferFailed(s, call)
    case Disconnect(name) => DropPeer(s, name)
    case Cleanup => OnCleanup(s)
  }

  // ---------- The invariant ----------

  ghost predicate NameOk(s: Audio, n: string) {
    && (n in s.claims ==> n !in s.peers && s.claims[n] in s.suspended && s.suspended[s.claims[n]] == n)
    && (n in s.peers ==> s.peers[n] in s.conns && s.conns[s.peers[n]].name == n && !s.conns[s.peers[n]].closed)
    && (n in s.pending ==> n !in s.peers && 0 < |s.pending[n]| <= MAX_PENDING_SIGNALS)
  }

  /** Every connection the factory delivered is registered under its name or closed. */
  ghost predicate ConnOk(s: Audio, c: ConnId)
    requires c in s.conns
  {
    !s.conns[c].closed ==> s.conns[c].name in s.peers && s.peers[s.conns[c].name] == c
  }

  /** Creations are numbered once each, and each connection comes of one of them. */
  ghost predicate ClaimOk(s: Audio, k: ClaimId) {
    && (k in s.suspended ==> k < s.nextClaim && k !in s.settled)
    && (k in s.settled ==> k < s.nextClaim)
    && (k in s.settled && s.settled[k].Ready? ==> s.settled[k].conn in s.conns)
  }

  ghost predicate Named(s: Audio, c: ConnId, name: string) { c in s.conns && s.conns[c].name == name }

  ghost predicate CallOk(s: Audio, id: CallId)
    requires id in s.calls
  {
    var call := s.calls[id];
    && (call.created ==> call.source.Awaiting?)
    && (call.source.Awaiting? ==>
          call.source.claim < s.nextClaim && (call.source.claim in s.suspended || call.source.claim in s.settled))
    && (call.source.Awaiting? && call.source.claim in s.suspended ==> s.suspended[call.source.claim] == call.name)
    && (call.phase.Offering? ==> call.created && ResultOf(s, call) == Some(call.phase.conn))
    && (ResultOf(s, call).Some? ==> Named(s, ResultOf(s, call).value, call.name))
  }

  /** No two creations give the same connection. */
  ghost predicate ApartClaims(s: Audio, j: ClaimId, k: ClaimId) {
    j in s.settled && k in s.settled && s.settled[j].Ready? && s.settled[j] == s.settled[k] ==> j == k
  }

  /** No two callers own the same creation. */
  ghost predicate ApartOwners(s: Audio, a: CallId, b: CallId) {
    && a in s.calls && b in s.calls && s.calls[a].created && s.calls[b].created
    && s.calls[a].source == s.calls[b].source
    ==> a == b
  }

  ghost predicate Inv(s: Audio) {
    && s.claims == s.creations
    && (s.disposed ==> s.peers == map[])
    && (forall n {:trigger NameOk(s, n)} :: NameOk(s, n))
    && (forall c {:trigger ConnOk(s, c)} | c in s.conns :: ConnOk(s, c))
    && (forall k {:trigger ClaimOk(s, k)} :: ClaimOk(s, k))
    && (forall id {:trigger CallOk(s, id)} | id in s.calls :: CallOk(s, id))
    && (forall j, k {:trigger ApartClaims(s, j, k)} :: ApartClaims(s, j, k))
    && (forall a, b {:trigger ApartOwners(s, a, b)} :: ApartOwners(s, a, b))
  }

  lemma FreshInv()
    ensures Inv(FRESH)
  {
  }

  // ---------- What each step keeps ----------

  lemma ClaimNames(s: Audio, name: string, n: string)
    requires Inv(s) && name !in s.peers
    ensures NameOk(Claim(s, name), n)
  {
    assert NameOk(s, n);
    if n in s.claims { assert ClaimOk(s, s.claims[n]); }
  }

  lemma ClaimKeeps(s: Audio, name: string)
    requires Inv(s) && name !in s.peers
    ensures Inv(Claim(s, name))
  {
    var t := Claim(s, name);
    assert ClaimOk(s, s.nextClaim);
    forall n ensures NameOk(t, n) { ClaimNames(s, name, n); }
    forall c | c in t.conns ensures ConnOk(t, c) { assert ConnOk(s, c); }
    forall k ensures ClaimOk(t, k) { assert ClaimOk(s, k); }
    forall i | i in t.calls ensures CallOk(t, i) { assert CallOk(s, i); }
    forall j, i ensures ApartClaims(t, j, i) { assert ApartClaims(s, j, i); }
    forall a, b ensures ApartOwners(t, a, b) { assert ApartOwners(s, a, b); }
  }

  lemma AddCallKeeps(s: Audio, id: CallId, call: Call)
    requires Inv(s) && id !in s.calls && CallOk(AddCall(s, id, call), id)
    requires call.created ==> forall a | a in s.calls && s.calls[a].created :: s.calls[a].source != call.source
    ensures Inv(AddCall(s, id, call))
  {
    var t := AddCall(s, id, call);
    forall n ensures NameOk(t, n) { assert NameOk(s, n); }
    forall c | c in t.conns ensures ConnOk(t, c) { assert ConnOk(s, c); }
    forall k ensures ClaimOk(t, k) { assert ClaimOk(s, k); }
    forall i | i in t.calls ensures CallOk(t, i) { if i != id { assert CallOk(s, i); } }
    forall j, i ensures ApartClaims(t, j, i) { assert ApartClaims(s, j, i); }
    forall a, b ensures ApartOwners(t, a, b) { assert ApartOwners(s, a, b); }
  }

  lemma ShareKeeps(s: Audio, id: CallId, name: string, purpose: Purpose)
    requires Inv(s) && id !in s.calls && !Unclaimed(s, name)
    ensures Inv(EnsurePeer(s, id, name, purpose))
  {
    assert NameOk(s, name);
    if name in s.claims { assert ClaimOk(s, s.claims[name]); }
    var source := if name in s.peers then Existing(s.peers[name]) else Awaiting(s.creations[name]);
    AddCallKeeps(s, id, Call(name, purpose, source, false, Waiting));
  }

  lemma OwnKeeps(s: Audio, id: CallId, name: string, purpose: Purpose)
    requires Inv(s) && id !in s.calls && Unclaimed(s, name)
    ensures Inv(EnsurePeer(s, id, name, purpose))
  {
    ClaimKeeps(s, name);
    assert ClaimOk(s, s.nextClaim);
    forall a | a in s.calls && s.calls[a].created ensures s.calls[a].source != Awaiting(s.nextClaim) {
      assert CallOk(s, a);
    }
    AddCallKeeps(Claim(s, name), id, Call(name, purpose, Awaiting(s.nextClaim), true, Waiting));
  }

  lemma EnsureKeeps(s: Audio, id: CallId, name: string, purpose: Purpose)
    requires Inv(s) && id !in s.calls
    ensures Inv(EnsurePeer(s, id, name, purpose))
  {
    if Unclaimed(s, name) { OwnKeeps(s, id, name, purpose); } else { ShareKeeps(s, id, name, purpose); }
  }

  /** Steps that leave the calls and creations alone keep what is known of them. */
  ghost predicate SameCalls(s: Audio, t: Audio) {
    && t.calls == s.calls && t.settled == s.settled && t.suspended == s.suspended && t.nextClaim == s.nextClaim
    && forall c | c in s.conns :: c in t.conns && t.conns[c].name == s.conns[c].name
  }

  lemma SameCallsKeeps(s: Audio, t: Audio)
    requires Inv(s) && SameCalls(s, t) && t.claims == t.creations && (t.disposed ==> t.peers == map[])
    requires forall n {:trigger NameOk(t, n)} :: NameOk(t, n)
    requires forall c {:trigger ConnOk(t, c)} | c in t.conns :: ConnOk(t, c)
    ensures Inv(t)
  {
    forall k ensures ClaimOk(t, k) { assert ClaimOk(s, k); }
    forall id | id in t.calls ensures CallOk(t, id) { assert CallOk(s, id); }
    forall j, i ensures ApartClaims(t, j, i) { assert ApartClaims(s, j, i); }
    forall a, b ensures ApartOwners(t, a, b) { assert ApartOwners(s, a, b); }
  }

  lemma InvNames(s: Audio, n: string)
    requires Inv(s)
    ensures NameOk(s, n)
  {
  }

  lemma SignalNames(s: Audio, name: string, signal: Signal, n: string)
    requires Inv(s)
    ensures NameOk(OnSignal(s, name, signal), n)
  {
    hide Inv;
    InvNames(s, n);
    InvNames(s, name);
  }

  lemma SignalKeeps(s: Audio, name: string, signal: Signal)
    requires Inv(s)
    ensures Inv(OnSignal(s, name, signal))
  {
    var t := OnSignal(s, name, signal);
    forall n ensures NameOk(t, n) { SignalNames(s, name, signal, n); }
    forall c | c in t.conns ensures ConnOk(t, c) { assert ConnOk(s, c); }
    SameCallsKeeps(s, t);
  }

  lemma DropKeeps(s: Audio, name: string)
    requires Inv(s)
    ensures Inv(DropPeer(s, name)) && SameCalls(s, DropPeer(s, name))
  {
    var t := DropPeer(s, name);
    assert NameOk(s, name);
    forall n ensures NameOk(t, n) { assert NameOk(s, n); }
    forall c | c in t.conns ensures ConnOk(t, c) { assert ConnOk(s, c); }
    SameCallsKeeps(s, t);
  }

  lemma CleanupKeeps(s: Audio)
    requires Inv(s)
    ensures Inv(OnCleanup(s))
  {
    var t := OnCleanup(s);
    forall n ensures NameOk(t, n) { assert NameOk(s, n); }
    forall c | c in t.conns ensures ConnOk(t, c) {
      assert ConnOk(s, c);
      if !s.conns[c].closed { assert s.conns[c].name in s.peers; }
    }
    SameCallsKeeps(s, t);
  }

  lemma PhaseKeeps(s: Audio, id: CallId, phase: Phase)
    requires Inv(s) && id in s.calls
    requires phase.Offering? ==> s.calls[id].created && ResultOf(s, s.calls[id]) == Some(phase.conn)
    ensures Inv(SetPhase(s, id, phase))
  {
    var t := SetPhase(s, id, phase);
    forall n ensures NameOk(t, n) { assert NameOk(s, n); }
    forall c | c in t.conns ensures ConnOk(t, c) { assert ConnOk(s, c); }
    forall k ensures ClaimOk(t, k) { assert ClaimOk(s, k); }
    forall i | i in t.calls ensures CallOk(t, i) { assert CallOk(s, i); }
    forall j, i ensures ApartClaims(t, j, i) { assert ApartClaims(s, j, i); }
    forall a, b ensures ApartOwners(t, a, b) { assert ApartOwners(s, a, b); }
  }

  /** Closing a connection that is not registered. */
  lemma CloseKeeps(s: Audio, c: ConnId)
    requires Inv(s) && (c in s.conns && s.conns[c].name in s.peers ==> s.peers[s.conns[c].name] != c)
    ensures Inv(s.(conns := Closed(s.conns, c)))
  {
    var t := s.(conns := Closed(s.conns, c));
    forall n ensures NameOk(t, n) { assert NameOk(s, n); }
    forall d | d in t.conns ensures ConnOk(t, d) { assert ConnOk(s, d); }
    SameCallsKeeps(s, t);
  }

  lemma OfferFailedIs(s: Audio, id: CallId)
    requires id in s.calls && s.calls[id].phase.Offering?
    ensures var s1 := SetPhase(s, id, Done);
            OnOfferFailed(s, id) == if OffersRegistered(s, id) then DropPeer(s1, s.calls[id].name)
                                    else s1.(conns := Closed(s1.conns, s.calls[id].phase.conn))
  {
  }

  lemma OfferFailedKeeps(s: Audio, id: CallId)
    requires Inv(s) && id in s.calls && s.calls[id].phase.Offering?
    ensures Inv(OnOfferFailed(s, id))
  {
    var call := s.calls[id];
    var s1 := SetPhase(s, id, Done);
    assert CallOk(s, id);
    PhaseKeeps(s, id, Done);
    OfferFailedIs(s, id);
    if OffersRegistered(s, id) { DropKeeps(s1, call.name); } else { CloseKeeps(s1, call.phase.conn); }
  }

  /** A creation that is no longer wanted, or whose connection is registered, settles. */
  lemma SettleKeeps(s: Audio, k: ClaimId, how: Settled)
    requires Loose(s, k) && k in s.suspended
    requires how.Ready? ==> Named(s, how.conn, s.suspended[k]) && forall j | j in s.settled :: s.settled[j] != how
    ensures Inv(Settle(s, k, how))
  {
    var t := Settle(s, k, how);
    forall n ensures NameOk(t, n) { assert LooseName(s, k, n); }
    forall c | c in t.conns ensures ConnOk(t, c) { assert ConnOk(s, c); }
    assert ClaimOk(s, k);
    forall j ensures ClaimOk(t, j) { assert ClaimOk(s, j); }
    forall i | i in t.calls ensures CallOk(t, i) { assert CallOk(s, i); }
    forall j, i ensures ApartClaims(t, j, i) { assert ApartClaims(s, j, i); }
    forall a, b ensures ApartOwners(t, a, b) { assert ApartOwners(s, a, b); }
  }

  /** Between registering and releasing its claim a creation's name has both. */
  ghost predicate LooseName(s: Audio, k: ClaimId, n: string) {
    && (n in s.claims ==>
          (n !in s.peers || s.claims[n] == k) && s.claims[n] in s.suspended && s.suspended[s.claims[n]] == n)
    && (n in s.peers ==> s.peers[n] in s.conns && s.conns[s.peers[n]].name == n && !s.conns[s.peers[n]].closed)
    && (n in s.pending ==> n !in s.peers && 0 < |s.pending[n]| <= MAX_PENDING_SIGNALS)
  }

  ghost predicate Loose(s: Audio, k: ClaimId) {
    && s.claims == s.creations
    && (s.disposed ==> s.peers == map[])
    && (forall n {:trigger LooseName(s, k, n)} :: LooseName(s, k, n))
    && (forall c {:trigger ConnOk(s, c)} | c in s.conns :: ConnOk(s, c))
    && (forall j {:trigger ClaimOk(s, j)} :: ClaimOk(s, j))
    && (forall id {:trigger CallOk(s, id)} | id in s.calls :: CallOk(s, id))
    && (forall j, i {:trigger ApartClaims(s, j, i)} :: ApartClaims(s, j, i))
    && (forall a, b {:trigger ApartOwners(s, a, b)} :: ApartOwners(s, a, b))
  }

  lemma InvIsLoose(s: Audio, k: ClaimId)
    requires Inv(s)
    ensures Loose(s, k)
  {
    forall n ensures LooseName(s, k, n) { assert NameOk(s, n); }
  }

  /** The calls and creations, untouched, stay as they should be. */
  lemma SameCallsLoose(s: Audio, t: Audio, k: ClaimId)
    requires Inv(s) && SameCalls(s, t) && t.claims == t.creations && (t.disposed ==> t.peers == map[])
    requires forall n {:trigger LooseName(t, k, n)} :: LooseName(t, k, n)
    requires forall c {:trigger ConnOk(t, c)} | c in t.conns :: ConnOk(t, c)
    ensures Loose(t, k)
  {
    forall j ensures ClaimOk(t, j) { assert ClaimOk(s, j); }
    forall id | id in t.calls ensures CallOk(t, id) { assert CallOk(s, id); }
    forall j, i ensures ApartClaims(t, j, i) { assert ApartClaims(s, j, i); }
    forall a, b ensures ApartOwners(t, a, b) { assert ApartOwners(s, a, b); }
  }

  lemma RefuseKeeps(s: Audio, name: string, c: ConnId)
    requires Inv(s) && c !in s.conns
    ensures Inv(Arrive(s, name, c, false))
  {
    var t := Arrive(s, name, c, false);
    forall n ensures NameOk(t, n) { assert NameOk(s, n); }
    forall d | d in t.conns ensures ConnOk(t, d) { if d != c { assert ConnOk(s, d); } }
    SameCallsKeeps(s, t);
  }

  lemma RegisterKeeps(s: Audio, name: string, c: ConnId, k: ClaimId)
    requires Inv(s) && c !in s.conns && StillWanted(s, name, k)
    ensures Loose(Arrive(s, name, c, true), k)
  {
    var t := Arrive(s, name, c, true);
    assert NameOk(s, name);
    forall n ensures LooseName(t, k, n) { assert NameOk(s, n); }
    forall d | d in t.conns ensures ConnOk(t, d) { if d != c { assert ConnOk(s, d); } }
    SameCallsLoose(s, t, k);
  }

  lemma DeliveredKeeps(s: Audio, k: ClaimId, c: ConnId)
    requires Inv(s) && k in s.suspended && c !in s.conns
    ensures Inv(OnDelivered(s, k, c))
  {
    var name := s.suspended[k];
    if StillWanted(s, name, k) {
      RegisterKeeps(s, name, c, k);
      forall j | j in s.settled ensures s.settled[j] != Ready(c) { assert ClaimOk(s, j); }
      SettleKeeps(Arrive(s, name, c, true), k, Ready(c));
    } else {
      RefuseKeeps(s, name, c);
      InvIsLoose(Arrive(s, name, c, false), k);
      SettleKeeps(Arrive(s, name, c, false), k, Abandoned);
    }
  }

  lemma ResumeKeeps(s: Audio, id: CallId)
    requires Inv(s) && id in s.calls
    ensures Inv(OnResume(s, id))
  {
    PhaseKeeps(s, id, NextPhase(s, s.calls[id]));
  }

  lemma StepKeeps(s: Audio, e: Event)
    requires Inv(s) && Legal(s, e)
    ensures Inv(Step(s, e))
  {
    match e {
      case Connect(call, name, initiate) => EnsureKeeps(s, call, name, Connecting(initiate));
      case Offer(call, name) => EnsureKeeps(s, call, name, Answering);
      case Signalled(name, signal) => SignalKeeps(s, name, signal);
      case Delivered(k, c) => DeliveredKeeps(s, k, c);
      case FactoryFailed(k) =>
        InvIsLoose(s, k);
        SettleKeeps(s, k, Failed);
      case Resume(call) => ResumeKeeps(s, call);
      case OfferMade(call) => PhaseKeeps(s, call, Done);
      case OfferFailed(call) => OfferFailedKeeps(s, call);
      case Disconnect(name) => DropKeeps(s, name);
      case Cleanup => CleanupKeeps(s);
    }
  }
}
