/** The token-bucket rate limiter (server/src/rate-limit.ts): an exact
  * window form for what it grants, and proof that pruning idle buckets cannot
  * be observed. Times are milliseconds; tokens are exact reals. */
module TokenBuckets {
  import opened Options

  datatype Config = Config(capacity: real, refillPerSec: real)
  datatype Bucket = Bucket(tokens: real, lastRefillMs: int)

  function MinReal(a: real, b: real): real { if a <= b then a else b }

  /** Tokens gained over a span of milliseconds. */
  function Refill(cfg: Config, ms: int): real {
    ms as real / 1000.0 * cfg.refillPerSec
  }

  /** The bucket as the decision finds it: created full, or refilled since the
    * last visit. */
  function BeforeDecision(cfg: Config, b: Option<Bucket>, now: int): Bucket {
    match b
    case None => Bucket(cfg.capacity, now)
    case Some(b) =>
      if now > b.lastRefillMs
      then Bucket(MinReal(cfg.capacity, b.tokens + Refill(cfg, now - b.lastRefillMs)), now)
      else b
  }

  predicate Grants(cfg: Config, b: Option<Bucket>, now: int) {
    BeforeDecision(cfg, b, now).tokens >= 1.0
  }

  function AfterVisit(cfg: Config, b: Option<Bucket>, now: int): Bucket {
    var r := BeforeDecision(cfg, b, now);
    if r.tokens >= 1.0 then r.(tokens := r.tokens - 1.0) else r
  }

  function Lookup(m: map<string, Bucket>, key: string): Option<Bucket> {
    if key in m then Some(m[key]) else None
  }

  /** What a sweep leaves. */
  function Pruned(m: map<string, Bucket>, idleMs: int, now: int): map<string, Bucket> {
    map k | k in m && now - m[k].lastRefillMs <= idleMs :: m[k]
  }

  class TokenBucket {
    var buckets: map<string, Bucket>
    const cfg: Config

    constructor (cfg: Config)
      ensures buckets == map[] && this.cfg == cfg
    {
      this.cfg := cfg;
      buckets := map[];
    }

    method TryConsume(key: string, now: int) returns (granted: bool)
      modifies this
      ensures granted == Grants(cfg, Lookup(old(buckets), key), now)
      ensures buckets == old(buckets)[key := AfterVisit(cfg, Lookup(old(buckets), key), now)]
    {
      if key !in buckets {
        buckets := buckets[key := Bucket(cfg.capacity, now)];
      }
      var b := buckets[key];
      var elapsedSec := (now - b.lastRefillMs) as real / 1000.0;
      if elapsedSec > 0.0 {
        b := Bucket(MinReal(cfg.capacity, b.tokens + elapsedSec * cfg.refillPerSec), now);
        buckets := buckets[key := b];
      }
      assert b == BeforeDecision(cfg, Lookup(old(buckets), key), now);
      if b.tokens >= 1.0 {
        buckets := buckets[key := b.(tokens := b.tokens - 1.0)];
        return true;
      }
      assert b == AfterVisit(cfg, Lookup(old(buckets), key), now) && buckets == old(buckets)[key := b];
      return false;
    }

    method PruneIdle(idleMs: int, now: int) returns (removed: nat)
      modifies this
      ensures buckets == Pruned(old(buckets), idleMs, now)
      ensures removed == |old(buckets)| - |buckets|
    {
      removed := 0;
      var todo := buckets.Keys;
      ghost var was := buckets;
      while todo != {}
        invariant todo <= was.Keys
        invariant buckets == map k | k in was && (k in todo || now - was[k].lastRefillMs <= idleMs) :: was[k]
        invariant removed == |was| - |buckets|
        decreases |todo|
      {
        var k :| k in todo;
        if now - buckets[k].lastRefillMs > idleMs {
          RemoveOne(buckets, k);
          buckets := buckets - {k};
          removed := removed + 1;
        }
        todo := todo - {k};
      }
    }
  }

  lemma RemoveOne<K, V>(m: map<K, V>, k: K)
    requires k in m
    ensures |m - {k}| == |m| - 1
  {
    assert (m - {k}).Keys == m.Keys - {k};
  }

  // ---------- One key over a run of visits ----------

  ghost predicate NonDecreasing(ts: seq<int>) {
    forall i, j | 0 <= i <= j < |ts| :: ts[i] <= ts[j]
  }

  /** The bucket after visits at the given times. */
  function After(cfg: Config, ts: seq<int>): Option<Bucket> {
    if ts == [] then None
    else Some(AfterVisit(cfg, After(cfg, ts[..|ts| - 1]), ts[|ts| - 1]))
  }

  /** Tokens just before the decision at visit n. */
  function TokensAt(cfg: Config, ts: seq<int>, n: nat): real
    requires n < |ts|
  {
    BeforeDecision(cfg, After(cfg, ts[..n]), ts[n]).tokens
  }

  predicate GrantedAt(cfg: Config, ts: seq<int>, n: nat)
    requires n < |ts|
  {
    Grants(cfg, After(cfg, ts[..n]), ts[n])
  }

  /** How many of the visits lo..hi-1 were granted. */
  function GrantCount(cfg: Config, ts: seq<int>, lo: nat, hi: nat): nat
    requires hi <= |ts|
    decreases hi
  {
    if lo >= hi then 0 else GrantCount(cfg, ts, lo, hi - 1) + (if GrantedAt(cfg, ts, hi - 1) then 1 else 0)
  }

  /** What the window opened by visit j still allows at visit n. */
  function WindowLeft(cfg: Config, ts: seq<int>, j: nat, n: nat): real
    requires j <= n < |ts|
  {
    cfg.capacity + Refill(cfg, ts[n] - ts[j]) - GrantCount(cfg, ts, j, n) as real
  }

  lemma RefillAdds(cfg: Config, a: int, b: int, c: int)
    ensures Refill(cfg, c - a) == Refill(cfg, c - b) + Refill(cfg, b - a)
  {
    var x, y, r := (c - b) as real / 1000.0, (b - a) as real / 1000.0, cfg.refillPerSec;
    assert (c - a) as real / 1000.0 == x + y;
    assert (x + y) * r == x * r + y * r;
  }

  lemma RefillZero(cfg: Config)
    ensures Refill(cfg, 0) == 0.0
  {
  }

  lemma RefillMonotone(cfg: Config, a: int, b: int)
    requires a <= b && cfg.refillPerSec >= 0.0
    ensures Refill(cfg, a) <= Refill(cfg, b)
  {
    var d := (b - a) as real / 1000.0;
    assert d * cfg.refillPerSec >= 0.0;
    RefillAdds(cfg, 0, a, b);
    assert Refill(cfg, b - a) >= 0.0;
  }

  /** Where the bucket stands after visit n: stamped with that visit's time. */
  lemma {:induction false} AfterStamp(cfg: Config, ts: seq<int>, n: nat)
    requires n < |ts| && NonDecreasing(ts)
    ensures var b := After(cfg, ts[..n + 1]);
            b.Some? && b.value.lastRefillMs == ts[n] &&
            b.value.tokens == TokensAt(cfg, ts, n) - (if GrantedAt(cfg, ts, n) then 1.0 else 0.0)
    ensures TokensAt(cfg, ts, n) <= cfg.capacity
  {
    assert ts[..n + 1][..n] == ts[..n];
    if n > 0 {
      AfterStamp(cfg, ts, n - 1);
    }
  }

  /** One visit to the next. */
  lemma TokensStep(cfg: Config, ts: seq<int>, n: nat)
    requires 0 < n < |ts| && NonDecreasing(ts)
    ensures TokensAt(cfg, ts, n) ==
            MinReal(cfg.capacity, TokensAt(cfg, ts, n - 1) - (if GrantedAt(cfg, ts, n - 1) then 1.0 else 0.0)
                                  + Refill(cfg, ts[n] - ts[n - 1]))
  {
    AfterStamp(cfg, ts, n - 1);
    RefillZero(cfg);
  }

  lemma WindowStep(cfg: Config, ts: seq<int>, j: nat, n: nat)
    requires j < n < |ts|
    ensures WindowLeft(cfg, ts, j, n) ==
            WindowLeft(cfg, ts, j, n - 1) - (if GrantedAt(cfg, ts, n - 1) then 1.0 else 0.0)
                                         + Refill(cfg, ts[n] - ts[n - 1])
  {
    RefillAdds(cfg, ts[j], ts[n - 1], ts[n]);
  }

  /** The exact window form: at every visit, the tokens are the least that any
    * window ending there leaves, this visit's own full window included. */
  lemma {:induction false} TokensAreTheTightestWindow(cfg: Config, ts: seq<int>, n: nat)
    requires n < |ts| && NonDecreasing(ts)
    ensures forall j | 0 <= j <= n :: TokensAt(cfg, ts, n) <= WindowLeft(cfg, ts, j, n)
    ensures exists j :: 0 <= j <= n && TokensAt(cfg, ts, n) == WindowLeft(cfg, ts, j, n)
  {
    RefillZero(cfg);
    assert WindowLeft(cfg, ts, n, n) == cfg.capacity;
    if n == 0 {
      assert TokensAt(cfg, ts, 0) == cfg.capacity by { assert ts[..0] == []; }
    } else {
      TokensAreTheTightestWindow(cfg, ts, n - 1);
      TokensStep(cfg, ts, n);
      var k :| 0 <= k <= n - 1 && TokensAt(cfg, ts, n - 1) == WindowLeft(cfg, ts, k, n - 1);
      WindowStep(cfg, ts, k, n);
      forall j | 0 <= j <= n ensures TokensAt(cfg, ts, n) <= WindowLeft(cfg, ts, j, n) {
        if j < n { WindowStep(cfg, ts, j, n); }
      }
      assert TokensAt(cfg, ts, n) == WindowLeft(cfg, ts, if TokensAt(cfg, ts, n) == cfg.capacity then n else k, n);
    }
  }

  /** Some window ending at visit n has less than a token left. */
  ghost predicate SomeWindowExhausted(cfg: Config, ts: seq<int>, n: nat)
    requires n < |ts|
  {
    exists j :: 0 <= j <= n && WindowLeft(cfg, ts, j, n) < 1.0
  }

  /** A request is refused exactly when some window ending at it is exhausted. */
  lemma RefusedIffWindowExhausted(cfg: Config, ts: seq<int>, n: nat)
    requires n < |ts| && NonDecreasing(ts)
    ensures !GrantedAt(cfg, ts, n) <==> SomeWindowExhausted(cfg, ts, n)
  {
    TokensAreTheTightestWindow(cfg, ts, n);
  }

  /** In any window the grants never exceed capacity plus refill over its length. */
  lemma {:induction false} WindowBound(cfg: Config, ts: seq<int>, j: nat, n: nat)
    requires j <= n < |ts| && NonDecreasing(ts)
    requires cfg.capacity >= 0.0 && cfg.refillPerSec >= 0.0
    ensures GrantCount(cfg, ts, j, n + 1) as real <= cfg.capacity + Refill(cfg, ts[n] - ts[j])
    decreases n - j
  {
    RefillZero(cfg);
    RefillMonotone(cfg, 0, ts[n] - ts[j]);
    if GrantedAt(cfg, ts, n) {
      TokensAreTheTightestWindow(cfg, ts, n);
      assert TokensAt(cfg, ts, n) <= WindowLeft(cfg, ts, j, n);
    } else if j < n {
      WindowBound(cfg, ts, j, n - 1);
      RefillMonotone(cfg, ts[n - 1] - ts[j], ts[n] - ts[j]);
    }
  }

  // ---------- All keys, with sweeps in between ----------

  datatype Event = Visit(key: string, now: int) | Prune(idleMs: int, now: int)

  function Step(cfg: Config, m: map<string, Bucket>, e: Event): map<string, Bucket> {
    match e
    case Visit(k, now) => m[k := AfterVisit(cfg, Lookup(m, k), now)]
    case Prune(idle, now) => Pruned(m, idle, now)
  }

  function Run(cfg: Config, es: seq<Event>): map<string, Bucket> {
    if es == [] then map[] else Step(cfg, Run(cfg, es[..|es| - 1]), es[|es| - 1])
  }

  /** The answers given to the visits, in order. */
  function Answers(cfg: Config, es: seq<Event>): seq<bool> {
    if es == [] then []
    else
      var rest, e := es[..|es| - 1], es[|es| - 1];
      Answers(cfg, rest) + (if e.Visit? then [Grants(cfg, Lookup(Run(cfg, rest), e.key), e.now)] else [])
  }

  function VisitsOnly(es: seq<Event>): (r: seq<Event>)
    ensures forall e | e in r :: e.Visit?
  {
    if es == [] then []
    else VisitsOnly(es[..|es| - 1]) + (if es[|es| - 1].Visit? then [es[|es| - 1]] else [])
  }

  ghost predicate ClockedEvents(es: seq<Event>) {
    forall i, j | 0 <= i <= j < |es| :: es[i].now <= es[j].now
  }

  /** A bucket idle for longer than this refills completely. */
  predicate LongEnough(cfg: Config, idleMs: int) {
    idleMs >= 0 && Refill(cfg, idleMs + 1) >= cfg.capacity
  }

  ghost predicate SafePrunes(cfg: Config, es: seq<Event>) {
    forall e | e in es && e.Prune? :: LongEnough(cfg, e.idleMs)
  }

  /** The swept map agrees with the unswept one, and every bucket swept away
    * would be full by `now`. */
  ghost predicate Agree(cfg: Config, swept: map<string, Bucket>, full: map<string, Bucket>, now: int) {
    && (forall k | k in full :: 0.0 <= full[k].tokens <= cfg.capacity && full[k].lastRefillMs <= now)
    && (forall k | k in swept :: k in full && swept[k] == full[k])
    && (forall k | k in full && k !in swept ::
          full[k].lastRefillMs < now && Refill(cfg, now - full[k].lastRefillMs) >= cfg.capacity)
  }

  lemma AgreeLater(cfg: Config, swept: map<string, Bucket>, full: map<string, Bucket>, now: int, later: int)
    requires cfg.refillPerSec >= 0.0 && now <= later && Agree(cfg, swept, full, now)
    ensures Agree(cfg, swept, full, later)
  {
    forall k | k in full && k !in swept ensures Refill(cfg, later - full[k].lastRefillMs) >= cfg.capacity {
      RefillMonotone(cfg, now - full[k].lastRefillMs, later - full[k].lastRefillMs);
    }
  }

  lemma AgreeVisit(cfg: Config, swept: map<string, Bucket>, full: map<string, Bucket>, key: string, now: int)
    requires cfg.capacity >= 0.0 && cfg.refillPerSec >= 0.0 && Agree(cfg, swept, full, now)
    ensures BeforeDecision(cfg, Lookup(swept, key), now) == BeforeDecision(cfg, Lookup(full, key), now)
    ensures Agree(cfg, Step(cfg, swept, Visit(key, now)), Step(cfg, full, Visit(key, now)), now)
  {
    if key in full {
      RefillZero(cfg);
      RefillMonotone(cfg, 0, now - full[key].lastRefillMs);
    }
  }

  lemma AgreePrune(cfg: Config, swept: map<string, Bucket>, full: map<string, Bucket>, idleMs: int, now: int)
    requires cfg.capacity >= 0.0 && cfg.refillPerSec >= 0.0 && LongEnough(cfg, idleMs)
    requires Agree(cfg, swept, full, now)
    ensures Agree(cfg, Pruned(swept, idleMs, now), full, now)
  {
    forall k | k in full && k !in Pruned(swept, idleMs, now)
      ensures full[k].lastRefillMs < now && Refill(cfg, now - full[k].lastRefillMs) >= cfg.capacity
    {
      if k in swept {
        RefillMonotone(cfg, idleMs + 1, now - full[k].lastRefillMs);
      }
    }
  }

  lemma VisitsOnlyStep(es: seq<Event>, e: Event)
    ensures VisitsOnly(es + [e]) == if e.Visit? then VisitsOnly(es) + [e] else VisitsOnly(es)
  {
    assert (es + [e])[..|es|] == es;
  }

  lemma RunStep(cfg: Config, es: seq<Event>, e: Event)
    ensures Run(cfg, es + [e]) == Step(cfg, Run(cfg, es), e)
    ensures Answers(cfg, es + [e]) ==
            Answers(cfg, es) + (if e.Visit? then [Grants(cfg, Lookup(Run(cfg, es), e.key), e.now)] else [])
  {
    assert (es + [e])[..|es|] == es;
  }

  lemma StepAgrees(cfg: Config, rest: seq<Event>, e: Event)
    requires cfg.capacity >= 0.0 && cfg.refillPerSec >= 0.0
    requires e.Prune? ==> LongEnough(cfg, e.idleMs)
    requires Agree(cfg, Run(cfg, rest), Run(cfg, VisitsOnly(rest)), e.now)
    requires Answers(cfg, rest) == Answers(cfg, VisitsOnly(rest))
    ensures Agree(cfg, Run(cfg, rest + [e]), Run(cfg, VisitsOnly(rest + [e])), e.now)
    ensures Answers(cfg, rest + [e]) == Answers(cfg, VisitsOnly(rest + [e]))
  {
    var swept, full := Run(cfg, rest), Run(cfg, VisitsOnly(rest));
    RunStep(cfg, rest, e);
    VisitsOnlyStep(rest, e);
    match e {
      case Visit(key, at) =>
        RunStep(cfg, VisitsOnly(rest), e);
        AgreeVisit(cfg, swept, full, key, at);
      case Prune(idle, at) =>
        AgreePrune(cfg, swept, full, idle, at);
    }
  }

  /** Through a whole run the swept state keeps agreeing with the state of the
    * same run without its sweeps, and gives the same answers. */
  lemma {:induction false} RunsAgree(cfg: Config, es: seq<Event>, now: int)
    requires cfg.capacity >= 0.0 && cfg.refillPerSec >= 0.0
    requires ClockedEvents(es) && SafePrunes(cfg, es) && forall e | e in es :: e.now <= now
    ensures Agree(cfg, Run(cfg, es), Run(cfg, VisitsOnly(es)), now)
    ensures Answers(cfg, es) == Answers(cfg, VisitsOnly(es))
  {
    if es != [] {
      var rest, e := es[..|es| - 1], es[|es| - 1];
      LastIsLatest(rest, e, es);
      RunsAgree(cfg, rest, e.now);
      StepAgrees(cfg, rest, e);
      AgreeLater(cfg, Run(cfg, es), Run(cfg, VisitsOnly(es)), e.now, now);
    }
  }

  /** Pruning is unobservable: with a clock that never goes back and idle times
    * long enough to refill a bucket, any interleaving of sweeps gives the same
    * answers as never sweeping. */
  lemma PruningIsUnobservable(cfg: Config, es: seq<Event>)
    requires cfg.capacity >= 0.0 && cfg.refillPerSec >= 0.0
    requires ClockedEvents(es) && SafePrunes(cfg, es)
    ensures Answers(cfg, es) == Answers(cfg, VisitsOnly(es))
  {
    RunsAgree(cfg, es, if es == [] then 0 else es[|es| - 1].now);
  }

  /** The limiters as configured, and the idle time the server sweeps with. */
  const TURN_CREDS := Config(60.0, 1.0)
  const COMPUTE_VOLUMES_PER_PLAYER := Config(180.0, 90.0)
  const COMPUTE_VOLUMES_PER_IP := Config(800.0, 400.0)
  const PRUNE_IDLE_MS := 10 * 60 * 1000

  lemma ConfiguredSweepsAreSafe()
    ensures forall cfg | cfg in {TURN_CREDS, COMPUTE_VOLUMES_PER_PLAYER, COMPUTE_VOLUMES_PER_IP} ::
              LongEnough(cfg, PRUNE_IDLE_MS)
  {
  }

  lemma ConfiguredRates(ms: int)
    ensures Refill(TURN_CREDS, ms) == ms as real / 1000.0
    ensures Refill(COMPUTE_VOLUMES_PER_PLAYER, ms) == ms as real * 0.09
    ensures Refill(COMPUTE_VOLUMES_PER_IP, ms) == ms as real * 0.4
  {
  }

  /** What the configured limiters grant over any span of milliseconds. */
  lemma ConfiguredBounds(ts: seq<int>, j: nat, n: nat)
    requires j <= n < |ts| && NonDecreasing(ts)
    ensures GrantCount(TURN_CREDS, ts, j, n + 1) as real <= 60.0 + (ts[n] - ts[j]) as real / 1000.0
    ensures GrantCount(COMPUTE_VOLUMES_PER_PLAYER, ts, j, n + 1) as real <= 180.0 + (ts[n] - ts[j]) as real * 0.09
    ensures GrantCount(COMPUTE_VOLUMES_PER_IP, ts, j, n + 1) as real <= 800.0 + (ts[n] - ts[j]) as real * 0.4
  {
    hide Refill, NonDecreasing;
    ConfiguredRates(ts[n] - ts[j]);
    WindowBound(TURN_CREDS, ts, j, n);
    WindowBound(COMPUTE_VOLUMES_PER_PLAYER, ts, j, n);
    WindowBound(COMPUTE_VOLUMES_PER_IP, ts, j, n);
  }

  /** A request for relay credentials is refused exactly when, in some span ending
    * at it, 60 and one more for every 1000 ms are used up but for a fraction. */
  lemma CredentialsRefusedExactly(ts: seq<int>, n: nat)
    requires n < |ts| && NonDecreasing(ts)
    ensures !GrantedAt(TURN_CREDS, ts, n) <==>
            exists j: nat :: j <= n &&
              GrantCount(TURN_CREDS, ts, j, n) as real > 59.0 + (ts[n] - ts[j]) as real / 1000.0
  {
    hide Refill, NonDecreasing;
    RefusedIffWindowExhausted(TURN_CREDS, ts, n);
    forall j: nat | j <= n
      ensures WindowLeft(TURN_CREDS, ts, j, n) < 1.0 <==>
              GrantCount(TURN_CREDS, ts, j, n) as real > 59.0 + (ts[n] - ts[j]) as real / 1000.0
    {
      ConfiguredRates(ts[n] - ts[j]);
    }
  }

  // ---------- Exactly when sweeps can be observed ----------

  /** A key visited n times at once. */
  function Burst(at: int, n: nat): (r: seq<Event>)
    ensures |r| == n && forall e | e in r :: e == Visit("k", at)
  {
    seq(n, _ => Visit("k", at))
  }

  function Trues(n: nat): seq<bool> { seq(n, _ => true) }

  lemma BurstSnoc(at: int, n: nat)
    requires n > 0
    ensures Burst(at, n) == Burst(at, n - 1) + [Visit("k", at)] && Trues(n) == Trues(n - 1) + [true]
  {
  }

  /** The tokens a burst finds. */
  function Found(cfg: Config, base: seq<Event>, at: int): real {
    BeforeDecision(cfg, Lookup(Run(cfg, base), "k"), at).tokens
  }

  predicate NotAhead(cfg: Config, base: seq<Event>, at: int) {
    "k" in Run(cfg, base) ==> Run(cfg, base)["k"].lastRefillMs <= at
  }

  ghost predicate AllGranted(cfg: Config, base: seq<Event>, at: int, n: nat) {
    Answers(cfg, base + Burst(at, n)) == Answers(cfg, base) + Trues(n)
  }

  lemma BurstStep(cfg: Config, base: seq<Event>, at: int, n: nat)
    requires n > 0
    ensures var before := base + Burst(at, n - 1);
            && base + Burst(at, n) == before + [Visit("k", at)]
            && Run(cfg, base + Burst(at, n)) == Step(cfg, Run(cfg, before), Visit("k", at))
            && Answers(cfg, base + Burst(at, n)) ==
                Answers(cfg, before) + [Grants(cfg, Lookup(Run(cfg, before), "k"), at)]
  {
    BurstSnoc(at, n);
    assert base + Burst(at, n) == base + Burst(at, n - 1) + [Visit("k", at)];
    RunStep(cfg, base + Burst(at, n - 1), Visit("k", at));
  }

  /** What the next visit of a burst finds. */
  function FoundNext(cfg: Config, base: seq<Event>, at: int, n: nat): Bucket {
    BeforeDecision(cfg, Lookup(Run(cfg, base + Burst(at, n)), "k"), at)
  }

  /** A burst is granted whole exactly when it finds that many tokens. */
  lemma {:induction false} BurstGranted(cfg: Config, base: seq<Event>, at: int, n: nat)
    requires NotAhead(cfg, base, at) && Found(cfg, base, at) >= 0.0
    ensures AllGranted(cfg, base, at, n) <==> Found(cfg, base, at) >= n as real
    ensures AllGranted(cfg, base, at, n) ==> FoundNext(cfg, base, at, n) == Bucket(Found(cfg, base, at) - n as real, at)
  {
    if n == 0 {
      assert base + Burst(at, 0) == base;
    } else {
      BurstGranted(cfg, base, at, n - 1);
      MoreGranted(cfg, base, at, n);
    }
  }

  lemma MoreGranted(cfg: Config, base: seq<Event>, at: int, n: nat)
    requires n > 0
    ensures AllGranted(cfg, base, at, n) <==>
              AllGranted(cfg, base, at, n - 1) && FoundNext(cfg, base, at, n - 1).tokens >= 1.0
    ensures AllGranted(cfg, base, at, n) && FoundNext(cfg, base, at, n - 1).lastRefillMs == at ==>
              FoundNext(cfg, base, at, n) == Bucket(FoundNext(cfg, base, at, n - 1).tokens - 1.0, at)
  {
    BurstStep(cfg, base, at, n);
    BurstSnoc(at, n);
    var before := base + Burst(at, n - 1);
    LastAnswer(Answers(cfg, before), Answers(cfg, base) + Trues(n - 1), Grants(cfg, Lookup(Run(cfg, before), "k"), at));
    assert Answers(cfg, base) + Trues(n) == Answers(cfg, base) + Trues(n - 1) + [true];
  }

  lemma LastAnswer(a: seq<bool>, b: seq<bool>, g: bool)
    ensures a + [g] == b + [true] <==> a == b && g
  {
    if a + [g] == b + [true] {
      assert (a + [g])[..|a|] == a && (b + [true])[..|b|] == b && (a + [g])[|a|] == g && (b + [true])[|b|] == true;
    }
  }

  lemma {:induction false} VisitsOnlyBurst(base: seq<Event>, at: int, n: nat)
    ensures VisitsOnly(base + Burst(at, n)) == VisitsOnly(base) + Burst(at, n)
  {
    if n == 0 {
      assert base + Burst(at, 0) == base && VisitsOnly(base) + Burst(at, 0) == VisitsOnly(base);
    } else {
      var less, v := Burst(at, n - 1), Visit("k", at);
      VisitsOnlyBurst(base, at, n - 1);
      BurstSnoc(at, n);
      VisitsOnlyStep(base + less, v);
      Regroup(base, less, v);
      Regroup(VisitsOnly(base), less, v);
    }
  }

  lemma Regroup(a: seq<Event>, b: seq<Event>, e: Event)
    ensures a + (b + [e]) == a + b + [e]
  {
  }

  /** Spend a full bucket at once, sweep as soon as it is idle, spend again. */
  function Telltale(n: nat, idleMs: nat): seq<Event> {
    Burst(0, n) + [Prune(idleMs, idleMs + 1)] + Burst(idleMs + 1, n)
  }

  lemma FirstBurstGranted(cfg: Config, n: nat)
    requires cfg.capacity == n as real && n > 0
    ensures AllGranted(cfg, [], 0, n) && FoundNext(cfg, [], 0, n) == Bucket(0.0, 0)
  {
    BurstGranted(cfg, [], 0, n);
  }

  /** The first burst spends all of a full bucket. */
  lemma FirstBurst(cfg: Config, n: nat)
    requires cfg.capacity == n as real && n > 0
    ensures Answers(cfg, Burst(0, n)) == Trues(n) && Run(cfg, Burst(0, n)) == map["k" := Bucket(0.0, 0)]
  {
    FirstBurstGranted(cfg, n);
    OnlyKey(cfg, 0, n);
    var burst := Burst(0, n);
    assert [] + burst == burst;
    assert Answers(cfg, []) + Trues(n) == Trues(n);
    SingleKey(Run(cfg, burst), "k", Bucket(0.0, 0));
  }

  lemma SingleKey(m: map<string, Bucket>, k: string, b: Bucket)
    requires m.Keys == {k} && m[k] == b
    ensures m == map[k := b]
  {
  }

  lemma {:induction false} OnlyKey(cfg: Config, at: int, n: nat)
    requires n > 0
    ensures Run(cfg, Burst(at, n)).Keys == {"k"} && Run(cfg, Burst(at, n))["k"].lastRefillMs == at
  {
    BurstSnoc(at, n);
    RunStep(cfg, Burst(at, n - 1), Visit("k", at));
    if n > 1 { OnlyKey(cfg, at, n - 1); } else { assert Burst(at, 0) == []; }
  }

  lemma SweptGrantsAll(cfg: Config, n: nat, idleMs: nat)
    requires cfg.capacity == n as real && n > 0
    ensures Answers(cfg, Telltale(n, idleMs)) == Trues(n) + Trues(n)
  {
    var swept := Burst(0, n) + [Prune(idleMs, idleMs + 1)];
    FirstBurst(cfg, n);
    RunStep(cfg, Burst(0, n), Prune(idleMs, idleMs + 1));
    assert Run(cfg, swept) == map[] && Answers(cfg, swept) == Trues(n);
    BurstGranted(cfg, swept, idleMs + 1, n);
  }

  lemma UnsweptDoesNot(cfg: Config, n: nat, idleMs: nat)
    requires cfg.capacity == n as real && n > 0 && cfg.refillPerSec >= 0.0 && !LongEnough(cfg, idleMs)
    ensures Answers(cfg, Burst(0, n) + Burst(idleMs + 1, n)) != Trues(n) + Trues(n)
  {
    FirstBurst(cfg, n);
    RefillMonotone(cfg, 0, idleMs + 1);
    RefillZero(cfg);
    BurstGranted(cfg, Burst(0, n), idleMs + 1, n);
  }

  lemma TelltaleVisits(n: nat, idleMs: nat)
    ensures VisitsOnly(Telltale(n, idleMs)) == Burst(0, n) + Burst(idleMs + 1, n)
  {
    var first, sweep := Burst(0, n), Prune(idleMs, idleMs + 1);
    assert [] + first == first;
    VisitsOnlyBurst([], 0, n);
    VisitsOnlyStep(first, sweep);
    VisitsOnlyBurst(first + [sweep], idleMs + 1, n);
  }

  lemma TelltaleIsClocked(n: nat, idleMs: nat)
    ensures ClockedEvents(Telltale(n, idleMs)) && forall e | e in Telltale(n, idleMs) && e.Prune? :: e.idleMs == idleMs
  {
  }

  /** When the idle time is too short to refill a bucket, that shows the sweep:
    * it grants all of the second burst, and without it not all is granted. */
  lemma ShortIdleIsObservable(cfg: Config, n: nat, idleMs: nat)
    requires cfg.capacity == n as real && n > 0 && cfg.refillPerSec >= 0.0 && !LongEnough(cfg, idleMs)
    ensures ClockedEvents(Telltale(n, idleMs)) && forall e | e in Telltale(n, idleMs) && e.Prune? :: e.idleMs == idleMs
    ensures Answers(cfg, Telltale(n, idleMs)) != Answers(cfg, VisitsOnly(Telltale(n, idleMs)))
  {
    TelltaleIsClocked(n, idleMs);
    hide Telltale, ClockedEvents, LongEnough;
    SweptGrantsAll(cfg, n, idleMs);
    UnsweptDoesNot(cfg, n, idleMs);
    TelltaleVisits(n, idleMs);
  }

  /** For a bucket of n tokens, sweeping with one idle time is unobservable in
    * every clocked run if and only if a bucket idle for longer refills. */
  lemma UnobservableIffLongEnough(cfg: Config, n: nat, idleMs: nat)
    requires cfg.capacity == n as real && n > 0 && cfg.refillPerSec >= 0.0
    ensures LongEnough(cfg, idleMs) <==>
            forall es: seq<Event> | ClockedEvents(es) && (forall e | e in es && e.Prune? :: e.idleMs == idleMs) ::
              Answers(cfg, es) == Answers(cfg, VisitsOnly(es))
  {
    if LongEnough(cfg, idleMs) {
      forall es: seq<Event> | ClockedEvents(es) && (forall e | e in es && e.Prune? :: e.idleMs == idleMs)
        ensures Answers(cfg, es) == Answers(cfg, VisitsOnly(es))
      {
        PruningIsUnobservable(cfg, es);
      }
    } else {
      ShortIdleIsObservable(cfg, n, idleMs);
    }
  }

  // ---------- One key inside the whole ----------

  /** When key k was visited. */
  function VisitTimes(es: seq<Event>, k: string): seq<int> {
    if es == [] then []
    else
      var e := es[|es| - 1];
      VisitTimes(es[..|es| - 1], k) + (if e.Visit? && e.key == k then [e.now] else [])
  }

  /** Without sweeps a key's bucket depends on its own visits alone. */
  lemma {:induction false} KeysAreIndependent(cfg: Config, es: seq<Event>, k: string)
    requires forall e | e in es :: e.Visit?
    ensures Lookup(Run(cfg, es), k) == After(cfg, VisitTimes(es, k))
  {
    if es != [] {
      var rest, e := es[..|es| - 1], es[|es| - 1];
      assert e in es && forall x | x in rest :: x in es;
      KeysAreIndependent(cfg, rest, k);
      var ts := VisitTimes(es, k);
      if e.key == k {
        assert ts[..|ts| - 1] == VisitTimes(rest, k);
      } else {
        assert ts == VisitTimes(rest, k);
      }
    }
  }

  lemma VisitTimesStep(es: seq<Event>, e: Event, k: string)
    ensures VisitTimes(es + [e], k) == VisitTimes(es, k) + (if e.Visit? && e.key == k then [e.now] else [])
  {
    assert (es + [e])[..|es|] == es;
  }

  lemma {:induction false} VisitTimesKept(es: seq<Event>, k: string)
    ensures VisitTimes(VisitsOnly(es), k) == VisitTimes(es, k)
  {
    if es != [] {
      var rest, e := es[..|es| - 1], es[|es| - 1];
      VisitTimesKept(rest, k);
      assert es == rest + [e];
      VisitTimesStep(rest, e, k);
      VisitsOnlyStep(rest, e);
      VisitTimesStep(VisitsOnly(rest), e, k);
    }
  }

  lemma {:induction false} VisitTimesOrdered(es: seq<Event>, k: string, now: int)
    requires ClockedEvents(es) && forall e | e in es :: e.now <= now
    ensures NonDecreasing(VisitTimes(es, k) + [now])
  {
    if es != [] {
      var rest, e := es[..|es| - 1], es[|es| - 1];
      LastIsLatest(rest, e, es);
      VisitTimesOrdered(rest, k, e.now);
      var before := VisitTimes(rest, k);
      Extend(before, e.now, now);
      VisitTimesStep(rest, e, k);
      assert VisitTimes(es, k) == before || VisitTimes(es, k) == before + [e.now];
    }
  }

  lemma LastIsLatest(rest: seq<Event>, e: Event, es: seq<Event>)
    requires es == rest + [e] && ClockedEvents(es)
    ensures ClockedEvents(rest) && e in es
    ensures forall x | x in rest :: x.now <= e.now && x in es
  {
    assert es[|rest|] == e;
    forall x | x in rest ensures x.now <= e.now && x in es {
      var i :| 0 <= i < |rest| && rest[i] == x;
      assert es[i] == x && es[i].now <= es[|rest|].now;
    }
    forall i, j | 0 <= i <= j < |rest| ensures rest[i].now <= rest[j].now {
      assert es[i] == rest[i] && es[j] == rest[j];
    }
  }

  lemma Extend(ts: seq<int>, a: int, b: int)
    requires a <= b && NonDecreasing(ts + [a])
    ensures NonDecreasing(ts + [b]) && NonDecreasing(ts + [a] + [b])
  {
    forall i | 0 <= i < |ts| ensures ts[i] <= a {
      assert (ts + [a])[i] <= (ts + [a])[|ts|];
    }
    forall i, j | 0 <= i <= j < |ts| ensures ts[i] <= ts[j] {
      assert (ts + [a])[i] <= (ts + [a])[j];
    }
  }

  /** The limiter as a whole: after any clocked run of visits to any keys with
    * safe sweeps in between, a visit to `k` is refused exactly when some window
    * opened by one of k's own visits (this one included) is exhausted. */
  lemma LimiterRefusesIffWindowExhausted(cfg: Config, es: seq<Event>, k: string, now: int)
    requires cfg.capacity >= 0.0 && cfg.refillPerSec >= 0.0
    requires ClockedEvents(es) && SafePrunes(cfg, es) && forall e | e in es :: e.now <= now
    ensures var ts := VisitTimes(es, k) + [now];
            !Grants(cfg, Lookup(Run(cfg, es), k), now) <==>
            SomeWindowExhausted(cfg, ts, |ts| - 1)
  {
    var before := VisitTimes(es, k);
    var ts := before + [now];
    RunsAgree(cfg, es, now);
    AgreeVisit(cfg, Run(cfg, es), Run(cfg, VisitsOnly(es)), k, now);
    VisitTimesOrdered(es, k, now);
    VisitTimesKept(es, k);
    KeysAreIndependent(cfg, VisitsOnly(es), k);
    assert ts[..|ts| - 1] == before;
    assert GrantedAt(cfg, ts, |ts| - 1) == Grants(cfg, Lookup(Run(cfg, es), k), now);
    RefusedIffWindowExhausted(cfg, ts, |ts| - 1);
  }
}
