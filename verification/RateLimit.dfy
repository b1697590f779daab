/** The token-bucket limiter of apps/mirage-rs/src/rate_limit.rs, with `f64` taken as `real`. */
module RateLimit {
  import opened Prelude

  /** Instants and durations in seconds. */
  datatype Bucket = Bucket(capacity: real, period: real, tokens: real, lastRefill: real) {
    /** What `TokenBucket::new` sets up and every operation keeps. */
    predicate Valid() { 0.0 <= tokens <= capacity && 0.0 <= period }
  }

  function NewBucket(capacity: nat, period: real, now: real): Bucket {
    Bucket(capacity as real, period, capacity as real, now)
  }

  function MinReal(a: real, b: real): real { if a < b then a else b }

  /** A clock reading before the last refill counts as no time at all. */
  function Refill(b: Bucket, now: real): Bucket {
    if now <= b.lastRefill then b
    else if b.period <= 0.0 then b.(tokens := b.capacity, lastRefill := now)
    else b.(tokens := MinReal(b.tokens + (now - b.lastRefill) * (b.capacity / b.period), b.capacity), lastRefill := now)
  }

  function Ceil(x: real): (c: int)
    ensures x <= c as real < x + 1.0
  {
    -((-x).Floor)
  }

  /** The reported delay in milliseconds. */
  function WaitMs(b: Bucket): nat {
    if b.period <= 0.0 || b.capacity <= 0.0 then 0
    else Max(Ceil((1.0 - b.tokens) / (b.capacity / b.period) * 1000.0), 1)
  }

  function TryConsume(b: Bucket, now: real): (Bucket, Option<nat>) {
    var r := Refill(b, now);
    if r.tokens >= 1.0 then (r.(tokens := r.tokens - 1.0), None) else (r, Some(WaitMs(r)))
  }

  lemma RefillKeepsValid(b: Bucket, now: real)
    requires b.Valid()
    ensures Refill(b, now).Valid() && Refill(b, now).tokens >= b.tokens
    ensures Refill(b, now).capacity == b.capacity && Refill(b, now).period == b.period
  {
    if now > b.lastRefill && b.period > 0.0 {
      NonNegativeProduct(now - b.lastRefill, b.capacity / b.period);
    }
  }

  lemma NonNegativeProduct(x: real, y: real)
    requires x >= 0.0 && y >= 0.0
    ensures x * y >= 0.0
  {
  }

  /** Waiting the reported delay makes the next consume succeed, for any bucket that can hold a token. */
  lemma ReportedDelaySuffices(b: Bucket, now: real, later: real)
    requires b.Valid() && b.capacity >= 1.0 && b.lastRefill <= now
    requires TryConsume(b, now).1.Some?
    requires later >= now + TryConsume(b, now).1.value as real / 1000.0 && later > now
    ensures TryConsume(TryConsume(b, now).0, later).1.None?
  {
    RefillKeepsValid(b, now);
    var r := Refill(b, now);
    if r.period > 0.0 {
      WaitedLongEnough(r, WaitMs(r), later - r.lastRefill);
      hide WaitMs;
    }
  }

  lemma WaitedLongEnough(r: Bucket, wait: nat, elapsed: real)
    requires 0.0 <= r.tokens < 1.0 <= r.capacity && r.period > 0.0
    requires wait == WaitMs(r) && elapsed >= wait as real / 1000.0
    ensures r.tokens + elapsed * (r.capacity / r.period) >= 1.0
  {
    var rate := r.capacity / r.period;
    Positive(r.capacity, r.period);
    var needed := (1.0 - r.tokens) / rate;
    assert needed * rate == 1.0 - r.tokens;
    assert wait as real >= needed * 1000.0;
    ScaleMonotone(needed, elapsed, rate);
  }

  lemma Positive(x: real, y: real)
    requires x > 0.0 && y > 0.0
    ensures x / y > 0.0
  {
  }

  lemma ScaleMonotone(x: real, y: real, rate: real)
    requires x <= y && 0.0 <= rate
    ensures x * rate <= y * rate
  {
    NonNegativeProduct(y - x, rate);
  }

  class TokenBucket {
    const capacity: real
    const refillPeriod: real
    var tokens: real
    var lastRefill: real

    function Model(): Bucket
      reads this
    {
      Bucket(capacity, refillPeriod, tokens, lastRefill)
    }

    constructor (capacity: nat, refillPeriod: real, now: real)
      ensures Model() == NewBucket(capacity, refillPeriod, now)
    {
      this.capacity := capacity as real;
      this.refillPeriod := refillPeriod;
      tokens := capacity as real;
      lastRefill := now;
    }

    method DoRefill(now: real)
      modifies this
      ensures Model() == Refill(old(Model()), now)
    {
      if now <= lastRefill {
        return;
      }
      if refillPeriod <= 0.0 {
        tokens := capacity;
        lastRefill := now;
        return;
      }
      var refillRate := capacity / refillPeriod;
      var refill := (now - lastRefill) * refillRate;
      tokens := MinReal(tokens + refill, capacity);
      lastRefill := now;
    }

    method DoTryConsume(now: real) returns (delay: Option<nat>)
      modifies this
      ensures (Model(), delay) == TryConsume(old(Model()), now)
    {
      DoRefill(now);
      if tokens >= 1.0 {
        tokens := tokens - 1.0;
        return None;
      }
      if refillPeriod <= 0.0 || capacity <= 0.0 {
        return Some(0);
      }
      var refillRate := capacity / refillPeriod;
      var deficit := 1.0 - tokens;
      var waitMs := Ceil(deficit / refillRate * 1000.0);
      return Some(Max(waitMs, 1));
    }
  }

  // ---- The limiter ----

  datatype MethodClass = Read | Write | Subscription

  datatype Config = Config(readRps: nat, writeRps: nat, authorWritesPerHour: nat, overrides: map<string, nat>)

  function Classify(name: string): MethodClass {
    if name in {"chain_postInsight", "chain_confirmInsight", "chain_challengeInsight", "chain_depositPheromone",
                "chain_applyDecay"} then Write
    else if name in {"chain_subscribePheromones", "chain_subscribeInsights", "chain_unsubscribe"} then Subscription
    else Read
  }

  function MethodLimit(config: Config, name: string): nat {
    if name in config.overrides then config.overrides[name]
    else match Classify(name)
      case Read => config.readRps
      case Write => config.writeRps
      case Subscription => 0
  }

  datatype Denial = MethodBudgetExceeded(name: string, limitRps: nat, retryAfterMs: nat)
                  | AuthorQuotaExceeded(author: string, limitPerHour: nat, resetAtMs: nat)

  datatype Limiter = Limiter(config: Config, methods: map<string, Bucket>, authors: map<string, Bucket>)

  const HOUR: real := 3600.0

  function MethodBucket(l: Limiter, name: string, now: real): Bucket {
    if name in l.methods then l.methods[name] else NewBucket(MethodLimit(l.config, name), 1.0, now)
  }

  function AuthorBucket(l: Limiter, author: string, now: real): Bucket {
    if author in l.authors then l.authors[author] else NewBucket(l.config.authorWritesPerHour, HOUR, now)
  }

  /** The token given back when the author quota refuses a call the method budget had accepted. */
  function Refund(b: Bucket): Bucket { b.(tokens := MinReal(b.tokens + 1.0, b.capacity)) }

  datatype Call = Call(name: string, author: Option<string>, now: real)

  function Check(l: Limiter, c: Call): (Limiter, Option<Denial>) {
    if Classify(c.name) == Subscription then (l, None) else
    var (mb, mwait) := TryConsume(MethodBucket(l, c.name, c.now), c.now);
    var l1 := l.(methods := l.methods[c.name := mb]);
    if mwait.Some? then (l1, Some(MethodBudgetExceeded(c.name, MethodLimit(l.config, c.name), mwait.value)))
    else if Classify(c.name) == Write && c.author.Some? then
      var a := c.author.value;
      var (ab, await_) := TryConsume(AuthorBucket(l, a, c.now), c.now);
      var l2 := l1.(authors := l1.authors[a := ab]);
      if await_.Some? then
        (l2.(methods := l2.methods[c.name := Refund(mb)]),
         Some(AuthorQuotaExceeded(a, l.config.authorWritesPerHour, await_.value)))
      else (l2, None)
    else (l1, None)
  }

  class RateLimiter {
    const config: Config
    var methodBuckets: map<string, TokenBucket>
    var authorBuckets: map<string, TokenBucket>
    ghost var Repr: set<object>

    ghost predicate Valid()
      reads this, Repr
    {
      && methodBuckets.Values <= Repr && authorBuckets.Values <= Repr && this !in Repr
      && (forall m, n :: m in methodBuckets && n in methodBuckets && m != n ==> methodBuckets[m] != methodBuckets[n])
      && (forall a, b :: a in authorBuckets && b in authorBuckets && a != b ==> authorBuckets[a] != authorBuckets[b])
      && (forall m, a :: m in methodBuckets && a in authorBuckets ==> methodBuckets[m] != authorBuckets[a])
    }

    ghost function Model(): Limiter
      requires Valid()
      reads this, Repr
    {
      Limiter(config, map m | m in methodBuckets :: methodBuckets[m].Model(),
              map a | a in authorBuckets :: authorBuckets[a].Model())
    }

    constructor (config: Config)
      ensures Valid() && fresh(Repr) && Model() == Limiter(config, map[], map[])
    {
      this.config := config;
      methodBuckets, authorBuckets, Repr := map[], map[], {};
    }

    /** The slow path of the lookup: a fresh, full bucket on first sight of a method. */
    method EnsureMethodBucket(name: string, limit: nat, now: real)
      requires Valid() && limit == MethodLimit(config, name)
      modifies this
      ensures Valid() && fresh(Repr - old(Repr)) && name in methodBuckets && old(Repr) <= Repr
      ensures Model() == old(Model()).(methods := old(Model()).methods[name := MethodBucket(old(Model()), name, now)])
    {
      hide MethodLimit;
      if name !in methodBuckets {
        var b := new TokenBucket(limit, 1.0, now);
        methodBuckets := methodBuckets[name := b];
        Repr := Repr + {b};
      }
    }

    method EnsureAuthorBucket(author: string, now: real)
      requires Valid()
      modifies this
      ensures Valid() && fresh(Repr - old(Repr)) && author in authorBuckets && old(Repr) <= Repr
      ensures methodBuckets == old(methodBuckets)
      ensures Model() == old(Model()).(authors :=
          old(Model()).authors[author := AuthorBucket(old(Model()), author, now)])
    {
      if author !in authorBuckets {
        var b := new TokenBucket(config.authorWritesPerHour, HOUR, now);
        authorBuckets := authorBuckets[author := b];
        Repr := Repr + {b};
      }
    }

    method TakeMethodToken(name: string, limit: nat, now: real) returns (delay: Option<nat>)
      requires Valid() && limit == MethodLimit(config, name)
      modifies this, Repr
      ensures Valid() && fresh(Repr - old(Repr)) && name in methodBuckets
      ensures var r := TryConsume(MethodBucket(old(Model()), name, now), now);
              delay == r.1 && Model() == old(Model()).(methods := old(Model()).methods[name := r.0])
    {
      hide MethodLimit, TryConsume, MethodBucket;
      EnsureMethodBucket(name, limit, now);
      assert methodBuckets[name].Model() == Model().methods[name];
      delay := methodBuckets[name].DoTryConsume(now);
    }

    method TakeAuthorToken(author: string, now: real) returns (delay: Option<nat>)
      requires Valid()
      modifies this, Repr
      ensures Valid() && fresh(Repr - old(Repr)) && methodBuckets == old(methodBuckets)
      ensures var r := TryConsume(AuthorBucket(old(Model()), author, now), now);
              delay == r.1 && Model() == old(Model()).(authors := old(Model()).authors[author := r.0])
    {
      hide TryConsume, AuthorBucket;
      EnsureAuthorBucket(author, now);
      assert authorBuckets[author].Model() == Model().authors[author];
      delay := authorBuckets[author].DoTryConsume(now);
    }

    method RefundMethodToken(name: string)
      requires Valid() && name in methodBuckets
      modifies Repr
      ensures Valid() && methodBuckets == old(methodBuckets) && Repr == old(Repr)
      ensures Model() == old(Model()).(methods := old(Model()).methods[name := Refund(old(Model()).methods[name])])
    {
      var b := methodBuckets[name];
      b.tokens := MinReal(b.tokens + 1.0, b.capacity);
    }

    method CheckMethod(name: string, author: Option<string>, now: real) returns (denial: Option<Denial>)
      requires Valid()
      modifies this, Repr
      ensures Valid() && fresh(Repr - old(Repr))
      ensures (Model(), denial) == Check(old(Model()), Call(name, author, now))
    {
      hide Classify, MethodLimit, TryConsume;
      var class_ := Classify(name);
      if class_ == Subscription {
        return None;
      }
      var limit := MethodLimit(config, name);
      var delay := TakeMethodToken(name, limit, now);
      if delay.Some? {
        return Some(MethodBudgetExceeded(name, limit, delay.value));
      }
      if class_ == Write && author.Some? {
        delay := TakeAuthorToken(author.value, now);
        if delay.Some? {
          RefundMethodToken(name);
          return Some(AuthorQuotaExceeded(author.value, config.authorWritesPerHour, delay.value));
        }
      }
      return None;
    }
  }

  // ---- What a denied call leaves behind ----

  ghost predicate ValidLimiter(l: Limiter) {
    && (forall m | m in l.methods :: var b := l.methods[m];
          b.Valid() && b.capacity == MethodLimit(l.config, m) as real && b.period == 1.0)
    && (forall a | a in l.authors :: var b := l.authors[a];
          b.Valid() && b.capacity == l.config.authorWritesPerHour as real && b.period == HOUR)
  }

  lemma MethodBucketLimit(l: Limiter, name: string, now: real)
    requires ValidLimiter(l)
    ensures var b := MethodBucket(l, name, now);
            b.Valid() && b.capacity == MethodLimit(l.config, name) as real && b.period == 1.0
  {
    hide MethodLimit;
  }

  lemma AuthorBucketLimit(l: Limiter, author: string, now: real)
    requires ValidLimiter(l)
    ensures var b := AuthorBucket(l, author, now);
            b.Valid() && b.capacity == l.config.authorWritesPerHour as real && b.period == HOUR
  {
    hide MethodLimit;
  }

  lemma ConsumeKeepsValid(b: Bucket, now: real)
    requires b.Valid()
    ensures var (b', _) := TryConsume(b, now);
            && b'.Valid() && b'.capacity == b.capacity && b'.period == b.period
            && Refund(b').Valid() && Refund(b').capacity == b.capacity && Refund(b').period == b.period
  {
    RefillKeepsValid(b, now);
    hide Refill, WaitMs;
  }

  lemma CheckKeepsValid(l: Limiter, c: Call)
    requires ValidLimiter(l)
    ensures ValidLimiter(Check(l, c).0) && Check(l, c).0.config == l.config
  {
    hide Classify, MethodLimit;
    MethodBucketLimit(l, c.name, c.now);
    ConsumeKeepsValid(MethodBucket(l, c.name, c.now), c.now);
    if c.author.Some? {
      AuthorBucketLimit(l, c.author.value, c.now);
      ConsumeKeepsValid(AuthorBucket(l, c.author.value, c.now), c.now);
    }
    hide TryConsume, Refund, MethodBucket, AuthorBucket;
  }

  /** A denied call costs nothing: both buckets are left at their refilled level, refund path included. */
  lemma DeniedCallCostsNothing(l: Limiter, c: Call)
    requires ValidLimiter(l) && Check(l, c).1.Some?
    ensures var l' := Check(l, c).0;
            && l'.methods == l.methods[c.name := Refill(MethodBucket(l, c.name, c.now), c.now)]
            && (Check(l, c).1.value.MethodBudgetExceeded? ==> l'.authors == l.authors)
            && (Check(l, c).1.value.AuthorQuotaExceeded? ==>
                  && c.author.Some?
                  && l'.authors == l.authors[c.author.value := Refill(AuthorBucket(l, c.author.value, c.now), c.now)])
  {
    hide Classify, MethodLimit;
    RefillKeepsValid(MethodBucket(l, c.name, c.now), c.now);
    hide WaitMs;
  }

  lemma RefillsNothingIff(b: Bucket, now: real)
    ensures Refill(b, now) == b <==> now <= b.lastRefill
  {
  }

  lemma WritesNothingIff(m: map<string, Bucket>, k: string, b: Bucket)
    ensures m[k := b] == m <==> Lookup(m, k) == Some(b)
  {
    assert m[k := b][k] == b;
  }

  /** A call the method budget refuses leaves the limiter as it was exactly when its bucket is there and not behind
      the clock. */
  lemma MethodDenialIsPureIff(l: Limiter, c: Call)
    requires Check(l, c).1.Some? && Check(l, c).1.value.MethodBudgetExceeded?
    ensures Check(l, c).0 == l <==> c.name in l.methods && c.now <= l.methods[c.name].lastRefill
  {
    hide Classify, MethodLimit, WaitMs, Refill;
    var b := MethodBucket(l, c.name, c.now);
    RefillsNothingIff(b, c.now);
    WritesNothingIff(l.methods, c.name, Refill(b, c.now));
  }

  /** A call the author quota refuses: the same, for both buckets. */
  lemma AuthorDenialIsPureIff(l: Limiter, c: Call)
    requires ValidLimiter(l) && Check(l, c).1.Some? && Check(l, c).1.value.AuthorQuotaExceeded?
    ensures c.author.Some?
    ensures var a := c.author.value;
            Check(l, c).0 == l <==>
              && c.name in l.methods && c.now <= l.methods[c.name].lastRefill
              && a in l.authors && c.now <= l.authors[a].lastRefill
  {
    DeniedCallCostsNothing(l, c);
    var a := c.author.value;
    var b, q := MethodBucket(l, c.name, c.now), AuthorBucket(l, a, c.now);
    RefillsNothingIff(b, c.now);
    RefillsNothingIff(q, c.now);
    WritesNothingIff(l.methods, c.name, Refill(b, c.now));
    WritesNothingIff(l.authors, a, Refill(q, c.now));
    CheckKeepsValid(l, c);
    hide Classify, MethodLimit, WaitMs, Refill, Refund, TryConsume, Check, ValidLimiter;
  }

  /** The documentation promises that a denial leaves the refill state alone; here one moves both level and clock. */
  lemma DenialRefills() returns (config: Config, calls: seq<Call>, c: Call)
    ensures InTime(calls, 0.0, c.now)
    ensures var l := After(Limiter(config, map[], map[]), calls);
            && Check(l, c).1.Some? && Check(l, c).0 != l
            && c.name in l.methods && c.name in Check(l, c).0.methods
            && l.methods[c.name].tokens < Check(l, c).0.methods[c.name].tokens
  {
    config, calls, c := Config(1, 1, 1, map[]), [Call("chain_query", None, 0.0)], Call("chain_query", None, 0.25);
    var l0 := Limiter(config, map[], map[]);
    var l := Check(l0, calls[0]).0;
    assert calls[1..] == [] && After(l0, calls) == After(l, []) == l;
    assert Classify("chain_query") == Read;
    assert l.methods == map["chain_query" := Bucket(1.0, 1.0, 0.0, 0.0)];
    assert Refill(l.methods["chain_query"], 0.25).tokens == 0.25;
  }

  // ---- The bound over a window ----

  function After(l: Limiter, calls: seq<Call>): Limiter
    decreases |calls|
  {
    if calls == [] then l else After(Check(l, calls[0]).0, calls[1..])
  }

  /** The calls come in time order, from `from` on and up to `to`. */
  predicate InTime(calls: seq<Call>, from: real, to: real) {
    if calls == [] then from <= to else from <= calls[0].now && InTime(calls[1..], calls[0].now, to)
  }

  /** How many calls of method `name` were let through. */
  function AllowedFor(l: Limiter, calls: seq<Call>, name: string): nat
    decreases |calls|
  {
    if calls == [] then 0 else
    (if calls[0].name == name && Check(l, calls[0]).1.None? then 1 else 0) +
    AllowedFor(Check(l, calls[0]).0, calls[1..], name)
  }

  predicate WriteBy(c: Call, author: string) { Classify(c.name) == Write && c.author == Some(author) }

  /** How many writes of `author` were let through. */
  function AllowedWrites(l: Limiter, calls: seq<Call>, author: string): nat
    decreases |calls|
  {
    if calls == [] then 0 else
    (if WriteBy(calls[0], author) && Check(l, calls[0]).1.None? then 1 else 0) +
    AllowedWrites(Check(l, calls[0]).0, calls[1..], author)
  }

  /** All the tokens a bucket can hand out from `from` up to `to`. */
  function Balance(b: Bucket, from: real, to: real): real
    requires b.period > 0.0
  {
    Refill(b, from).tokens + (to - from) * (b.capacity / b.period)
  }

  lemma BalanceBound(b: Bucket, from: real, to: real)
    requires b.Valid() && b.period > 0.0 && from <= to
    ensures 0.0 <= Balance(b, from, to) <= b.capacity + (to - from) * (b.capacity / b.period)
  {
    RefillKeepsValid(b, from);
    NonNegativeProduct(to - from, b.capacity / b.period);
  }

  lemma BalanceLater(b: Bucket, from: real, now: real, to: real)
    requires b.Valid() && b.period > 0.0 && b.lastRefill <= from <= now <= to
    ensures Balance(b, now, to) <= Balance(b, from, to)
  {
    var rate := b.capacity / b.period;
    assert (to - from) * rate == (to - now) * rate + (now - from) * rate;
    assert (now - b.lastRefill) * rate == (now - from) * rate + (from - b.lastRefill) * rate;
    NonNegativeProduct(now - from, rate);
  }

  lemma FreshBalanceLater(capacity: nat, period: real, from: real, now: real, to: real)
    requires period > 0.0 && from <= now <= to
    ensures Balance(NewBucket(capacity, period, now), now, to) <= Balance(NewBucket(capacity, period, from), from, to)
  {
    ScaleMonotone(to - now, to - from, capacity as real / period);
  }

  ghost predicate Settled(l: Limiter, t: real) {
    && (forall m :: m in l.methods ==> l.methods[m].lastRefill <= t)
    && (forall a :: a in l.authors ==> l.authors[a].lastRefill <= t)
  }

  lemma CheckSettles(l: Limiter, c: Call, from: real)
    requires Settled(l, from) && from <= c.now
    ensures Settled(Check(l, c).0, c.now)
  {
    hide Classify, MethodLimit, WaitMs;
  }

  lemma ConsumePays(b: Bucket, now: real, to: real)
    requires b.Valid() && b.period > 0.0
    ensures Balance(Refill(b, now), now, to) == Balance(b, now, to)
    ensures var (b', delay) := TryConsume(b, now);
            && b'.period == b.period
            && Balance(b', now, to) + (if delay.None? then 1.0 else 0.0) == Balance(b, now, to)
  {
    RefillKeepsValid(b, now);
  }

  /** A call that is let through is paid from its method's balance; no other call costs that balance anything. */
  lemma MethodPays(l: Limiter, c: Call, name: string, from: real, to: real)
    requires ValidLimiter(l) && Settled(l, from) && from <= c.now <= to && Classify(name) != Subscription
    ensures Balance(MethodBucket(Check(l, c).0, name, c.now), c.now, to)
            + (if c.name == name && Check(l, c).1.None? then 1.0 else 0.0)
            <= Balance(MethodBucket(l, name, from), from, to)
  {
    hide Classify, MethodLimit;
    var b := MethodBucket(l, name, c.now);
    if name in l.methods {
      BalanceLater(b, from, c.now, to);
    } else {
      FreshBalanceLater(MethodLimit(l.config, name), 1.0, from, c.now, to);
    }
    ConsumePays(b, c.now, to);
    if Check(l, c).1.Some? {
      DeniedCallCostsNothing(l, c);
    }
    hide Balance, Refill, TryConsume;
  }

  lemma AuthorPays(l: Limiter, c: Call, author: string, from: real, to: real)
    requires ValidLimiter(l) && Settled(l, from) && from <= c.now <= to
    ensures Balance(AuthorBucket(Check(l, c).0, author, c.now), c.now, to)
            + (if WriteBy(c, author) && Check(l, c).1.None? then 1.0 else 0.0)
            <= Balance(AuthorBucket(l, author, from), from, to)
  {
    hide Classify, MethodLimit;
    var b := AuthorBucket(l, author, c.now);
    if author in l.authors {
      BalanceLater(b, from, c.now, to);
    } else {
      FreshBalanceLater(l.config.authorWritesPerHour, HOUR, from, c.now, to);
    }
    ConsumePays(b, c.now, to);
    hide Balance, Refill, TryConsume;
  }

  lemma {:induction false} InTimeSpan(calls: seq<Call>, from: real, to: real)
    requires InTime(calls, from, to)
    ensures from <= to
  {
    if calls != [] { InTimeSpan(calls[1..], calls[0].now, to); }
  }

  lemma {:induction false} MethodAllowance(l: Limiter, calls: seq<Call>, name: string, from: real, to: real)
    requires ValidLimiter(l) && Settled(l, from) && InTime(calls, from, to) && Classify(name) != Subscription
    ensures AllowedFor(l, calls, name) as real <= Balance(MethodBucket(l, name, from), from, to)
    decreases |calls|
  {
    InTimeSpan(calls, from, to);
    if calls == [] {
      BalanceBound(MethodBucket(l, name, from), from, to);
    } else {
      var c := calls[0];
      InTimeSpan(calls[1..], c.now, to);
      CheckKeepsValid(l, c);
      CheckSettles(l, c, from);
      MethodPays(l, c, name, from, to);
      MethodAllowance(Check(l, c).0, calls[1..], name, c.now, to);
    }
  }

  lemma {:induction false} AuthorAllowance(l: Limiter, calls: seq<Call>, author: string, from: real, to: real)
    requires ValidLimiter(l) && Settled(l, from) && InTime(calls, from, to)
    ensures AllowedWrites(l, calls, author) as real <= Balance(AuthorBucket(l, author, from), from, to)
    decreases |calls|
  {
    InTimeSpan(calls, from, to);
    if calls == [] {
      BalanceBound(AuthorBucket(l, author, from), from, to);
    } else {
      var c := calls[0];
      InTimeSpan(calls[1..], c.now, to);
      CheckKeepsValid(l, c);
      CheckSettles(l, c, from);
      AuthorPays(l, c, author, from, to);
      AuthorAllowance(Check(l, c).0, calls[1..], author, c.now, to);
    }
  }

  lemma {:induction false} AfterKeeps(l: Limiter, calls: seq<Call>, from: real, to: real)
    requires ValidLimiter(l) && Settled(l, from) && InTime(calls, from, to)
    ensures ValidLimiter(After(l, calls)) && Settled(After(l, calls), to) && After(l, calls).config == l.config
    decreases |calls|
  {
    InTimeSpan(calls, from, to);
    if calls != [] {
      CheckKeepsValid(l, calls[0]);
      CheckSettles(l, calls[0], from);
      AfterKeeps(Check(l, calls[0]).0, calls[1..], calls[0].now, to);
    }
  }

  lemma ScaledQuota(q: real, t: real, p: real)
    requires p > 0.0
    ensures t * (q / p) == q * t / p
  {
  }

  lemma OverOne(x: real)
    ensures x / 1.0 == x
  {
  }

  lemma FullBalance(b: Bucket, quota: real, period: real, from: real, to: real)
    requires b.Valid() && b.capacity == quota && b.period == period > 0.0 && from <= to
    ensures Balance(b, from, to) <= quota + quota * (to - from) / period
  {
    BalanceBound(b, from, to);
    hide Balance;
    var rate := quota / period;
    assert b.capacity / b.period == rate;
    assert Balance(b, from, to) <= quota + (to - from) * rate;
    ScaledQuota(quota, to - from, period);
  }

  lemma MethodBoundFrom(l: Limiter, window: seq<Call>, start: real, end: real, name: string)
    requires ValidLimiter(l) && Settled(l, start) && InTime(window, start, end) && Classify(name) != Subscription
    ensures var cap := MethodLimit(l.config, name) as real;
            AllowedFor(l, window, name) as real <= cap + cap * (end - start)
  {
    hide ValidLimiter, Settled, Classify, AllowedFor;
    InTimeSpan(window, start, end);
    hide InTime;
    MethodAllowance(l, window, name, start, end);
    MethodBucketLimit(l, name, start);
    hide MethodBucket;
    var cap := MethodLimit(l.config, name) as real;
    FullBalance(MethodBucket(l, name, start), cap, 1.0, start, end);
    OverOne(cap * (end - start));
    hide Balance, MethodLimit;
  }

  lemma AuthorBoundFrom(l: Limiter, window: seq<Call>, start: real, end: real, author: string)
    requires ValidLimiter(l) && Settled(l, start) && InTime(window, start, end)
    ensures var quota := l.config.authorWritesPerHour as real;
            AllowedWrites(l, window, author) as real <= quota + quota * (end - start) / HOUR
  {
    hide ValidLimiter, Settled, AllowedWrites;
    InTimeSpan(window, start, end);
    hide InTime;
    AuthorAllowance(l, window, author, start, end);
    AuthorBucketLimit(l, author, start);
    hide AuthorBucket;
    FullBalance(AuthorBucket(l, author, start), l.config.authorWritesPerHour as real, HOUR, start, end);
    hide Balance;
  }

  /** After any history on a new limiter, a method is let through at most cap + cap * T times in T seconds. */
  lemma MethodWindowBound(
    config: Config, past: seq<Call>, window: seq<Call>, origin: real, start: real, end: real, name: string)
    requires InTime(past, origin, start) && InTime(window, start, end) && Classify(name) != Subscription
    ensures var cap := MethodLimit(config, name) as real;
            AllowedFor(After(Limiter(config, map[], map[]), past), window, name) as real <= cap + cap * (end - start)
  {
    hide Classify, MethodLimit, AllowedFor, InTime, After;
    AfterKeeps(Limiter(config, map[], map[]), past, origin, start);
    MethodBoundFrom(After(Limiter(config, map[], map[]), past), window, start, end, name);
  }

  /** ... and an author's writes at most quota + quota * T / 3600 times. */
  lemma AuthorWindowBound(
    config: Config, past: seq<Call>, window: seq<Call>, origin: real, start: real, end: real, author: string)
    requires InTime(past, origin, start) && InTime(window, start, end)
    ensures var quota := config.authorWritesPerHour as real;
            AllowedWrites(After(Limiter(config, map[], map[]), past), window, author) as real
            <= quota + quota * (end - start) / HOUR
  {
    hide Classify, MethodLimit, AllowedWrites, InTime, After;
    AfterKeeps(Limiter(config, map[], map[]), past, origin, start);
    AuthorBoundFrom(After(Limiter(config, map[], map[]), past), window, start, end, author);
  }
}
