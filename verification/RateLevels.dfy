/** Exactly which calls apps/mirage-rs/src/rate_limit.rs lets through, from the token levels of its buckets. */
module RateLevels {
  import opened Prelude
  import opened RateLimit

  // ---- What a limiter promises, from its configuration ----

  const READS := {"chain_searchInsights", "chain_queryPheromones", "chain_getInsight", "chain_stats", "chain_version",
                  "chain_listKinds", "chain_methodSchema"}

  const WRITES := {"chain_postInsight", "chain_confirmInsight", "chain_challengeInsight", "chain_depositPheromone",
                   "chain_applyDecay"}

  const SUBSCRIPTIONS := {"chain_subscribePheromones", "chain_subscribeInsights", "chain_unsubscribe"}

  /** The known names fall into three classes; every other name is a read. */
  lemma Classes(name: string)
    ensures name in WRITES <==> Classify(name) == Write
    ensures name in SUBSCRIPTIONS <==> Classify(name) == Subscription
    ensures name in READS || name !in WRITES + SUBSCRIPTIONS ==> Classify(name) == Read
  {
  }

  /** Calls a second for one method, when it is not a subscription. */
  function Budget(config: Config, name: string): nat {
    if name in config.overrides then config.overrides[name]
    else if name in WRITES then config.writeRps
    else config.readRps
  }

  lemma BudgetIsLimit(config: Config, name: string)
    requires name !in SUBSCRIPTIONS
    ensures MethodLimit(config, name) == Budget(config, name)
  {
    Classes(name);
    hide Classify;
  }

  /** Tokens at hand at `now`: `limit` of them come in every `period`, and no more than `limit` are kept. */
  function Level(b: Option<Bucket>, limit: nat, period: real, now: real): real
    requires period > 0.0
  {
    if b.None? then limit as real
    else
      var waited := if now > b.value.lastRefill then now - b.value.lastRefill else 0.0;
      var grown := b.value.tokens + waited * (limit as real / period);
      if grown > limit as real then limit as real else grown
  }

  function MethodLevel(l: Limiter, name: string, now: real): real {
    Level(Lookup(l.methods, name), Budget(l.config, name), 1.0, now)
  }

  function AuthorLevel(l: Limiter, author: string, now: real): real {
    Level(Lookup(l.authors, author), l.config.authorWritesPerHour, 3600.0, now)
  }

  ghost predicate Asks(c: Call, author: string) { c.name in WRITES && c.author == Some(author) }

  // ---- The answer ----

  lemma RefillIsLevel(b: Option<Bucket>, limit: nat, period: real, now: real)
    requires period > 0.0
    requires b.Some? ==> b.value.Valid() && b.value.capacity == limit as real && b.value.period == period
    ensures var r := Refill(if b.Some? then b.value else NewBucket(limit, period, now), now);
            && r.tokens == Level(b, limit, period, now) && r.lastRefill >= now
            && r.capacity == limit as real && r.period == period
  {
  }

  lemma MethodRefill(l: Limiter, name: string, now: real)
    requires ValidLimiter(l) && name !in SUBSCRIPTIONS
    ensures Refill(MethodBucket(l, name, now), now).tokens == MethodLevel(l, name, now)
  {
    BudgetIsLimit(l.config, name);
    hide Budget, MethodLimit;
    RefillIsLevel(Lookup(l.methods, name), Budget(l.config, name), 1.0, now);
    hide Refill, Level;
  }

  lemma AuthorRefill(l: Limiter, author: string, now: real)
    requires ValidLimiter(l)
    ensures Refill(AuthorBucket(l, author, now), now).tokens == AuthorLevel(l, author, now)
  {
    hide MethodLimit;
    RefillIsLevel(Lookup(l.authors, author), l.config.authorWritesPerHour, HOUR, now);
    hide Refill, Level;
  }

  /** A call is let through exactly when its method has a token at hand and, for a write, so has its author. */
  lemma LetThroughIff(l: Limiter, c: Call)
    requires ValidLimiter(l)
    ensures Check(l, c).1.None?
            <==> c.name in SUBSCRIPTIONS
                 || (MethodLevel(l, c.name, c.now) >= 1.0
                     && forall a :: Asks(c, a) ==> AuthorLevel(l, a, c.now) >= 1.0)
    ensures Check(l, c).1.Some? ==>
              var d := Check(l, c).1.value;
              if MethodLevel(l, c.name, c.now) < 1.0 then
                d.MethodBudgetExceeded? && d.name == c.name && d.limitRps == Budget(l.config, c.name)
              else
                d.AuthorQuotaExceeded? && Asks(c, d.author) && d.limitPerHour == l.config.authorWritesPerHour
  {
    Classes(c.name);
    hide Classify;
    if c.name !in SUBSCRIPTIONS {
      MethodRefill(l, c.name, c.now);
      BudgetIsLimit(l.config, c.name);
      if c.author.Some? {
        AuthorRefill(l, c.author.value, c.now);
      }
    }
    hide MethodLimit, Budget, MethodLevel, AuthorLevel, MethodBucket, AuthorBucket, Refill, WaitMs, Refund;
  }

  // ---- The levels it leaves ----

  ghost predicate Charged(l: Limiter, c: Call) { c.name !in SUBSCRIPTIONS && Check(l, c).1.None? }

  /** A level that was spent from and then waited for. */
  function Later(level: real, limit: nat, period: real, waited: real): real
    requires period > 0.0
  {
    MinReal(level + waited * (limit as real / period), limit as real)
  }

  lemma LevelLater(b: Bucket, limit: nat, period: real, now: real, t: real)
    requires period > 0.0 && b.Valid() && b.capacity == limit as real && b.period == period
    requires b.lastRefill == now <= t
    ensures Level(Some(b), limit, period, t) == Later(b.tokens, limit, period, t - now)
  {
  }

  lemma UntouchedLater(b: Option<Bucket>, limit: nat, period: real, now: real, t: real)
    requires period > 0.0 && now <= t
    requires b.Some? ==> b.value.Valid() && b.value.capacity == limit as real && b.value.lastRefill <= now
    ensures Level(b, limit, period, t) == Later(Level(b, limit, period, now), limit, period, t - now)
  {
    var rate := limit as real / period;
    NonNegativeProduct(t - now, rate);
    if b.Some? {
      var last := b.value.lastRefill;
      assert (t - last) * rate == (t - now) * rate + (now - last) * rate;
    }
  }

  /** A method's level afterwards: one less for its own call if that was let through, and refilled since. */
  lemma MethodLevelAfter(l: Limiter, c: Call, name: string, t: real)
    requires ValidLimiter(l) && Settled(l, c.now) && c.now <= t && name !in SUBSCRIPTIONS
    ensures var spent := if Charged(l, c) && c.name == name then 1.0 else 0.0;
            MethodLevel(Check(l, c).0, name, t)
            == Later(MethodLevel(l, name, c.now) - spent, Budget(l.config, name), 1.0, t - c.now)
  {
    Classes(c.name);
    BudgetIsLimit(l.config, name);
    CheckKeepsValid(l, c);
    MethodRefill(l, name, c.now);
    hide Classify, MethodLimit, Budget, WaitMs, Level, Later;
    var limit, b := Budget(l.config, name), MethodBucket(l, name, c.now);
    if c.name != name || c.name in SUBSCRIPTIONS {
      UntouchedLater(Lookup(l.methods, name), limit, 1.0, c.now, t);
    } else {
      RefillIsLevel(Lookup(l.methods, name), limit, 1.0, c.now);
      if Check(l, c).1.Some? {
        DeniedCallCostsNothing(l, c);
        RefillKeepsValid(b, c.now);
      }
      assert Check(l, c).0.methods[name].lastRefill == c.now;
      LevelLater(Check(l, c).0.methods[name], limit, 1.0, c.now, t);
    }
  }

  /** An author's level: one less for each write let through. */
  lemma AuthorLevelAfter(l: Limiter, c: Call, author: string, t: real)
    requires ValidLimiter(l) && Settled(l, c.now) && c.now <= t
    ensures var spent := if Charged(l, c) && Asks(c, author) then 1.0 else 0.0;
            AuthorLevel(Check(l, c).0, author, t)
            == Later(AuthorLevel(l, author, c.now) - spent, l.config.authorWritesPerHour, 3600.0, t - c.now)
  {
    Classes(c.name);
    CheckKeepsValid(l, c);
    AuthorRefill(l, author, c.now);
    hide Classify, MethodLimit, Budget, WaitMs, Level, Later;
    var quota, b := l.config.authorWritesPerHour, AuthorBucket(l, author, c.now);
    if Lookup(Check(l, c).0.authors, author) == Lookup(l.authors, author) && !(Charged(l, c) && Asks(c, author)) {
      UntouchedLater(Lookup(l.authors, author), quota, HOUR, c.now, t);
    } else {
      RefillIsLevel(Lookup(l.authors, author), quota, HOUR, c.now);
      assert Check(l, c).0.authors[author].lastRefill == c.now;
      LevelLater(Check(l, c).0.authors[author], quota, HOUR, c.now, t);
    }
  }

  // ---- Bursts ----

  function Repeated(name: string, now: real, n: nat): seq<Call> {
    if n == 0 then [] else [Call(name, None, now)] + Repeated(name, now, n - 1)
  }

  /** Of calls without an author at one instant, as many are let through as there are whole tokens. */
  lemma {:induction false} BurstPasses(l: Limiter, name: string, now: real, n: nat)
    requires ValidLimiter(l) && Settled(l, now) && name !in SUBSCRIPTIONS
    ensures AllowedFor(l, Repeated(name, now, n), name) == Min(n, MethodLevel(l, name, now).Floor)
    decreases n
  {
    hide Check, ValidLimiter, Settled, MethodLevel, Budget;
    LevelBounds(l, name, now);
    if n > 0 {
      var c := Call(name, None, now);
      var l' := Check(l, c).0;
      OneOfBurst(l, name, now);
      CheckKeepsValid(l, c);
      CheckSettles(l, c, now);
      BurstPasses(l', name, now, n - 1);
      var calls := Repeated(name, now, n);
      assert calls[0] == c && calls[1..] == Repeated(name, now, n - 1);
      assert AllowedFor(l, calls, name) == (if Check(l, c).1.None? then 1 else 0) + AllowedFor(l', calls[1..], name);
      FloorLess(MethodLevel(l, name, now));
    }
  }

  lemma FloorLess(x: real)
    ensures (x - 1.0).Floor == x.Floor - 1
  {
  }

  lemma OneOfBurst(l: Limiter, name: string, now: real)
    requires ValidLimiter(l) && Settled(l, now) && name !in SUBSCRIPTIONS
    ensures var (l', denial) := Check(l, Call(name, None, now));
            && (denial.None? <==> MethodLevel(l, name, now) >= 1.0)
            && MethodLevel(l', name, now) == MethodLevel(l, name, now) - if denial.None? then 1.0 else 0.0
  {
    hide Check, ValidLimiter, Settled, MethodLevel, Budget;
    var c := Call(name, None, now);
    LevelBounds(l, name, now);
    LetThroughIff(l, c);
    MethodLevelAfter(l, c, name, now);
  }

  lemma LevelBounds(l: Limiter, name: string, now: real)
    requires ValidLimiter(l) && name !in SUBSCRIPTIONS
    ensures 0.0 <= MethodLevel(l, name, now) <= Budget(l.config, name) as real
  {
    BudgetIsLimit(l.config, name);
    hide Budget, MethodLimit;
    RefillIsLevel(Lookup(l.methods, name), Budget(l.config, name), 1.0, now);
    if name in l.methods {
      RefillKeepsValid(l.methods[name], now);
    }
  }

  /** So a new limiter lets through a budget of them: the override, else the write or the read budget. */
  lemma NewLimiterPasses(config: Config, name: string, now: real, n: nat)
    ensures var passed := AllowedFor(Limiter(config, map[], map[]), Repeated(name, now, n), name);
            passed == if name in SUBSCRIPTIONS then n
                      else if name in config.overrides then Min(n, config.overrides[name])
                      else Min(n, if name in WRITES then config.writeRps else config.readRps)
  {
    var l := Limiter(config, map[], map[]);
    if name in SUBSCRIPTIONS {
      SubscriptionsPass(l, name, now, n);
    } else {
      BurstPasses(l, name, now, n);
    }
  }

  lemma {:induction false} SubscriptionsPass(l: Limiter, name: string, now: real, n: nat)
    requires name in SUBSCRIPTIONS
    ensures AllowedFor(l, Repeated(name, now, n), name) == n
    decreases n
  {
    if n > 0 {
      Classes(name);
      hide Classify;
      SubscriptionsPass(l, name, now, n - 1);
      assert Repeated(name, now, n)[1..] == Repeated(name, now, n - 1);
    }
  }

  // ---- The reported delay ----

  /** Of all whole milliseconds, the reported delay is the first after which a token is there. */
  lemma ReportedDelayIsLeast(b: Bucket, now: real, ms: nat)
    requires b.Valid() && b.capacity >= 1.0 && b.period > 0.0 && b.lastRefill <= now
    requires TryConsume(b, now).1.Some?
    ensures TryConsume(TryConsume(b, now).0, now + ms as real / 1000.0).1.None? <==> ms >= TryConsume(b, now).1.value
  {
    RefillKeepsValid(b, now);
    var r, wait := Refill(b, now), TryConsume(b, now).1.value;
    assert r.lastRefill == now;
    if ms >= wait {
      assert wait >= 1;
      ReportedDelaySuffices(b, now, now + ms as real / 1000.0);
    } else {
      TooEarly(r, ms);
    }
  }

  lemma TooEarly(r: Bucket, ms: nat)
    requires r.Valid() && r.tokens < 1.0 <= r.capacity && r.period > 0.0 && ms < WaitMs(r)
    ensures TryConsume(r, r.lastRefill + ms as real / 1000.0).1.Some?
  {
    var rate := r.capacity / r.period;
    Positive(r.capacity, r.period);
    var needed := (1.0 - r.tokens) / rate;
    assert needed * rate == 1.0 - r.tokens && needed > 0.0;
    assert needed * 1000.0 > ms as real;
    ScaleStrict(ms as real / 1000.0, needed, rate);
    hide WaitMs;
    assert ms > 0 ==> r.tokens + ms as real / 1000.0 * rate < 1.0;
  }

  lemma ScaleStrict(x: real, y: real, rate: real)
    requires x < y && 0.0 < rate
    ensures x * rate < y * rate
  {
    assert (y - x) * rate > 0.0;
  }
}
