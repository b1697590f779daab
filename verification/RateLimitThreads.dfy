/**
 The limiter of apps/mirage-rs/src/rate_limit.rs under threads: a call takes its method token, its author token
 and, if that one is refused, gives the method token back, each under its own lock. Every thread has read its
 own clock, so the readings come in any order.
 */
module RateLimitThreads {
  import opened Prelude
  import opened RateLimit

  /** How far a call has come; `now` is its own clock reading. */
  datatype Phase =
    | Holding(name: string, now: real, author: string)
    | Refused(name: string, now: real, author: string)
    | GivenBack(name: string, now: real, author: string)
    | Denied(name: string, now: real)
    | Allowed(name: string, now: real, writer: Option<string>)

  datatype Threads = Threads(limiter: Limiter, calls: map<nat, Phase>)

  /** `born` is when a bucket made on first sight reads its clock. */
  datatype Step =
    | TakeMethod(call: nat, name: string, author: Option<string>, now: real, born: real)
    | TakeAuthor(call: nat, born: real)
    | GiveBack(call: nat, born: real)

  predicate Enabled(s: Threads, a: Step) {
    match a
    case TakeMethod(c, name, _, _, _) => c !in s.calls && Classify(name) != Subscription
    case TakeAuthor(c, _) => c in s.calls && s.calls[c].Holding?
    case GiveBack(c, _) => c in s.calls && s.calls[c].Refused?
  }

  function Do(s: Threads, a: Step): Threads
    requires Enabled(s, a)
  {
    var l := s.limiter;
    match a
    case TakeMethod(c, name, author, now, born) =>
      var (b, wait) := TryConsume(MethodBucket(l, name, born), now);
      var phase := if wait.Some? then Denied(name, now)
                   else if Classify(name) == Write && author.Some? then Holding(name, now, author.value)
                   else Allowed(name, now, None);
      Threads(l.(methods := l.methods[name := b]), s.calls[c := phase])
    case TakeAuthor(c, born) =>
      var h := s.calls[c];
      var (b, wait) := TryConsume(AuthorBucket(l, h.author, born), h.now);
      Threads(l.(authors := l.authors[h.author := b]),
              s.calls[c := if wait.Some? then Refused(h.name, h.now, h.author)
                else Allowed(h.name, h.now, Some(h.author))])
    case GiveBack(c, born) =>
      var p := s.calls[c];
      Threads(l.(methods := l.methods[p.name := Refund(MethodBucket(l, p.name, born))]),
              s.calls[c := GivenBack(p.name, p.now, p.author)])
  }

  /** `Some` state after a run of enabled steps. */
  function Exec(s: Threads, steps: seq<Step>): Option<Threads> {
    if steps == [] then Some(s) else
    var before := Exec(s, steps[..|steps| - 1]);
    if before.Some? && Enabled(before.value, steps[|steps| - 1]) then
      Some(Do(before.value, steps[|steps| - 1]))
    else
      None
  }

  /** One call whose three steps are not interrupted is a whole check. */
  lemma UninterruptedIsCheck(s: Threads, call: nat, c: Call)
    requires ValidLimiter(s.limiter) && call !in s.calls && Classify(c.name) != Subscription
    ensures var s1 := Do(s, TakeMethod(call, c.name, c.author, c.now, c.now));
            var s2 := if s1.calls[call].Holding? then Do(s1, TakeAuthor(call, c.now)) else s1;
            var s3 := if s2.calls[call].Refused? then Do(s2, GiveBack(call, c.now)) else s2;
            s3.limiter == Check(s.limiter, c).0 && (s3.calls[call].Allowed? <==> Check(s.limiter, c).1.None?)
  {
    hide Classify, MethodLimit, TryConsume, Refund;
  }

  // ---- What a bucket can still pay ----

  function MaxReal(a: real, b: real): real { if a < b then b else a }

  /** What `t` seconds bring at `c` tokens every `p` seconds. */
  function Gain(c: real, t: real, p: real): real
    requires p > 0.0
  {
    t * (c / p)
  }

  /** A full bucket and what it gains in `t` seconds, at `limit` a second or at `quota` an hour. */
  function PerSecond(limit: nat, t: real): real { limit as real + Gain(limit as real, t, 1.0) }

  function PerHour(quota: nat, t: real): real { quota as real + Gain(quota as real, t, HOUR) }

  /** The whole tokens of a level. */
  function Whole(x: real): real { x.Floor as real }

  lemma NextInteger(m: int, n: int)
    ensures m < n ==> (m + 1) as real <= n as real
  {
  }

  lemma FloorIs(x: real, n: int)
    requires n as real <= x < n as real + 1.0
    ensures x.Floor == n
  {
    NextInteger(x.Floor, n);
    NextInteger(n, x.Floor);
  }

  lemma WholeGrows(x: real, y: real)
    requires x <= y
    ensures Whole(x) <= Whole(y)
  {
    NextInteger(y.Floor, x.Floor);
  }

  lemma WholeLaws(x: real, y: real)
    requires x <= y
    ensures Whole(x) <= Whole(y) && Whole(y) <= y < Whole(y) + 1.0 && Whole(y - 1.0) == Whole(y) - 1.0
    ensures 0.0 <= y < 1.0 ==> Whole(y) == 0.0
    ensures 0.0 <= y ==> 0.0 <= Whole(y)
  {
    WholeGrows(x, y);
    FloorIs(y - 1.0, y.Floor - 1);
    if 0.0 <= y {
      FloorIs(0.0, 0);
      WholeGrows(0.0, y);
      if y < 1.0 {
        FloorIs(y, 0);
      }
    }
  }

  /**
   All the tokens a bucket can hand out to readings from `start` to `end`, in any order, if none is later. Once a later
   reading has refilled it, they gain nothing more, and a fraction of a token is of no use to them.
   */
  function Potential(b: Bucket, start: real, end: real): real
    requires b.period > 0.0
  {
    if b.lastRefill <= start then Refill(b, start).tokens + Gain(b.capacity, end - start, b.period)
    else if b.lastRefill <= end then b.tokens + Gain(b.capacity, end - b.lastRefill, b.period)
    else Whole(b.tokens)
  }

  lemma GainLaws(c: real, p: real, s: real, t: real)
    requires 0.0 <= c && 0.0 < p && 0.0 <= s <= t
    ensures 0.0 <= Gain(c, s, p) <= Gain(c, t, p)
    ensures Gain(c, t, p) == Gain(c, s, p) + Gain(c, t - s, p)
  {
    NonNegativeProduct(s, c / p);
    ScaleMonotone(s, t, c / p);
  }

  lemma NoGain(c: real, p: real)
    requires 0.0 < p
    ensures Gain(c, 0.0, p) == 0.0
  {
  }

  lemma RefillGains(b: Bucket, now: real)
    requires b.Valid() && b.period > 0.0 && b.lastRefill <= now
    ensures Refill(b, now).tokens == MinReal(b.tokens + Gain(b.capacity, now - b.lastRefill, b.period), b.capacity)
    ensures Refill(b, now).lastRefill == now
  {
    NoGain(b.capacity, b.period);
  }

  lemma PotentialBound(b: Bucket, start: real, end: real)
    requires b.Valid() && b.period > 0.0 && start <= end
    ensures 0.0 <= Potential(b, start, end) <= b.capacity + Gain(b.capacity, end - start, b.period)
  {
    RefillKeepsValid(b, start);
    GainLaws(b.capacity, b.period, 0.0, end - start);
    NoGain(b.capacity, b.period);
    WholeLaws(b.tokens, b.tokens);
    if start < b.lastRefill <= end {
      GainLaws(b.capacity, b.period, end - b.lastRefill, end - start);
    }
    hide Gain, Refill, Whole;
  }

  /** Refilling early costs nothing: readings up to `end`, those before `start` included, never raise the potential. */
  lemma RefillCosts(b: Bucket, now: real, start: real, end: real)
    requires b.Valid() && b.period > 0.0 && start <= end && now <= end
    ensures Potential(Refill(b, now), start, end) <= Potential(b, start, end)
  {
    hide Gain;
    RefillKeepsValid(b, now);
    if b.lastRefill < now && start < now {
      RefillInWindow(b, now, start, end);
    } else if b.lastRefill < now {
      RefillEarly(b, now, start);
    }
    hide Refill;
  }

  lemma RefillInWindow(b: Bucket, now: real, start: real, end: real)
    requires b.Valid() && b.period > 0.0 && start < now <= end && b.lastRefill < now
    ensures Potential(Refill(b, now), start, end) <= Potential(b, start, end)
  {
    hide Gain;
    var c, p := b.capacity, b.period;
    NoGain(c, p);
    RefillGains(b, now);
    GainLaws(c, p, end - now, end - start);
    assert (end - start) - (end - now) == now - start;
    if b.lastRefill <= start {
      RefillGains(b, start);
      GainLaws(c, p, start - b.lastRefill, now - b.lastRefill);
      assert (now - b.lastRefill) - (start - b.lastRefill) == now - start;
    } else {
      GainLaws(c, p, end - now, end - b.lastRefill);
      assert (end - b.lastRefill) - (end - now) == now - b.lastRefill;
    }
    hide Refill;
  }

  /** Refilling in two steps is refilling in one. */
  lemma RefillEarly(b: Bucket, now: real, start: real)
    requires b.Valid() && b.period > 0.0 && b.lastRefill <= now <= start
    ensures Refill(Refill(b, now), start).tokens == Refill(b, start).tokens && Refill(b, now).lastRefill <= start
  {
    hide Gain;
    RefillKeepsValid(b, now);
    RefillGains(b, now);
    RefillGains(b, start);
    RefillGains(Refill(b, now), start);
    GainLaws(b.capacity, b.period, now - b.lastRefill, start - b.lastRefill);
    assert (start - b.lastRefill) - (now - b.lastRefill) == start - now;
    GainLaws(b.capacity, b.period, 0.0, start - now);
    hide Refill;
  }

  lemma SpendCosts(b: Bucket, start: real, end: real)
    requires b.Valid() && b.period > 0.0 && b.tokens >= 1.0 && start <= end
    ensures var b' := b.(tokens := b.tokens - 1.0);
            && Potential(b', start, end) <= Potential(b, start, end)
            && (start <= b.lastRefill ==> Potential(b', start, end) + 1.0 == Potential(b, start, end))
  {
    hide Gain, Whole;
    var b' := b.(tokens := b.tokens - 1.0);
    WholeLaws(b.tokens, b.tokens);
    if b.lastRefill <= start {
      RefillGains(b, start);
      RefillGains(b', start);
      NoGain(b.capacity, b.period);
    }
    hide Refill;
  }

  /** A consume with a reading up to `end` raises nothing, and one with a reading in the window costs its token. */
  lemma ConsumeCosts(b: Bucket, now: real, start: real, end: real)
    requires b.Valid() && b.period > 0.0 && start <= end && now <= end
    ensures var (b', wait) := TryConsume(b, now);
            b'.period == b.period
            && Potential(b', start, end) + (if wait.None? && start <= now then 1.0 else 0.0) <= Potential(b, start, end)
  {
    hide Gain, WaitMs, Potential;
    RefillCosts(b, now, start, end);
    RefillKeepsValid(b, now);
    var r := Refill(b, now);
    assert now <= r.lastRefill;
    if r.tokens >= 1.0 {
      SpendCosts(r, start, end);
    }
    hide Refill;
  }

  /** What one late reading is worth to the readings in the window: a full bucket, less the token it takes itself. */
  function LateWorth(capacity: real): real { MaxReal(0.0, capacity - 1.0) }

  lemma LateConsumeAdds(b: Bucket, now: real, start: real, end: real)
    requires b.Valid() && b.period > 0.0 && start <= end < now
    ensures var (b', _) := TryConsume(b, now);
            b'.period == b.period && Potential(b', start, end) <= Potential(b, start, end) + LateWorth(b.capacity)
  {
    hide Gain, WaitMs, Whole;
    RefillKeepsValid(b, now);
    PotentialBound(b, start, end);
    var (b', _) := TryConsume(b, now);
    assert b'.lastRefill >= now > end;
    WholeLaws(b'.tokens, b'.tokens);
    hide Refill;
  }

  lemma RefundAdds(b: Bucket, start: real, end: real)
    requires b.Valid() && b.period > 0.0 && start <= end
    ensures Potential(Refund(b), start, end) <= Potential(b, start, end) + 1.0
  {
    hide Gain, Whole;
    if b.lastRefill <= start {
      RefillGains(b, start);
      RefillGains(Refund(b), start);
    }
    WholeLaws(Refund(b).tokens, b.tokens + 1.0);
    hide Refill;
  }

  /** A new bucket is worth most at the start of the window. */
  lemma FreshPotential(capacity: nat, period: real, start: real, born: real, end: real)
    requires period > 0.0 && start <= end
    ensures Potential(NewBucket(capacity, period, born), start, end)
            <= Potential(NewBucket(capacity, period, start), start, end)
  {
    hide Gain;
    PotentialBound(NewBucket(capacity, period, born), start, end);
  }

  // ---- One step ----

  predicate Between(t: real, start: real, end: real) { start <= t <= end }

  function MethodLeft(l: Limiter, name: string, start: real, end: real): real
    requires ValidLimiter(l)
  {
    Potential(MethodBucket(l, name, start), start, end)
  }

  function AuthorLeft(l: Limiter, author: string, start: real, end: real): real
    requires ValidLimiter(l)
  {
    Potential(AuthorBucket(l, author, start), start, end)
  }

  lemma StepKeepsValid(s: Threads, a: Step)
    requires ValidLimiter(s.limiter) && Enabled(s, a)
    ensures ValidLimiter(Do(s, a).limiter) && Do(s, a).limiter.config == s.limiter.config
  {
    var l := s.limiter;
    match a {
      case TakeMethod(c, name, author, now, born) =>
        MethodBucketLimit(l, name, born);
        ConsumeKeepsValid(MethodBucket(l, name, born), now);
      case TakeAuthor(c, born) =>
        AuthorBucketLimit(l, s.calls[c].author, born);
        ConsumeKeepsValid(AuthorBucket(l, s.calls[c].author, born), s.calls[c].now);
      case GiveBack(c, born) =>
        MethodBucketLimit(l, s.calls[c].name, born);
    }
    hide TryConsume, MethodBucket, AuthorBucket, Classify, MethodLimit;
  }

  /** Does the step take a token of this method with a reading in the window, or with a late one, or give one back? */
  predicate Takes(s: Threads, a: Step, name: string, start: real, end: real) {
    a.TakeMethod? && a.name == name && Between(a.now, start, end)
    && TryConsume(MethodBucket(s.limiter, name, a.born), a.now).1.None?
  }

  predicate ComesLate(a: Step, name: string, end: real) { a.TakeMethod? && a.name == name && a.now > end }

  predicate GivesBack(s: Threads, a: Step, name: string) {
    a.GiveBack? && a.call in s.calls && s.calls[a.call].name == name
  }

  predicate Asks(s: Threads, a: Step, author: string) {
    a.TakeAuthor? && a.call in s.calls && s.calls[a.call].Holding? && s.calls[a.call].author == author
  }

  predicate Writes(s: Threads, a: Step, author: string, start: real, end: real) {
    Asks(s, a, author) && Between(s.calls[a.call].now, start, end)
    && TryConsume(AuthorBucket(s.limiter, author, a.born), s.calls[a.call].now).1.None?
  }

  predicate AsksLate(s: Threads, a: Step, author: string, end: real) { Asks(s, a, author) && s.calls[a.call].now > end }

  function One(b: bool): nat { if b then 1 else 0 }

  lemma MethodStepPays(s: Threads, a: Step, name: string, start: real, end: real)
    requires ValidLimiter(s.limiter) && Enabled(s, a) && start <= end
    requires ValidLimiter(Do(s, a).limiter)
    ensures MethodLeft(Do(s, a).limiter, name, start, end) + One(Takes(s, a, name, start, end)) as real
            <= MethodLeft(s.limiter, name, start, end) + One(GivesBack(s, a, name)) as real
               + (if ComesLate(a, name, end) then LateWorth(MethodLimit(s.limiter.config, name) as real) else 0.0)
  {
    var l := s.limiter;
    var b := MethodBucket(l, name, a.born);
    MethodBucketLimit(l, name, a.born);
    MethodBucketLimit(l, name, start);
    FreshPotential(MethodLimit(l.config, name), 1.0, start, a.born, end);
    RefundAdds(b, start, end);
    if a.TakeMethod? {
      if a.now <= end {
        ConsumeCosts(b, a.now, start, end);
      } else {
        LateConsumeAdds(b, a.now, start, end);
      }
    }
    hide Potential, TryConsume, Refund, Classify, MethodLimit, NewBucket, ValidLimiter;
  }

  lemma AuthorStepPays(s: Threads, a: Step, author: string, start: real, end: real)
    requires ValidLimiter(s.limiter) && Enabled(s, a) && start <= end
    requires ValidLimiter(Do(s, a).limiter)
    ensures AuthorLeft(Do(s, a).limiter, author, start, end) + One(Writes(s, a, author, start, end)) as real
            <= AuthorLeft(s.limiter, author, start, end)
               + (if AsksLate(s, a, author, end) then LateWorth(s.limiter.config.authorWritesPerHour as real) else 0.0)
  {
    var l := s.limiter;
    AuthorBucketLimit(l, author, start);
    if a.TakeAuthor? {
      var b := AuthorBucket(l, author, a.born);
      AuthorBucketLimit(l, author, a.born);
      FreshPotential(l.config.authorWritesPerHour, HOUR, start, a.born, end);
      if s.calls[a.call].now <= end {
        ConsumeCosts(b, s.calls[a.call].now, start, end);
      } else {
        LateConsumeAdds(b, s.calls[a.call].now, start, end);
      }
    }
    hide Potential, TryConsume, Refund, Classify, MethodLimit, NewBucket, ValidLimiter;
  }

  // ---- Who holds tokens ----

  predicate HasToken(p: Phase) { p.Holding? || p.Refused? || p.Allowed? }

  predicate InFlight(p: Phase) { p.Holding? || p.Refused? }

  /** The calls of a method begun since `s`, with a reading in the window, whose token is spent. */
  function Holders(s: Threads, t: Threads, name: string, start: real, end: real): set<nat> {
    set c | c in t.calls && c !in s.calls && t.calls[c].name == name && HasToken(t.calls[c])
          && Between(t.calls[c].now, start, end)
  }

  /** The other calls of the method that have given their token back since: begun before `s`, or with another
      reading. */
  function BackSince(s: Threads, t: Threads, name: string, start: real, end: real): set<nat> {
    set c | c in t.calls && t.calls[c].GivenBack? && t.calls[c].name == name
            && (if c in s.calls then InFlight(s.calls[c]) else !Between(t.calls[c].now, start, end))
  }

  /** The calls of a method begun since `s` with a reading after the window. */
  function Late(s: Threads, t: Threads, name: string, end: real): set<nat> {
    set c | c in t.calls && c !in s.calls && t.calls[c].name == name && t.calls[c].now > end
  }

  /** The call has been to the bucket of this author. */
  predicate Asked(p: Phase, author: string) {
    ((p.Refused? || p.GivenBack?) && p.author == author) || (p.Allowed? && p.writer == Some(author))
  }

  /** The writes of an author let through since `s`, with a reading in the window. */
  function Writers(s: Threads, t: Threads, author: string, start: real, end: real): set<nat> {
    set c | c in t.calls && t.calls[c].Allowed? && t.calls[c].writer == Some(author)
          && Between(t.calls[c].now, start, end)
          && !(c in s.calls && Asked(s.calls[c], author))
  }

  /** The calls that went to the author's bucket since `s` with a reading after the window. */
  function LateWriters(s: Threads, t: Threads, author: string, end: real): set<nat> {
    set c | c in t.calls && Asked(t.calls[c], author) && t.calls[c].now > end
          && !(c in s.calls && Asked(s.calls[c], author))
  }

  /** Calls are never forgotten, keep their method and their reading, and stay as they are once they have ended. */
  ghost predicate Follows(s: Threads, t: Threads) {
    forall c :: c in s.calls ==>
      && c in t.calls && t.calls[c].name == s.calls[c].name && t.calls[c].now == s.calls[c].now
      && (!InFlight(s.calls[c]) ==> t.calls[c] == s.calls[c])
      && (s.calls[c].Refused? ==>
         (t.calls[c].Refused? || t.calls[c].GivenBack?) && t.calls[c].author == s.calls[c].author)
  }

  lemma FollowsStep(s: Threads, t: Threads, a: Step)
    requires Follows(s, t) && Enabled(t, a)
    ensures Follows(s, Do(t, a))
  {
    hide TryConsume, Classify, MethodBucket, AuthorBucket;
  }

  lemma TakeMoves(s: Threads, t: Threads, a: Step, name: string, start: real, end: real)
    requires Follows(s, t) && Enabled(t, a) && a.TakeMethod?
    ensures var u := Do(t, a);
            var h, l := Holders(s, t, name, start, end), Late(s, t, name, end);
            && a.call !in h && a.call !in l
            && Holders(s, u, name, start, end) == (if Takes(t, a, name, start, end) then h + {a.call} else h)
            && BackSince(s, u, name, start, end) == BackSince(s, t, name, start, end)
            && Late(s, u, name, end) == (if ComesLate(a, name, end) then l + {a.call} else l)
  {
    hide TryConsume, Classify, MethodBucket;
    var u := Do(t, a);
    assert a.call !in s.calls;
  }

  lemma AskMoves(s: Threads, t: Threads, a: Step, name: string, start: real, end: real)
    requires Follows(s, t) && Enabled(t, a) && a.TakeAuthor?
    ensures var u := Do(t, a);
            && Holders(s, u, name, start, end) == Holders(s, t, name, start, end)
            && BackSince(s, u, name, start, end) == BackSince(s, t, name, start, end)
            && Late(s, u, name, end) == Late(s, t, name, end)
  {
    hide TryConsume, AuthorBucket;
  }

  lemma BackMoves(s: Threads, t: Threads, a: Step, name: string, start: real, end: real)
    requires Follows(s, t) && Enabled(t, a) && a.GiveBack?
    ensures var u, c, back := Do(t, a), a.call, GivesBack(t, a, name);
            var h, b := Holders(s, t, name, start, end), BackSince(s, t, name, start, end);
            var counted := c !in s.calls && Between(t.calls[c].now, start, end);
            && (back && counted ==> c in h) && c !in b
            && Holders(s, u, name, start, end) == (if back && counted then h - {c} else h)
            && BackSince(s, u, name, start, end) == (if back && !counted then b + {c} else b)
            && Late(s, u, name, end) == Late(s, t, name, end)
  {
    hide MethodBucket, Refund;
    assert a.call in s.calls ==> InFlight(s.calls[a.call]);
  }

  lemma HoldersStep(s: Threads, t: Threads, a: Step, name: string, start: real, end: real)
    requires Follows(s, t) && Enabled(t, a)
    ensures var u := Do(t, a);
            && |Holders(s, u, name, start, end)| - |BackSince(s, u, name, start, end)|
               == |Holders(s, t, name, start, end)| - |BackSince(s, t, name, start, end)|
                  + One(Takes(t, a, name, start, end)) - One(GivesBack(t, a, name))
            && |Late(s, u, name, end)| == |Late(s, t, name, end)| + One(ComesLate(a, name, end))
  {
    hide Do, Holders, BackSince, Late, Follows, TryConsume;
    match a {
      case TakeMethod(_, _, _, _, _) => TakeMoves(s, t, a, name, start, end);
      case TakeAuthor(_, _) => AskMoves(s, t, a, name, start, end);
      case GiveBack(_, _) => BackMoves(s, t, a, name, start, end);
    }
  }

  lemma WritersMove(s: Threads, t: Threads, a: Step, author: string, start: real, end: real)
    requires Follows(s, t) && Enabled(t, a)
    ensures var u, w, l := Do(t, a), Writers(s, t, author, start, end), LateWriters(s, t, author, end);
            && (Asks(t, a, author) ==> a.call !in w && a.call !in l)
            && Writers(s, u, author, start, end) == (if Writes(t, a, author, start, end) then w + {a.call} else w)
            && LateWriters(s, u, author, end) == (if AsksLate(t, a, author, end) then l + {a.call} else l)
  {
    hide TryConsume, Classify, MethodBucket, AuthorBucket, Refund;
    var u := Do(t, a);
    match a {
      case TakeMethod(_, _, _, _, _) =>
        assert Writers(s, u, author, start, end) == Writers(s, t, author, start, end);
      case TakeAuthor(_, _) =>
        assert a.call in s.calls ==> s.calls[a.call].Holding?;
      case GiveBack(_, _) =>
        assert Writers(s, u, author, start, end) == Writers(s, t, author, start, end);
    }
  }

  lemma WritersStep(s: Threads, t: Threads, a: Step, author: string, start: real, end: real)
    requires Follows(s, t) && Enabled(t, a)
    ensures var u := Do(t, a);
            && |Writers(s, u, author, start, end)|
               == |Writers(s, t, author, start, end)| + One(Writes(t, a, author, start, end))
            && |LateWriters(s, u, author, end)| == |LateWriters(s, t, author, end)| + One(AsksLate(t, a, author, end))
  {
    hide Do, Writers, LateWriters, Follows, Enabled, TryConsume;
    WritersMove(s, t, a, author, start, end);
  }

  // ---- Windows ----

  lemma {:induction false} RunFollows(s: Threads, steps: seq<Step>)
    requires ValidLimiter(s.limiter) && Exec(s, steps).Some?
    ensures var t := Exec(s, steps).value;
            Follows(s, t) && ValidLimiter(t.limiter) && t.limiter.config == s.limiter.config
  {
    if steps != [] {
      var front, a := steps[..|steps| - 1], steps[|steps| - 1];
      RunFollows(s, front);
      var t := Exec(s, front).value;
      hide Do, Enabled, ValidLimiter, Follows;
      FollowsStep(s, t, a);
      StepKeepsValid(t, a);
    }
  }

  /** What `late` late readings are worth. */
  function LateGain(limit: nat, late: nat): real { if limit == 0 then 0.0 else ((limit - 1) * late) as real }

  lemma OneMoreLate(limit: nat, late: nat, more: bool)
    ensures LateGain(limit, late + One(more)) == LateGain(limit, late) + if more then LateWorth(limit as real) else 0.0
  {
  }

  lemma NothingYet(s: Threads, name: string, author: string, start: real, end: real)
    ensures Holders(s, s, name, start, end) == {} && BackSince(s, s, name, start, end) == {}
            && Late(s, s, name, end) == {}
    ensures Writers(s, s, author, start, end) == {} && LateWriters(s, s, author, end) == {}
  {
  }

  lemma {:induction false} MethodSpending(s: Threads, steps: seq<Step>, name: string, start: real, end: real)
    requires ValidLimiter(s.limiter) && Exec(s, steps).Some? && start <= end
    ensures ValidLimiter(Exec(s, steps).value.limiter)
    ensures var t := Exec(s, steps).value;
            MethodLeft(t.limiter, name, start, end) + |Holders(s, t, name, start, end)| as real
            <= MethodLeft(s.limiter, name, start, end) + |BackSince(s, t, name, start, end)| as real
               + LateGain(MethodLimit(s.limiter.config, name), |Late(s, t, name, end)|)
    decreases |steps|
  {
    hide ValidLimiter, Follows, Holders, BackSince, Late, MethodLeft, Takes, GivesBack, ComesLate, MethodLimit;
    RunFollows(s, steps);
    if steps == [] {
      NothingYet(s, name, "", start, end);
    } else {
      var front, a := steps[..|steps| - 1], steps[|steps| - 1];
      RunFollows(s, front);
      MethodSpending(s, front, name, start, end);
      var t := Exec(s, front).value;
      hide Do, Enabled, LateGain, LateWorth;
      HoldersStep(s, t, a, name, start, end);
      MethodStepPays(t, a, name, start, end);
      OneMoreLate(MethodLimit(s.limiter.config, name), |Late(s, t, name, end)|, ComesLate(a, name, end));
    }
  }

  lemma {:induction false} AuthorSpending(s: Threads, steps: seq<Step>, author: string, start: real, end: real)
    requires ValidLimiter(s.limiter) && Exec(s, steps).Some? && start <= end
    ensures ValidLimiter(Exec(s, steps).value.limiter)
    ensures var t := Exec(s, steps).value;
            AuthorLeft(t.limiter, author, start, end) + |Writers(s, t, author, start, end)| as real
            <= AuthorLeft(s.limiter, author, start, end)
               + LateGain(s.limiter.config.authorWritesPerHour, |LateWriters(s, t, author, end)|)
    decreases |steps|
  {
    hide ValidLimiter, Follows, Writers, LateWriters, AuthorLeft, Writes, AsksLate;
    RunFollows(s, steps);
    if steps == [] {
      NothingYet(s, "", author, start, end);
    } else {
      var front, a := steps[..|steps| - 1], steps[|steps| - 1];
      RunFollows(s, front);
      AuthorSpending(s, front, author, start, end);
      var t := Exec(s, front).value;
      hide Do, Enabled, LateGain, LateWorth;
      WritersStep(s, t, a, author, start, end);
      AuthorStepPays(t, a, author, start, end);
      OneMoreLate(s.limiter.config.authorWritesPerHour, |LateWriters(s, t, author, end)|, AsksLate(t, a, author, end));
    }
  }

  /**
   In any interleaving and whatever the clock readings: of the calls begun since `s` with a reading in a window of T
   seconds at most limit + limit * T keep their token, plus one for every other call that gives its own back, and
   limit - 1 for every reading after the window.
   */
  lemma MethodWindow(s: Threads, steps: seq<Step>, name: string, start: real, end: real)
    requires ValidLimiter(s.limiter) && Exec(s, steps).Some? && start <= end
    ensures var t, limit := Exec(s, steps).value, MethodLimit(s.limiter.config, name);
            |Holders(s, t, name, start, end)| as real
            <= PerSecond(limit, end - start) + |BackSince(s, t, name, start, end)| as real
               + LateGain(limit, |Late(s, t, name, end)|)
  {
    hide Exec, Holders, BackSince, Late, Follows, MethodLeft, MethodLimit, ValidLimiter, PerSecond, LateGain;
    MethodSpending(s, steps, name, start, end);
    RunFollows(s, steps);
    MethodLeftBound(s.limiter, name, start, end);
    MethodLeftBound(Exec(s, steps).value.limiter, name, start, end);
  }

  lemma MethodLeftBound(l: Limiter, name: string, start: real, end: real)
    requires ValidLimiter(l) && start <= end
    ensures 0.0 <= MethodLeft(l, name, start, end) <= PerSecond(MethodLimit(l.config, name), end - start)
  {
    var b, limit := MethodBucket(l, name, start), MethodLimit(l.config, name) as real;
    MethodBucketLimit(l, name, start);
    assert b == Bucket(limit, 1.0, b.tokens, b.lastRefill);
    hide Potential, MethodLimit, ValidLimiter, MethodBucket;
    PotentialBound(b, start, end);
    hide Gain;
  }

  lemma AuthorLeftBound(l: Limiter, author: string, start: real, end: real)
    requires ValidLimiter(l) && start <= end
    ensures 0.0 <= AuthorLeft(l, author, start, end) <= PerHour(l.config.authorWritesPerHour, end - start)
  {
    var b, quota := AuthorBucket(l, author, start), l.config.authorWritesPerHour as real;
    AuthorBucketLimit(l, author, start);
    assert b == Bucket(quota, HOUR, b.tokens, b.lastRefill);
    hide Potential, ValidLimiter, AuthorBucket;
    PotentialBound(Bucket(quota, HOUR, b.tokens, b.lastRefill), start, end);
  }

  /** So the plain bound holds for a run in which no reading is late and no call outside the window gives back. */
  lemma PlainMethodWindow(s: Threads, steps: seq<Step>, name: string, start: real, end: real)
    requires ValidLimiter(s.limiter) && Exec(s, steps).Some? && start <= end
    requires var t := Exec(s, steps).value; Late(s, t, name, end) == {} && BackSince(s, t, name, start, end) == {}
    ensures |Holders(s, Exec(s, steps).value, name, start, end)| as real
            <= PerSecond(MethodLimit(s.limiter.config, name), end - start)
  {
    hide Exec, Holders, BackSince, Late, MethodLimit, ValidLimiter, PerSecond;
    MethodWindow(s, steps, name, start, end);
  }

  /** An author, in any interleaving and whatever the clock readings; nothing is ever given back to an author. */
  lemma AuthorWindow(s: Threads, steps: seq<Step>, author: string, start: real, end: real)
    requires ValidLimiter(s.limiter) && Exec(s, steps).Some? && start <= end
    ensures var t, quota := Exec(s, steps).value, s.limiter.config.authorWritesPerHour;
            |Writers(s, t, author, start, end)| as real
            <= PerHour(quota, end - start) + LateGain(quota, |LateWriters(s, t, author, end)|)
  {
    hide Exec, Writers, LateWriters, Follows, AuthorLeft, ValidLimiter, PerHour, LateGain;
    AuthorSpending(s, steps, author, start, end);
    RunFollows(s, steps);
    AuthorLeftBound(s.limiter, author, start, end);
    AuthorLeftBound(Exec(s, steps).value.limiter, author, start, end);
  }

  // ---- Exactly when the plain bound is safe ----

  /** The readings of a method's calls lie in the window. */
  predicate Within(steps: seq<Step>, name: string, start: real, end: real) {
    forall i :: 0 <= i < |steps| && steps[i].TakeMethod? && steps[i].name == name ==> Between(steps[i].now, start, end)
  }

  predicate NoneInFlight(calls: map<nat, Phase>, name: string) {
    forall c :: c in calls && calls[c].name == name ==> !InFlight(calls[c])
  }

  lemma {:induction false} WithinCounts(s: Threads, steps: seq<Step>, name: string, start: real, end: real)
    requires Exec(s, steps).Some? && Within(steps, name, start, end)
    ensures var t := Exec(s, steps).value;
            forall c :: c in t.calls && c !in s.calls && t.calls[c].name == name ==>
              Between(t.calls[c].now, start, end)
    decreases |steps|
  {
    if steps != [] {
      var front, a := steps[..|steps| - 1], steps[|steps| - 1];
      WithinCounts(s, front, name, start, end);
      hide TryConsume, Classify, MethodBucket, AuthorBucket, Refund;
    }
  }

  /** With the readings in the window and no call of the method in flight at its start, the plain bound holds. */
  lemma QuietMethodWindow(s: Threads, steps: seq<Step>, name: string, start: real, end: real)
    requires ValidLimiter(s.limiter) && Exec(s, steps).Some? && Within(steps, name, start, end) && start <= end
    requires NoneInFlight(s.calls, name)
    ensures |Holders(s, Exec(s, steps).value, name, start, end)| as real
            <= PerSecond(MethodLimit(s.limiter.config, name), end - start)
  {
    WithinCounts(s, steps, name, start, end);
    RunFollows(s, steps);
    var t := Exec(s, steps).value;
    hide Exec, ValidLimiter, Within, PerSecond, MethodLimit, Holders;
    assert BackSince(s, t, name, start, end) == {};
    assert Late(s, t, name, end) == {};
    PlainMethodWindow(s, steps, name, start, end);
  }

  lemma NoTokens(b: Bucket, now: real)
    requires b.Valid() && b.capacity == 0.0
    ensures TryConsume(b, now).1.Some?
  {
    RefillKeepsValid(b, now);
    hide Refill, WaitMs;
  }

  /** A method with no budget lets nothing through. */
  lemma {:induction false} NothingPasses(s: Threads, steps: seq<Step>, name: string, start: real, end: real)
    requires ValidLimiter(s.limiter) && Exec(s, steps).Some? && MethodLimit(s.limiter.config, name) == 0
    ensures Holders(s, Exec(s, steps).value, name, start, end) == {}
    decreases |steps|
  {
    if steps == [] {
      NothingYet(s, name, "", start, end);
    } else {
      var front, a := steps[..|steps| - 1], steps[|steps| - 1];
      NothingPasses(s, front, name, start, end);
      RunFollows(s, front);
      var t := Exec(s, front).value;
      MethodBucketLimit(t.limiter, name, a.born);
      NoTokens(MethodBucket(t.limiter, name, a.born), if a.TakeMethod? then a.now else 0.0);
      hide ValidLimiter, Follows, Holders, TryConsume, MethodLimit, MethodBucket, Do;
      match a {
        case TakeMethod(_, _, _, _, _) => TakeMoves(s, t, a, name, start, end);
        case TakeAuthor(_, _) => AskMoves(s, t, a, name, start, end);
        case GiveBack(_, _) => BackMoves(s, t, a, name, start, end);
      }
    }
  }

  /** The plain bound holds in every run from these calls, over every limiter, whose readings lie in the window. */
  ghost predicate AlwaysPlain(config: Config, calls: map<nat, Phase>, name: string) {
    forall l, steps, start, end | ValidLimiter(l) && l.config == config && start <= end
      && Within(steps, name, start, end) ::
      PlainFrom(Threads(l, calls), steps, name, start, end)
  }

  ghost predicate PlainFrom(s: Threads, steps: seq<Step>, name: string, start: real, end: real) {
    Exec(s, steps).Some? ==>
      |Holders(s, Exec(s, steps).value, name, start, end)| as real
        <= PerSecond(MethodLimit(s.limiter.config, name), end - start)
  }

  /** A number above all the call numbers in use. */
  lemma {:induction false} FreeNumber(calls: map<nat, Phase>) returns (n: nat)
    ensures forall c :: c in calls ==> c < n
    decreases |calls|
  {
    n := 0;
    if calls != map[] {
      var c :| c in calls;
      var rest := calls - {c};
      assert calls == rest[c := calls[c]];
      n := FreeNumber(rest);
      n := if c < n then n else c + 1;
    }
  }

  /** A limiter at time 0 with `tokens` left for the method, and nothing left for the author. */
  function Tight(config: Config, name: string, tokens: nat, authors: map<string, Bucket>): Limiter {
    Limiter(config, map[name := Bucket(MethodLimit(config, name) as real, 1.0, tokens as real, 0.0)], authors)
  }

  lemma TakeOne(config: Config, name: string, tokens: nat, authors: map<string, Bucket>, calls: map<nat, Phase>, c: nat)
    requires Classify(name) != Subscription && 1 <= tokens <= MethodLimit(config, name) && c !in calls
    ensures var s, a := Threads(Tight(config, name, tokens, authors), calls), TakeMethod(c, name, None, 0.0, 0.0);
            && Enabled(s, a)
            && Do(s, a) == Threads(Tight(config, name, tokens - 1, authors), calls[c := Allowed(name, 0.0, None)])
  {
    hide Classify, MethodLimit, WaitMs;
    var m, b := MethodLimit(config, name) as real, Bucket(MethodLimit(config, name) as real, 1.0, tokens as real, 0.0);
    assert TryConsume(b, 0.0) == (Bucket(m, 1.0, (tokens - 1) as real, 0.0), None);
    assert map[name := b][name := Bucket(m, 1.0, (tokens - 1) as real, 0.0)]
      == map[name := Bucket(m, 1.0, (tokens - 1) as real, 0.0)];
  }

  /** The calls begun so far, numbered from `first`. */
  function Begun(calls: map<nat, Phase>, name: string, first: nat, count: nat): map<nat, Phase> {
    if count == 0 then calls else Begun(calls, name, first, count - 1)[first + (count - 1) := Allowed(name, 0.0, None)]
  }

  function Requests(name: string, first: nat, count: nat): seq<Step> {
    if count == 0 then []
    else Requests(name, first, count - 1) + [TakeMethod(first + (count - 1), name, None, 0.0, 0.0)]
  }

  lemma {:induction false} BegunKeys(calls: map<nat, Phase>, name: string, first: nat, count: nat)
    requires forall c :: c in calls ==> c < first
    ensures forall c: nat :: c in Begun(calls, name, first, count) <==> c in calls || first <= c < first + count
    ensures forall c: nat :: c in calls ==> Begun(calls, name, first, count)[c] == calls[c]
    ensures forall c: nat ::
            first <= c < first + count ==> Begun(calls, name, first, count)[c] == Allowed(name, 0.0, None)
  {
    if count > 0 {
      BegunKeys(calls, name, first, count - 1);
    }
  }

  lemma {:induction false} TakeAll(config: Config, name: string, authors: map<string, Bucket>, calls: map<nat, Phase>,
      first: nat, count: nat)
    requires Classify(name) != Subscription && count <= MethodLimit(config, name)
            && forall c :: c in calls ==> c < first
    ensures Exec(Threads(Tight(config, name, MethodLimit(config, name), authors), calls), Requests(name, first, count))
            == Some(Threads(Tight(config, name, MethodLimit(config, name) - count, authors),
              Begun(calls, name, first, count)))
  {
    hide Do, Enabled, Tight, MethodLimit, Classify, Exec;
    var limit := MethodLimit(config, name);
    var s := Threads(Tight(config, name, limit, authors), calls);
    if count == 0 {
      NoSteps(s);
    } else {
      TakeAll(config, name, authors, calls, first, count - 1);
      BegunKeys(calls, name, first, count - 1);
      var before, after := Begun(calls, name, first, count - 1), Begun(calls, name, first, count);
      var front, all := Requests(name, first, count - 1), Requests(name, first, count);
      var id := first + (count - 1);
      assert after == before[id := Allowed(name, 0.0, None)];
      assert all == front + [TakeMethod(id, name, None, 0.0, 0.0)];
      hide Begun, Requests;
      TakeOne(config, name, limit - (count - 1), authors, before, id);
      OneStep(s, front, Threads(Tight(config, name, limit - (count - 1), authors), before),
              TakeMethod(id, name, None, 0.0, 0.0),
              Threads(Tight(config, name, limit - count, authors), after));
    }
  }

  lemma NoSteps(s: Threads)
    ensures Exec(s, []) == Some(s)
  {
  }

  /** An author with nothing left, as of time `t`. */
  function Spent(config: Config, author: string, t: real): map<string, Bucket> {
    map[author := Bucket(config.authorWritesPerHour as real, HOUR, 0.0, t)]
  }

  /** The bucket is emptied, and the call in flight refused by its author's quota. */
  lemma EmptyAndRefuse(config: Config, calls: map<nat, Phase>, name: string, c: nat, n: nat) returns (steps: seq<Step>)
    requires Classify(name) != Subscription && (forall d :: d in calls ==> d < n)
    requires c in calls && calls[c].name == name && InFlight(calls[c])
    ensures var p, limit := calls[c], MethodLimit(config, name);
            var authors := Spent(config, p.author, p.now);
            && Within(steps, name, 0.0, 0.0)
            && Exec(Threads(Tight(config, name, limit, authors), calls), steps)
               == Some(Threads(Tight(config, name, 0, authors),
                 Begun(calls, name, n, limit)[c := Refused(name, p.now, p.author)]))
  {
    hide Do, Enabled, Tight, MethodLimit, Classify, Begun, Requests, Exec, Within, Spent;
    var limit, p := MethodLimit(config, name), calls[c];
    var authors := Spent(config, p.author, p.now);
    var s := Threads(Tight(config, name, limit, authors), calls);
    TakeAll(config, name, authors, calls, n, limit);
    BegunKeys(calls, name, n, limit);
    RequestsWithin(name, n, limit);
    var begun := Begun(calls, name, n, limit);
    steps := Requests(name, n, limit);
    if p.Holding? {
      AskRefused(config, name, begun, c);
      OneStep(s, steps, Threads(Tight(config, name, 0, authors), begun), TakeAuthor(c, 0.0),
              Threads(Tight(config, name, 0, authors), begun[c := Refused(name, p.now, p.author)]));
      WithinMore(steps, TakeAuthor(c, 0.0), name);
      steps := steps + [TakeAuthor(c, 0.0)];
    } else {
      assert begun[c := Refused(name, p.now, p.author)] == begun;
    }
  }

  /** It gives its token back, and one more call passes. */
  lemma BackAndTake(config: Config, s: Threads, front: seq<Step>, name: string, authors: map<string, Bucket>,
                    calls: map<nat, Phase>, c: nat, d: nat) returns (steps: seq<Step>)
    requires Classify(name) != Subscription && MethodLimit(config, name) > 0 && Within(front, name, 0.0, 0.0)
    requires c in calls && calls[c].Refused? && calls[c].name == name && d !in calls
    requires Exec(s, front) == Some(Threads(Tight(config, name, 0, authors), calls))
    ensures Within(steps, name, 0.0, 0.0)
    ensures Exec(s, steps)
            == Some(Threads(Tight(config, name, 0, authors),
                            calls[c := GivenBack(name, calls[c].now, calls[c].author)][d := Allowed(name, 0.0, None)]))
  {
    hide Do, Enabled, Tight, MethodLimit, Classify, Exec, Within;
    var back := calls[c := GivenBack(name, calls[c].now, calls[c].author)];
    var last := TakeMethod(d, name, None, 0.0, 0.0);
    BackToOne(config, name, authors, calls, c);
    OneStep(s, front, Threads(Tight(config, name, 0, authors), calls), GiveBack(c, 0.0),
      Threads(Tight(config, name, 1, authors), back));
    TakeOne(config, name, 1, authors, back, d);
    OneStep(s, front + [GiveBack(c, 0.0)], Threads(Tight(config, name, 1, authors), back), last,
            Threads(Tight(config, name, 0, authors), back[d := Allowed(name, 0.0, None)]));
    WithinMore(front, GiveBack(c, 0.0), name);
    WithinMore(front + [GiveBack(c, 0.0)], last, name);
    steps := front + [GiveBack(c, 0.0)] + [last];
  }

  /** One call in flight is enough to break the bound: the bucket is emptied, the call gives its token back, one more
      passes. */
  lemma InFlightBreaksBound(config: Config, calls: map<nat, Phase>, name: string, c: nat)
    returns (l: Limiter, steps: seq<Step>)
    requires Classify(name) != Subscription && MethodLimit(config, name) > 0
    requires c in calls && calls[c].name == name && InFlight(calls[c])
    ensures ValidLimiter(l) && l.config == config && Within(steps, name, 0.0, 0.0)
    ensures !PlainFrom(Threads(l, calls), steps, name, 0.0, 0.0)
  {
    var limit, p := MethodLimit(config, name), calls[c];
    var authors := Spent(config, p.author, p.now);
    l := Tight(config, name, limit, authors);
    TightIsValid(config, name, limit, p.author, p.now);
    hide MethodLimit, Classify, Begun, ValidLimiter, Holders, Exec, Within, PerSecond;
    var n := FreeNumber(calls);
    var begun := Begun(calls, name, n, limit);
    BegunKeys(calls, name, n, limit);
    var front := EmptyAndRefuse(config, calls, name, c, n);
    var refused := begun[c := Refused(name, p.now, p.author)];
    steps := BackAndTake(config, Threads(l, calls), front, name, authors, refused, c, n + limit);
    OneTooMany(Threads(l, calls), Exec(Threads(l, calls), steps).value, name, n, limit);
  }

  lemma TightIsValid(config: Config, name: string, tokens: nat, author: string, t: real)
    requires tokens <= MethodLimit(config, name)
    ensures ValidLimiter(Tight(config, name, tokens,
            map[author := Bucket(config.authorWritesPerHour as real, HOUR, 0.0, t)]))
  {
    hide MethodLimit;
  }

  lemma AskRefused(config: Config, name: string, calls: map<nat, Phase>, c: nat)
    requires c in calls && calls[c].Holding? && calls[c].name == name
    ensures var p := calls[c];
            var l := Tight(config, name, 0, Spent(config, p.author, p.now));
            && Enabled(Threads(l, calls), TakeAuthor(c, 0.0))
            && Do(Threads(l, calls), TakeAuthor(c, 0.0)) == Threads(l, calls[c := Refused(name, p.now, p.author)])
  {
    hide MethodLimit, WaitMs;
    var p := calls[c];
    var authors := Spent(config, p.author, p.now);
    var b := authors[p.author];
    assert TryConsume(b, p.now).0 == b && TryConsume(b, p.now).1.Some?;
    assert authors[p.author := b] == authors;
  }

  lemma BackToOne(config: Config, name: string, authors: map<string, Bucket>, calls: map<nat, Phase>, c: nat)
    requires c in calls && calls[c].Refused? && calls[c].name == name && MethodLimit(config, name) > 0
    ensures var s, p := Threads(Tight(config, name, 0, authors), calls), calls[c];
            && Enabled(s, GiveBack(c, 0.0))
            && Do(s, GiveBack(c, 0.0))
               == Threads(Tight(config, name, 1, authors), calls[c := GivenBack(name, p.now, p.author)])
  {
    hide MethodLimit;
    var m := MethodLimit(config, name) as real;
    assert map[name := Bucket(m, 1.0, 0.0, 0.0)][name := Bucket(m, 1.0, 1.0, 0.0)]
      == map[name := Bucket(m, 1.0, 1.0, 0.0)];
  }

  lemma WithinMore(front: seq<Step>, a: Step, name: string)
    requires Within(front, name, 0.0, 0.0) && (a.TakeMethod? ==> a.now == 0.0)
    ensures Within(front + [a], name, 0.0, 0.0)
  {
  }

  lemma {:induction false} RequestsWithin(name: string, first: nat, count: nat)
    ensures Within(Requests(name, first, count), name, 0.0, 0.0)
  {
    if count > 0 {
      RequestsWithin(name, first, count - 1);
    }
  }

  lemma {:induction false} RangeSize(x: set<nat>, first: nat, count: nat)
    requires forall c: nat :: c in x <==> first <= c < first + count
    ensures |x| == count
  {
    if count == 0 {
      assert x == {};
    } else {
      RangeSize(x - {first + (count - 1)}, first, count - 1);
    }
  }

  lemma OneTooMany(s: Threads, t: Threads, name: string, first: nat, limit: nat)
    requires forall c :: c in s.calls ==> c < first
    requires forall c: nat :: c in t.calls <==> c in s.calls || first <= c <= first + limit
    requires forall c: nat :: first <= c <= first + limit ==> t.calls[c] == Allowed(name, 0.0, None)
    ensures |Holders(s, t, name, 0.0, 0.0)| as real > PerSecond(limit, 0.0)
  {
    RangeSize(Holders(s, t, name, 0.0, 0.0), first, limit + 1);
    NoGain(limit as real, 1.0);
  }

  /**
   Over all limiters and all runs with their readings in the window, the plain bound is safe from a set of calls exactly
   when none of them is in flight for the method, or the method has no budget at all.
   */
  lemma AlwaysPlainIff(config: Config, calls: map<nat, Phase>, name: string)
    requires Classify(name) != Subscription
    ensures AlwaysPlain(config, calls, name) <==> MethodLimit(config, name) == 0 || NoneInFlight(calls, name)
  {
    hide ValidLimiter, Within, Holders, PerSecond, Exec, MethodLimit, Classify;
    if MethodLimit(config, name) > 0 && !NoneInFlight(calls, name) {
      var c :| c in calls && calls[c].name == name && InFlight(calls[c]);
      var l, steps := InFlightBreaksBound(config, calls, name, c);
      assert !PlainFrom(Threads(l, calls), steps, name, 0.0, 0.0);
    } else {
      forall l, steps, start, end | ValidLimiter(l) && l.config == config && start <= end
        && Within(steps, name, start, end)
        ensures PlainFrom(Threads(l, calls), steps, name, start, end)
      {
        PlainInStep(Threads(l, calls), steps, name, start, end);
      }
    }
  }

  lemma PlainInStep(s: Threads, steps: seq<Step>, name: string, start: real, end: real)
    requires ValidLimiter(s.limiter) && start <= end && Within(steps, name, start, end)
    requires MethodLimit(s.limiter.config, name) == 0 || NoneInFlight(s.calls, name)
    ensures PlainFrom(s, steps, name, start, end)
  {
    hide ValidLimiter, Within, Holders, Exec, MethodLimit, NoneInFlight;
    if Exec(s, steps).Some? {
      if NoneInFlight(s.calls, name) {
        QuietMethodWindow(s, steps, name, start, end);
      } else {
        NothingPasses(s, steps, name, start, end);
        NoBudget(end - start);
      }
    }
  }

  lemma NoBudget(t: real)
    requires t >= 0.0
    ensures PerSecond(0, t) >= 0.0
  {
    GainLaws(0.0, 1.0, 0.0, t);
    NoGain(0.0, 1.0);
  }

  // ---- ... and when readings may be late ----

  /** The plain bound holds in every run from these calls, over every limiter, whatever the readings. */
  ghost predicate AnyPlain(config: Config, calls: map<nat, Phase>, name: string) {
    forall l, steps, start, end | ValidLimiter(l) && l.config == config && start <= end ::
      PlainFrom(Threads(l, calls), steps, name, start, end)
  }

  /** A method that is not a write never has a call in flight. */
  lemma {:induction false} ReadsNeverGiveBack(s: Threads, steps: seq<Step>, name: string)
    requires Exec(s, steps).Some? && Classify(name) != Write && NoneInFlight(s.calls, name)
    ensures var t := Exec(s, steps).value;
            && NoneInFlight(t.calls, name)
            && forall c :: c in t.calls && c !in s.calls && t.calls[c].name == name ==> !t.calls[c].GivenBack?
    decreases |steps|
  {
    if steps != [] {
      ReadsNeverGiveBack(s, steps[..|steps| - 1], name);
      hide TryConsume, MethodBucket, AuthorBucket, Refund, Classify;
    }
  }

  lemma SingleReadPlain(s: Threads, steps: seq<Step>, name: string, start: real, end: real)
    requires ValidLimiter(s.limiter) && start <= end
    requires MethodLimit(s.limiter.config, name) == 1 && Classify(name) != Write && NoneInFlight(s.calls, name)
    ensures PlainFrom(s, steps, name, start, end)
  {
    hide ValidLimiter, Holders, Exec, MethodLimit, Classify, PerSecond;
    if Exec(s, steps).Some? {
      ReadsNeverGiveBack(s, steps, name);
      RunFollows(s, steps);
      var t := Exec(s, steps).value;
      assert BackSince(s, t, name, start, end) == {};
      MethodWindow(s, steps, name, start, end);
      OnlyOne(|Late(s, t, name, end)|);
    }
  }

  lemma OnlyOne(late: nat)
    ensures LateGain(1, late) == 0.0
  {
  }

  /** The limiter after a reading at time 1. */
  function Later(config: Config, name: string, tokens: nat, authors: map<string, Bucket>): Limiter {
    Limiter(config, map[name := Bucket(MethodLimit(config, name) as real, 1.0, tokens as real, 1.0)], authors)
  }

  /** A reading one second later finds the bucket full again. */
  lemma LateTake(config: Config, name: string, author: Option<string>, authors: map<string, Bucket>,
      calls: map<nat, Phase>, c: nat)
    requires Classify(name) != Subscription && MethodLimit(config, name) > 0 && c !in calls
    requires author.Some? ==> Classify(name) == Write
    ensures var s, a := Threads(Tight(config, name, 0, authors), calls), TakeMethod(c, name, author, 1.0, 1.0);
            && Enabled(s, a)
            && Do(s, a) == Threads(Later(config, name, MethodLimit(config, name) - 1, authors),
                                   calls[c := if author.Some? then Holding(name, 1.0, author.value)
                                              else Allowed(name, 1.0, None)])
  {
    hide Classify, MethodLimit, WaitMs;
    var m := MethodLimit(config, name) as real;
    var b, b' := Bucket(m, 1.0, 0.0, 0.0), Bucket(m, 1.0, (MethodLimit(config, name) - 1) as real, 1.0);
    OverOne(m);
    assert Refill(b, 1.0) == Bucket(m, 1.0, m, 1.0);
    assert TryConsume(b, 1.0) == (b', None);
    assert map[name := b][name := b'] == map[name := b'];
  }

  /** A straggler takes a token of a bucket that was refilled after its own reading. */
  lemma Straggle(config: Config, name: string, tokens: nat, authors: map<string, Bucket>, calls: map<nat, Phase>,
      c: nat)
    requires Classify(name) != Subscription && tokens > 0 && c !in calls
    ensures var s, a := Threads(Later(config, name, tokens, authors), calls), TakeMethod(c, name, None, 0.0, 0.0);
            && Enabled(s, a)
            && Do(s, a) == Threads(Later(config, name, tokens - 1, authors), calls[c := Allowed(name, 0.0, None)])
  {
    hide Classify, MethodLimit, WaitMs;
    var m := MethodLimit(config, name) as real;
    var b, b' := Bucket(m, 1.0, tokens as real, 1.0), Bucket(m, 1.0, (tokens - 1) as real, 1.0);
    assert TryConsume(b, 0.0) == (b', None);
    assert map[name := b][name := b'] == map[name := b'];
  }

  /** The late call is refused by its author's quota and gives its token back. */
  lemma LateRefused(config: Config, name: string, calls: map<nat, Phase>, c: nat, author: string)
    requires c in calls && calls[c] == Holding(name, 1.0, author) && MethodLimit(config, name) == 1
    ensures var authors := Spent(config, author, 1.0);
            var s := Threads(Later(config, name, 0, authors), calls);
            var refused := calls[c := Refused(name, 1.0, author)];
            && Enabled(s, TakeAuthor(c, 1.0))
            && Do(s, TakeAuthor(c, 1.0)) == Threads(s.limiter, refused)
            && Enabled(Threads(s.limiter, refused), GiveBack(c, 1.0))
            && Do(Threads(s.limiter, refused), GiveBack(c, 1.0))
               == Threads(Later(config, name, 1, authors), refused[c := GivenBack(name, 1.0, author)])
  {
    hide MethodLimit, WaitMs;
    var authors := Spent(config, author, 1.0);
    var q := authors[author];
    assert TryConsume(q, 1.0).0 == q && TryConsume(q, 1.0).1.Some? && authors[author := q] == authors;
    var b, b' := Bucket(1.0, 1.0, 0.0, 1.0), Bucket(1.0, 1.0, 1.0, 1.0);
    assert map[name := b][name := b'] == map[name := b'];
  }

  lemma {:induction false} SubsetSize(x: set<nat>, y: set<nat>)
    requires x <= y
    ensures |x| <= |y|
  {
    if x != {} {
      var c :| c in x;
      SubsetSize(x - {c}, y - {c});
    }
  }

  function Span(first: nat, count: nat): set<nat> {
    if count == 0 then {} else Span(first, count - 1) + {first + (count - 1)}
  }

  lemma {:induction false} SpanSize(first: nat, count: nat)
    ensures |Span(first, count)| == count && forall c: nat :: c in Span(first, count) <==> first <= c < first + count
  {
    if count > 0 {
      SpanSize(first, count - 1);
    }
  }

  /** More calls than the bound allows, all with reading 0. */
  lemma TooManyAtZero(s: Threads, t: Threads, name: string, first: nat, limit: nat, last: nat)
    requires (forall c :: c in s.calls ==> c < first) && last >= first + limit
    requires forall c: nat ::
            first <= c < first + limit || c == last ==> c in t.calls && t.calls[c] == Allowed(name, 0.0, None)
    ensures |Holders(s, t, name, 0.0, 0.0)| as real > PerSecond(limit, 0.0)
  {
    SpanSize(first, limit);
    SubsetSize(Span(first, limit) + {last}, Holders(s, t, name, 0.0, 0.0));
    NoGain(limit as real, 1.0);
  }

  /** With two tokens or more, a late reading alone lets a straggler through. */
  lemma LateBreaksBound(config: Config, calls: map<nat, Phase>, name: string) returns (l: Limiter, steps: seq<Step>)
    requires Classify(name) != Subscription && MethodLimit(config, name) >= 2
    ensures ValidLimiter(l) && l.config == config && !PlainFrom(Threads(l, calls), steps, name, 0.0, 0.0)
  {
    var limit := MethodLimit(config, name);
    var n := FreeNumber(calls);
    l := Tight(config, name, limit, Spent(config, "", 0.0));
    TightIsValid(config, name, limit, "", 0.0);
    hide Later, MethodLimit, Classify, Begun, Requests, Exec, ValidLimiter, Holders, PerSecond, Spent;
    TakeAll(config, name, Spent(config, "", 0.0), calls, n, limit);
    BegunKeys(calls, name, n, limit);
    var begun := Begun(calls, name, n, limit);
    steps := LateAndStraggle(config, Threads(l, calls), Requests(name, n, limit), begun, name, n + limit);
    TooManyAtZero(Threads(l, calls), Exec(Threads(l, calls), steps).value, name, n, limit, n + limit + 1);
  }

  lemma LateAndStraggle(config: Config, s: Threads, front: seq<Step>, calls: map<nat, Phase>, name: string, c: nat)
    returns (steps: seq<Step>)
    requires Classify(name) != Subscription && MethodLimit(config, name) >= 2 && c !in calls && c + 1 !in calls
    requires Exec(s, front) == Some(Threads(Tight(config, name, 0, Spent(config, "", 0.0)), calls))
    ensures Exec(s, steps) == Some(Threads(Later(config, name, MethodLimit(config, name) - 2, Spent(config, "", 0.0)),
                                           calls[c := Allowed(name, 1.0, None)][c + 1 := Allowed(name, 0.0, None)]))
  {
    hide Do, Enabled, Tight, Later, MethodLimit, Classify, Exec, Spent;
    var authors, limit := Spent(config, "", 0.0), MethodLimit(config, name);
    var a, b := TakeMethod(c, name, None, 1.0, 1.0), TakeMethod(c + 1, name, None, 0.0, 0.0);
    var more := calls[c := Allowed(name, 1.0, None)];
    LateTake(config, name, None, authors, calls, c);
    OneStep(s, front, Threads(Tight(config, name, 0, authors), calls), a,
      Threads(Later(config, name, limit - 1, authors), more));
    Straggle(config, name, limit - 1, authors, more, c + 1);
    OneStep(s, front + [a], Threads(Later(config, name, limit - 1, authors), more), b,
            Threads(Later(config, name, limit - 2, authors), more[c + 1 := Allowed(name, 0.0, None)]));
    steps := front + [a] + [b];
  }

  /** The one token is taken, and a late write takes the next one, which its author's quota will refuse. */
  lemma TakeAndLateWrite(config: Config, calls: map<nat, Phase>, name: string, n: nat) returns (steps: seq<Step>)
    requires Classify(name) == Write && MethodLimit(config, name) == 1 && forall c :: c in calls ==> c < n
    ensures var authors := Spent(config, "x", 1.0);
            Exec(Threads(Tight(config, name, 1, authors), calls), steps)
            == Some(Threads(Later(config, name, 0, authors),
                            calls[n := Allowed(name, 0.0, None)][n + 1 := Holding(name, 1.0, "x")]))
  {
    hide Do, Enabled, Tight, Later, MethodLimit, Classify, Exec, Spent;
    var authors := Spent(config, "x", 1.0);
    var s := Threads(Tight(config, name, 1, authors), calls);
    var a, b := TakeMethod(n, name, None, 0.0, 0.0), TakeMethod(n + 1, name, Some("x"), 1.0, 1.0);
    var c0 := calls[n := Allowed(name, 0.0, None)];
    NoSteps(s);
    TakeOne(config, name, 1, authors, calls, n);
    OneStep(s, [], s, a, Threads(Tight(config, name, 0, authors), c0));
    LateTake(config, name, Some("x"), authors, c0, n + 1);
    OneStep(s, [] + [a], Threads(Tight(config, name, 0, authors), c0), b,
            Threads(Later(config, name, 0, authors), c0[n + 1 := Holding(name, 1.0, "x")]));
    steps := [] + [a] + [b];
  }

  /** The late write gives back, and a straggler takes the token. */
  lemma BackAndStraggle(config: Config, s: Threads, front: seq<Step>, calls: map<nat, Phase>, name: string, c: nat)
    returns (steps: seq<Step>)
    requires Classify(name) == Write && MethodLimit(config, name) == 1
    requires c in calls && calls[c] == Holding(name, 1.0, "x") && c + 1 !in calls
    requires Exec(s, front) == Some(Threads(Later(config, name, 0, Spent(config, "x", 1.0)), calls))
    ensures Exec(s, steps) == Some(Threads(Later(config, name, 0, Spent(config, "x", 1.0)),
                                           calls[c := GivenBack(name, 1.0, "x")][c + 1 := Allowed(name, 0.0, None)]))
  {
    hide Do, Enabled, Later, MethodLimit, Classify, Exec, Spent;
    var authors := Spent(config, "x", 1.0);
    var none, one := Later(config, name, 0, authors), Later(config, name, 1, authors);
    var c2 := calls[c := Refused(name, 1.0, "x")];
    var c3 := calls[c := GivenBack(name, 1.0, "x")];
    var a, b, d := TakeAuthor(c, 1.0), GiveBack(c, 1.0), TakeMethod(c + 1, name, None, 0.0, 0.0);
    LateRefused(config, name, calls, c, "x");
    assert c2[c := GivenBack(name, 1.0, "x")] == c3;
    OneStep(s, front, Threads(none, calls), a, Threads(none, c2));
    OneStep(s, front + [a], Threads(none, c2), b, Threads(one, c3));
    Straggle(config, name, 1, authors, c3, c + 1);
    OneStep(s, front + [a] + [b], Threads(one, c3), d, Threads(none, c3[c + 1 := Allowed(name, 0.0, None)]));
    steps := front + [a] + [b] + [d];
  }

  /** With one token it takes a late write that its author's quota refuses. */
  lemma LateWriteBreaksBound(config: Config, calls: map<nat, Phase>, name: string)
    returns (l: Limiter, steps: seq<Step>)
    requires Classify(name) == Write && MethodLimit(config, name) == 1
    ensures ValidLimiter(l) && l.config == config && !PlainFrom(Threads(l, calls), steps, name, 0.0, 0.0)
  {
    var n := FreeNumber(calls);
    l := Tight(config, name, 1, Spent(config, "x", 1.0));
    TightIsValid(config, name, 1, "x", 1.0);
    hide Later, MethodLimit, Classify, Exec, ValidLimiter, Holders, PerSecond, Spent;
    var front := TakeAndLateWrite(config, calls, name, n);
    var before := calls[n := Allowed(name, 0.0, None)][n + 1 := Holding(name, 1.0, "x")];
    steps := BackAndStraggle(config, Threads(l, calls), front, before, name, n + 1);
    TooManyAtZero(Threads(l, calls), Exec(Threads(l, calls), steps).value, name, n, 1, n + 2);
  }

  /**
   Over all limiters and all runs with any readings, the plain bound is safe from a set of calls exactly when the method
   has no budget, or is a read of one call a second with no call in flight.
   */
  lemma AnyPlainIff(config: Config, calls: map<nat, Phase>, name: string)
    requires Classify(name) != Subscription
    ensures AnyPlain(config, calls, name)
            <==> MethodLimit(config, name) == 0
                 || (MethodLimit(config, name) == 1 && Classify(name) == Read && NoneInFlight(calls, name))
  {
    hide ValidLimiter, Holders, PerSecond, Exec, MethodLimit, Classify, NoneInFlight, PlainFrom;
    var limit := MethodLimit(config, name);
    if limit == 0 || (limit == 1 && Classify(name) == Read && NoneInFlight(calls, name)) {
      forall l, steps, start, end | ValidLimiter(l) && l.config == config && start <= end
        ensures PlainFrom(Threads(l, calls), steps, name, start, end)
      {
        if limit == 0 {
          NoBudgetPlain(Threads(l, calls), steps, name, start, end);
        } else {
          SingleReadPlain(Threads(l, calls), steps, name, start, end);
        }
      }
    } else {
      var l, steps := AnyBreaks(config, calls, name);
    }
  }

  lemma NoBudgetPlain(s: Threads, steps: seq<Step>, name: string, start: real, end: real)
    requires ValidLimiter(s.limiter) && start <= end && MethodLimit(s.limiter.config, name) == 0
    ensures PlainFrom(s, steps, name, start, end)
  {
    hide ValidLimiter, Holders, Exec, MethodLimit;
    if Exec(s, steps).Some? {
      NothingPasses(s, steps, name, start, end);
      NoBudget(end - start);
    }
  }

  lemma AnyBreaks(config: Config, calls: map<nat, Phase>, name: string) returns (l: Limiter, steps: seq<Step>)
    requires Classify(name) != Subscription && MethodLimit(config, name) > 0
    requires !(MethodLimit(config, name) == 1 && Classify(name) == Read && NoneInFlight(calls, name))
    ensures ValidLimiter(l) && l.config == config && !PlainFrom(Threads(l, calls), steps, name, 0.0, 0.0)
  {
    hide ValidLimiter, MethodLimit, Classify, PlainFrom, Within;
    if MethodLimit(config, name) >= 2 {
      l, steps := LateBreaksBound(config, calls, name);
    } else if Classify(name) == Write {
      l, steps := LateWriteBreaksBound(config, calls, name);
    } else {
      var c :| c in calls && calls[c].name == name && InFlight(calls[c]);
      l, steps := InFlightBreaksBound(config, calls, name, c);
    }
  }

  // ---- The extra terms are needed ----

  const POST: string := "chain_postInsight"

  lemma PostIsWrite()
    ensures Classify(POST) == Write
  {
  }

  lemma LastToken(capacity: real, t: real)
    requires capacity >= 1.0
    ensures TryConsume(Bucket(capacity, 1.0, 1.0, t), t) == (Bucket(capacity, 1.0, 0.0, t), None)
  {
  }

  lemma OneSecondLater(t: real)
    ensures TryConsume(Bucket(1.0, 1.0, 0.0, t), t + 1.0) == (Bucket(1.0, 1.0, 0.0, t + 1.0), None)
  {
    OverOne(1.0);
    assert Refill(Bucket(1.0, 1.0, 0.0, t), t + 1.0) == Bucket(1.0, 1.0, 1.0, t + 1.0);
  }

  lemma NoQuota(t: real, now: real)
    requires now <= t
    ensures TryConsume(NewBucket(0, HOUR, t), now) == (NewBucket(0, HOUR, t), Some(0))
  {
  }

  /** A limiter with one bucket of one call a second, holding `tokens`. */
  function OneBucket(tokens: real, t: real, authors: map<string, Bucket>): Limiter {
    Limiter(Config(1, 1, 0, map[]), map[POST := Bucket(1.0, 1.0, tokens, t)], authors)
  }

  lemma FirstTake()
    ensures var s := Threads(Limiter(Config(1, 1, 0, map[]), map[], map[]), map[]);
            var a := TakeMethod(0, POST, Some("x"), 0.0, 0.0);
            Enabled(s, a) && Do(s, a) == Threads(OneBucket(0.0, 0.0, map[]), map[0 := Holding(POST, 0.0, "x")])
  {
    hide Classify, TryConsume;
    PostIsWrite();
    LastToken(1.0, 0.0);
  }

  /** A call without an author takes the token of a bucket that can give one. */
  lemma PlainTake(tokens: real, t: real, authors: map<string, Bucket>, calls: map<nat, Phase>, c: nat)
    requires c !in calls && TryConsume(Bucket(1.0, 1.0, tokens, t), 1.0) == (Bucket(1.0, 1.0, 0.0, 1.0), None)
    ensures var s, a := Threads(OneBucket(tokens, t, authors), calls), TakeMethod(c, POST, None, 1.0, 1.0);
            Enabled(s, a) && Do(s, a) == Threads(OneBucket(0.0, 1.0, authors), calls[c := Allowed(POST, 1.0, None)])
  {
    hide Classify, TryConsume, NewBucket;
    PostIsWrite();
    assert map[POST := Bucket(1.0, 1.0, tokens, t)][POST := Bucket(1.0, 1.0, 0.0, 1.0)]
      == map[POST := Bucket(1.0, 1.0, 0.0, 1.0)];
  }

  lemma RefusedThenBack(calls: map<nat, Phase>)
    requires 0 in calls && calls[0] == Holding(POST, 0.0, "x")
    ensures var s := Threads(OneBucket(0.0, 1.0, map[]), calls);
            var authors := map["x" := NewBucket(0, HOUR, 1.0)];
            && Enabled(s, TakeAuthor(0, 1.0))
            && var t := Do(s, TakeAuthor(0, 1.0));
            && t == Threads(OneBucket(0.0, 1.0, authors), calls[0 := Refused(POST, 0.0, "x")])
            && Enabled(t, GiveBack(0, 1.0))
            && Do(t, GiveBack(0, 1.0)) == Threads(OneBucket(1.0, 1.0, authors), calls[0 := GivenBack(POST, 0.0, "x")])
  {
    hide Classify, TryConsume;
    NoQuota(1.0, 0.0);
    assert map[POST := Bucket(1.0, 1.0, 0.0, 1.0)][POST := Bucket(1.0, 1.0, 1.0, 1.0)]
      == map[POST := Bucket(1.0, 1.0, 1.0, 1.0)];
  }

  lemma OneStep(s: Threads, steps: seq<Step>, t: Threads, a: Step, u: Threads)
    requires Exec(s, steps) == Some(t) && Enabled(t, a) && Do(t, a) == u
    ensures Exec(s, steps + [a]) == Some(u)
  {
    assert (steps + [a])[..|steps|] == steps;
  }

  /** The extra term is needed: here a method of one call a second lets two through at one instant. */
  lemma RefundBreaksPlainBound() returns (config: Config, past: seq<Step>, steps: seq<Step>)
    ensures var before := Exec(Threads(Limiter(config, map[], map[]), map[]), past);
            && before.Some? && Exec(before.value, steps).Some? && Within(steps, POST, 1.0, 1.0)
            && MethodLimit(config, POST) == 1
            && |Holders(before.value, Exec(before.value, steps).value, POST, 1.0, 1.0)| == 2
  {
    hide Do, Enabled, Holders, OneBucket, Classify, TryConsume, NewBucket;
    config := Config(1, 1, 0, map[]);
    PostIsWrite();
    assert MethodLimit(config, POST) == 1;
    hide MethodLimit;
    var a0 := TakeMethod(0, POST, Some("x"), 0.0, 0.0);
    var a1, a2, a3 := TakeMethod(1, POST, None, 1.0, 1.0), TakeAuthor(0, 1.0), GiveBack(0, 1.0);
    var a4 := TakeMethod(2, POST, None, 1.0, 1.0);
    past, steps := [] + [a0], [] + [a1] + [a2] + [a3] + [a4];
    var s0 := Threads(Limiter(config, map[], map[]), map[]);
    var authors := map["x" := NewBucket(0, HOUR, 1.0)];
    var s1 := Threads(OneBucket(0.0, 0.0, map[]), map[0 := Holding(POST, 0.0, "x")]);
    var t1 := Threads(OneBucket(0.0, 1.0, map[]), s1.calls[1 := Allowed(POST, 1.0, None)]);
    var t2 := Threads(OneBucket(0.0, 1.0, authors), t1.calls[0 := Refused(POST, 0.0, "x")]);
    var t3 := Threads(OneBucket(1.0, 1.0, authors), t1.calls[0 := GivenBack(POST, 0.0, "x")]);
    var t4 := Threads(OneBucket(0.0, 1.0, authors), t3.calls[2 := Allowed(POST, 1.0, None)]);
    FirstTake();
    OneStep(s0, [], s0, a0, s1);
    OneSecondLater(0.0);
    PlainTake(0.0, 0.0, map[], s1.calls, 1);
    OneStep(s1, [], s1, a1, t1);
    RefusedThenBack(t1.calls);
    OneStep(s1, [] + [a1], t1, a2, t2);
    OneStep(s1, [] + [a1] + [a2], t2, a3, t3);
    LastToken(1.0, 1.0);
    PlainTake(1.0, 1.0, authors, t3.calls, 2);
    OneStep(s1, [] + [a1] + [a2] + [a3], t3, a4, t4);
    TwoHold(s1, t4);
  }

  lemma TwoHold(s: Threads, t: Threads)
    requires s.calls == map[0 := Holding(POST, 0.0, "x")]
    requires t.calls == map[0 := GivenBack(POST, 0.0, "x"), 1 := Allowed(POST, 1.0, None),
                            2 := Allowed(POST, 1.0, None)]
    ensures |Holders(s, t, POST, 1.0, 1.0)| == 2
  {
    assert Holders(s, t, POST, 1.0, 1.0) == {1, 2};
  }

  const READ: string := "chain_query"

  lemma ReadIsRead()
    ensures Classify(READ) == Read
  {
  }

  /** A limiter of two calls a second, with one bucket. */
  function TwoASecond(tokens: real, t: real): Limiter {
    Limiter(Config(2, 2, 0, map[]), map[READ := Bucket(2.0, 1.0, tokens, t)], map[])
  }

  lemma ReadTake(tokens: real, t: real, left: real, u: real, calls: map<nat, Phase>, c: nat, now: real)
    requires c !in calls && TryConsume(Bucket(2.0, 1.0, tokens, t), now) == (Bucket(2.0, 1.0, left, u), None)
    ensures var s, a := Threads(TwoASecond(tokens, t), calls), TakeMethod(c, READ, None, now, now);
            Enabled(s, a) && Do(s, a) == Threads(TwoASecond(left, u), calls[c := Allowed(READ, now, None)])
  {
    hide Classify, TryConsume;
    ReadIsRead();
    assert map[READ := Bucket(2.0, 1.0, tokens, t)][READ := Bucket(2.0, 1.0, left, u)]
      == map[READ := Bucket(2.0, 1.0, left, u)];
  }

  lemma FirstRead()
    ensures var s, a := Threads(Limiter(Config(2, 2, 0, map[]), map[], map[]), map[]),
            TakeMethod(0, READ, None, 0.0, 0.0);
            Enabled(s, a) && Do(s, a) == Threads(TwoASecond(1.0, 0.0), map[0 := Allowed(READ, 0.0, None)])
  {
    ReadIsRead();
    assert MethodLimit(Config(2, 2, 0, map[]), READ) == 2;
    assert TryConsume(Bucket(2.0, 1.0, 2.0, 0.0), 0.0) == (Bucket(2.0, 1.0, 1.0, 0.0), None);
    hide Classify, MethodLimit, TryConsume;
  }

  lemma ReadTokens()
    ensures TryConsume(Bucket(2.0, 1.0, 1.0, 0.0), 0.0) == (Bucket(2.0, 1.0, 0.0, 0.0), None)
    ensures TryConsume(Bucket(2.0, 1.0, 0.0, 0.0), 100.0) == (Bucket(2.0, 1.0, 1.0, 100.0), None)
    ensures TryConsume(Bucket(2.0, 1.0, 1.0, 100.0), 0.0) == (Bucket(2.0, 1.0, 0.0, 100.0), None)
  {
    OverOne(2.0);
    assert Refill(Bucket(2.0, 1.0, 0.0, 0.0), 100.0) == Bucket(2.0, 1.0, 2.0, 100.0);
  }

  /**
   A late reading refills the bucket, and a straggler with an early one finds a token: three calls with reading 0 pass
   at two calls a second, with nothing in flight and no token given back.
   */
  lemma StragglerBreaksPlainBound() returns (config: Config, steps: seq<Step>)
    ensures var s := Threads(Limiter(config, map[], map[]), map[]);
            var end := Exec(s, steps);
            && MethodLimit(config, READ) == 2 && end.Some?
            && (forall c :: c in end.value.calls ==> end.value.calls[c].Allowed?)
            && |Holders(s, end.value, READ, 0.0, 0.0)| == 3
  {
    hide Do, Enabled, TwoASecond, Classify, TryConsume;
    config := Config(2, 2, 0, map[]);
    ReadIsRead();
    assert MethodLimit(config, READ) == 2;
    hide MethodLimit;
    var a0, a1 := TakeMethod(0, READ, None, 0.0, 0.0), TakeMethod(1, READ, None, 0.0, 0.0);
    var a2, a3 := TakeMethod(2, READ, None, 100.0, 100.0), TakeMethod(3, READ, None, 0.0, 0.0);
    steps := [] + [a0] + [a1] + [a2] + [a3];
    var s := Threads(Limiter(config, map[], map[]), map[]);
    var t0 := Threads(TwoASecond(1.0, 0.0), map[0 := Allowed(READ, 0.0, None)]);
    var t1 := Threads(TwoASecond(0.0, 0.0), t0.calls[1 := Allowed(READ, 0.0, None)]);
    var t2 := Threads(TwoASecond(1.0, 100.0), t1.calls[2 := Allowed(READ, 100.0, None)]);
    var t3 := Threads(TwoASecond(0.0, 100.0), t2.calls[3 := Allowed(READ, 0.0, None)]);
    ReadTokens();
    FirstRead();
    OneStep(s, [], s, a0, t0);
    ReadTake(1.0, 0.0, 0.0, 0.0, t0.calls, 1, 0.0);
    OneStep(s, [] + [a0], t0, a1, t1);
    ReadTake(0.0, 0.0, 1.0, 100.0, t1.calls, 2, 100.0);
    OneStep(s, [] + [a0] + [a1], t1, a2, t2);
    ReadTake(1.0, 100.0, 0.0, 100.0, t2.calls, 3, 0.0);
    OneStep(s, [] + [a0] + [a1] + [a2], t2, a3, t3);
    assert Holders(s, t3, READ, 0.0, 0.0) == {0, 1, 3};
  }

  /** A limiter with one bucket of ten posts a second and one of two an hour for author `x`. */
  function Posting(tokens: real, left: real, t: real): Limiter {
    Limiter(Config(10, 10, 2, map[]), map[POST := Bucket(10.0, 1.0, tokens, t)], map["x" := Bucket(2.0, HOUR, left, t)])
  }

  /** The first section of a post, and the second, on these levels. */
  lemma PostOnce(m: real, q: real, t: real, m': real, q': real, u: real, calls: map<nat, Phase>, c: nat, now: real)
    requires c !in calls
    requires TryConsume(Bucket(10.0, 1.0, m, t), now) == (Bucket(10.0, 1.0, m', u), None)
    requires TryConsume(Bucket(2.0, HOUR, q, t), now) == (Bucket(2.0, HOUR, q', u), None)
    ensures var s, a, b :=
            Threads(Posting(m, q, t), calls), TakeMethod(c, POST, Some("x"), now, now), TakeAuthor(c, now);
            && Enabled(s, a) && Enabled(Do(s, a), b)
            && Do(Do(s, a), b) == Threads(Posting(m', q', u), calls[c := Allowed(POST, now, Some("x"))])
  {
    hide Classify, TryConsume;
    PostIsWrite();
    assert map[POST := Bucket(10.0, 1.0, m, t)][POST := Bucket(10.0, 1.0, m', u)]
      == map[POST := Bucket(10.0, 1.0, m', u)];
    assert map["x" := Bucket(2.0, HOUR, q, t)]["x" := Bucket(2.0, HOUR, q', u)] == map["x" := Bucket(2.0, HOUR, q', u)];
    assert calls[c := Holding(POST, now, "x")][c := Allowed(POST, now, Some("x"))]
      == calls[c := Allowed(POST, now, Some("x"))];
  }

  lemma TwoSteps(s: Threads, steps: seq<Step>, t: Threads, a: Step, b: Step, u: Threads)
    requires Exec(s, steps) == Some(t) && Enabled(t, a) && Enabled(Do(t, a), b) && Do(Do(t, a), b) == u
    ensures Exec(s, steps + [a] + [b]) == Some(u)
  {
    hide Exec, Do, Enabled;
    OneStep(s, steps, t, a, Do(t, a));
    OneStep(s, steps + [a], Do(t, a), b, u);
  }

  lemma PostTokens()
    ensures TryConsume(Bucket(10.0, 1.0, 10.0, 0.0), 0.0) == (Bucket(10.0, 1.0, 9.0, 0.0), None)
    ensures TryConsume(Bucket(10.0, 1.0, 9.0, 0.0), 0.0) == (Bucket(10.0, 1.0, 8.0, 0.0), None)
    ensures TryConsume(Bucket(10.0, 1.0, 8.0, 0.0), 7200.0) == (Bucket(10.0, 1.0, 9.0, 7200.0), None)
    ensures TryConsume(Bucket(10.0, 1.0, 9.0, 7200.0), 0.0) == (Bucket(10.0, 1.0, 8.0, 7200.0), None)
  {
    OverOne(10.0);
    assert Refill(Bucket(10.0, 1.0, 8.0, 0.0), 7200.0) == Bucket(10.0, 1.0, 10.0, 7200.0);
  }

  lemma QuotaTokens()
    ensures TryConsume(Bucket(2.0, HOUR, 2.0, 0.0), 0.0) == (Bucket(2.0, HOUR, 1.0, 0.0), None)
    ensures TryConsume(Bucket(2.0, HOUR, 1.0, 0.0), 0.0) == (Bucket(2.0, HOUR, 0.0, 0.0), None)
    ensures TryConsume(Bucket(2.0, HOUR, 0.0, 0.0), 7200.0) == (Bucket(2.0, HOUR, 1.0, 7200.0), None)
    ensures TryConsume(Bucket(2.0, HOUR, 1.0, 7200.0), 0.0) == (Bucket(2.0, HOUR, 0.0, 7200.0), None)
  {
    assert Refill(Bucket(2.0, HOUR, 0.0, 0.0), 7200.0) == Bucket(2.0, HOUR, 2.0, 7200.0);
  }

  const EARLY := Allowed(POST, 0.0, Some("x"))
  const LATE := Allowed(POST, 7200.0, Some("x"))

  function PostSteps(c: nat, now: real): seq<Step> { [TakeMethod(c, POST, Some("x"), now, now), TakeAuthor(c, now)] }

  lemma RunPost(s: Threads, steps: seq<Step>, m: real, q: real, t: real, m': real, q': real, u: real,
                calls: map<nat, Phase>, c: nat, now: real)
    requires c !in calls && Exec(s, steps) == Some(Threads(Posting(m, q, t), calls))
    requires TryConsume(Bucket(10.0, 1.0, m, t), now) == (Bucket(10.0, 1.0, m', u), None)
    requires TryConsume(Bucket(2.0, HOUR, q, t), now) == (Bucket(2.0, HOUR, q', u), None)
    ensures Exec(s, steps + PostSteps(c, now))
            == Some(Threads(Posting(m', q', u), calls[c := Allowed(POST, now, Some("x"))]))
  {
    hide Do, Enabled, Posting, TryConsume, Exec;
    PostOnce(m, q, t, m', q', u, calls, c, now);
    TwoSteps(s, steps, Threads(Posting(m, q, t), calls), TakeMethod(c, POST, Some("x"), now, now), TakeAuthor(c, now),
             Threads(Posting(m', q', u), calls[c := Allowed(POST, now, Some("x"))]));
    assert steps + [TakeMethod(c, POST, Some("x"), now, now)] + [TakeAuthor(c, now)] == steps + PostSteps(c, now);
  }

  lemma FourPosts(s: Threads)
    requires s == Threads(Posting(10.0, 2.0, 0.0), map[])
    ensures Exec(s, [] + PostSteps(0, 0.0) + PostSteps(1, 0.0) + PostSteps(2, 7200.0) + PostSteps(3, 0.0))
            == Some(Threads(Posting(8.0, 0.0, 7200.0), map[][0 := EARLY][1 := EARLY][2 := LATE][3 := EARLY]))
  {
    hide TryConsume, Exec, PostSteps, Posting;
    PostTokens();
    QuotaTokens();
    NoSteps(s);
    RunPost(s, [], 10.0, 2.0, 0.0, 9.0, 1.0, 0.0, map[], 0, 0.0);
    RunPost(s, [] + PostSteps(0, 0.0), 9.0, 1.0, 0.0, 8.0, 0.0, 0.0, map[][0 := EARLY], 1, 0.0);
    RunPost(s, [] + PostSteps(0, 0.0) + PostSteps(1, 0.0), 8.0, 0.0, 0.0, 9.0, 1.0, 7200.0,
            map[][0 := EARLY][1 := EARLY], 2, 7200.0);
    RunPost(s, [] + PostSteps(0, 0.0) + PostSteps(1, 0.0) + PostSteps(2, 7200.0), 9.0, 1.0, 7200.0, 8.0, 0.0, 7200.0,
            map[][0 := EARLY][1 := EARLY][2 := LATE], 3, 0.0);
  }

  lemma PostingIsValid()
    ensures ValidLimiter(Posting(10.0, 2.0, 0.0))
  {
    PostIsWrite();
    assert MethodLimit(Config(10, 10, 2, map[]), POST) == 10;
    hide Classify, MethodLimit;
  }

  /** An author's quota fails the same way: three writes with reading 0 pass at two an hour. */
  lemma StragglerBreaksAuthorBound() returns (s: Threads, steps: seq<Step>)
    ensures ValidLimiter(s.limiter) && s.calls == map[] && s.limiter.config.authorWritesPerHour == 2
    ensures Exec(s, steps).Some? && |Writers(s, Exec(s, steps).value, "x", 0.0, 0.0)| == 3
  {
    hide Exec, ValidLimiter, PostSteps, Writers;
    s := Threads(Posting(10.0, 2.0, 0.0), map[]);
    PostingIsValid();
    steps := [] + PostSteps(0, 0.0) + PostSteps(1, 0.0) + PostSteps(2, 7200.0) + PostSteps(3, 0.0);
    FourPosts(s);
    ThreeEarly(s, Exec(s, steps).value);
  }

  lemma ThreeEarly(s: Threads, t: Threads)
    requires s.calls == map[] && t.calls == map[][0 := EARLY][1 := EARLY][2 := LATE][3 := EARLY]
    ensures |Writers(s, t, "x", 0.0, 0.0)| == 3
  {
    assert Writers(s, t, "x", 0.0, 0.0) == {0, 1, 3};
  }
}
