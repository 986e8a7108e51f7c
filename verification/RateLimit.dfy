/**
 The per-type token bucket (internal/command/rate_limit.go) and how the executor
 uses it (allowCommand and recordRateLimitFailure in internal/command/executor.go).
 Time and tokens are real numbers; clock readings may go backwards.
 */
module RateLimit {

  datatype Bucket = Bucket(tokens: real, capacity: real, refill: real, last: real)

  function Max(a: real, b: real): real {
    if a < b then b else a
  }

  function Capacity(perMinute: real): real {
    Max(1.0, perMinute)
  }

  function Fresh(perMinute: real, now: real): Bucket {
    Bucket(Capacity(perMinute), Capacity(perMinute), perMinute / 60.0, now)
  }

  ghost predicate Valid(b: Bucket) {
    0.0 <= b.tokens <= b.capacity && 1.0 <= b.capacity && 0.0 < b.refill
  }

  /** What the clock pays for between two readings. */
  function Earned(refill: real, from: real, to: real): real {
    (to - from) * refill
  }

  function Refilled(b: Bucket, now: real): Bucket {
    if now <= b.last then b
    else
      var tokens := b.tokens + Earned(b.refill, b.last, now);
      b.(tokens := if tokens > b.capacity then b.capacity else tokens, last := now)
  }

  function Taken(b: Bucket): Bucket {
    if b.tokens >= 1.0 then b.(tokens := b.tokens - 1.0) else b
  }

  /** One call of `allow`. */
  function Allowed(b: Bucket, now: real): bool {
    Refilled(b, now).tokens >= 1.0
  }

  function AfterAllow(b: Bucket, now: real): Bucket {
    Taken(Refilled(b, now))
  }

  function RetryAfter(b: Bucket): real
    requires b.refill != 0.0
  {
    (1.0 - b.tokens) / b.refill
  }

  const NANOS := 1_000_000_000

  /** The wait as a Go duration: truncated to nanoseconds. */
  function WaitNanos(b: Bucket): int
    requires b.refill != 0.0
  {
    (RetryAfter(b) * NANOS as real).Floor
  }

  /** The seconds a denied caller is told: rounded up, and at least one. */
  function Told(nanos: int): nat {
    var seconds := nanos / NANOS + if nanos % NANOS > 0 then 1 else 0;
    if seconds < 1 then 1 else seconds
  }

  // ---------- One command ----------

  /** The clock readings of one command: that of its check, and if it is denied that of the failure report. */
  datatype Call = Call(check: real, report: real)

  function AfterCall(b: Bucket, c: Call): Bucket {
    var checked := AfterAllow(b, c.check);
    if Allowed(b, c.check) then checked else AfterAllow(checked, c.report)
  }

  function Latest(b: Bucket, c: Call): real {
    if Allowed(b, c.check) then Max(b.last, c.check) else Max(Max(b.last, c.check), c.report)
  }

  lemma EarnedAdds(refill: real, a: real, b: real, c: real)
    ensures Earned(refill, a, b) + Earned(refill, b, c) == Earned(refill, a, c)
    ensures Earned(refill, a, a) == 0.0 && (refill >= 0.0 && a <= b ==> 0.0 <= Earned(refill, a, b))
  {
  }

  /** From `b` to `b'` the bucket let `n` commands through: its tokens stayed within 0 and capacity, and it
      handed out no more than it held and earned. */
  ghost predicate Spent(b: Bucket, b': Bucket, n: nat) {
    && Valid(b') && b'.capacity == b.capacity && b'.refill == b.refill && b.last <= b'.last
    && b'.tokens + n as real <= b.tokens + Earned(b.refill, b.last, b'.last)
  }

  lemma SpentAdds(a: Bucket, b: Bucket, c: Bucket, m: nat, n: nat)
    requires Spent(a, b, m) && Spent(b, c, n)
    ensures Spent(a, c, m + n)
  {
    EarnedAdds(a.refill, a.last, b.last, c.last);
    hide Earned;
  }

  lemma AllowSpends(b: Bucket, now: real)
    requires Valid(b)
    ensures Spent(b, AfterAllow(b, now), if Allowed(b, now) then 1 else 0)
    ensures AfterAllow(b, now).last == Max(b.last, now)
  {
    EarnedAdds(b.refill, b.last, now, now);
    hide Earned;
  }

  lemma CallSpends(b: Bucket, c: Call)
    requires Valid(b)
    ensures Spent(b, AfterCall(b, c), if Allowed(b, c.check) then 1 else 0)
    ensures AfterCall(b, c).last == Latest(b, c)
  {
    AllowSpends(b, c.check);
    if !Allowed(b, c.check) {
      var checked := AfterAllow(b, c.check);
      AllowSpends(checked, c.report);
      FreeAllow(checked, c.report);
      SpentAdds(b, checked, AfterAllow(checked, c.report), 0, 0);
    }
  }

  /** The report may take a token too, but lets nothing through. */
  lemma FreeAllow(b: Bucket, now: real)
    requires Valid(b)
    ensures Spent(b, AfterAllow(b, now), 0)
  {
    AllowSpends(b, now);
    hide Earned;
  }

  // ---------- Any number of commands ----------

  function After(b: Bucket, calls: seq<Call>): Bucket {
    if calls == [] then b else AfterCall(After(b, calls[..|calls| - 1]), calls[|calls| - 1])
  }

  /** How many of the calls were let through. */
  function LetThrough(b: Bucket, calls: seq<Call>): nat {
    if calls == [] then 0
    else
      var front := calls[..|calls| - 1];
      LetThrough(b, front) + if Allowed(After(b, front), calls[|calls| - 1].check) then 1 else 0
  }

  lemma {:induction false} CallsSpend(b: Bucket, calls: seq<Call>)
    requires Valid(b)
    ensures Spent(b, After(b, calls), LetThrough(b, calls))
  {
    if calls != [] {
      hide Spent, AfterCall, Allowed;
      var front, c := calls[..|calls| - 1], calls[|calls| - 1];
      CallsSpend(b, front);
      SpentIsValid(b, After(b, front), LetThrough(b, front));
      CallSpends(After(b, front), c);
      SpentAdds(b, After(b, front), After(b, calls), LetThrough(b, front),
                if Allowed(After(b, front), c.check) then 1 else 0);
    }
  }

  lemma SpentIsValid(b: Bucket, b': Bucket, n: nat)
    requires Spent(b, b', n)
    ensures Valid(b') && b'.capacity == b.capacity && b'.refill == b.refill && b.last <= b'.last
  {
  }

  /** The rate bound: whatever came before, and whatever the clock does, the commands let through while the
      largest reading so far moves from `s` to `t` number at most max(1, r) + (r/60)(t - s). */
  lemma RateBound(perMinute: real, start: real, before: seq<Call>, calls: seq<Call>)
    requires perMinute > 0.0
    ensures var b := After(Fresh(perMinute, start), before);
            var s, t := b.last, After(b, calls).last;
            s <= t && LetThrough(b, calls) as real <= Capacity(perMinute) + Earned(perMinute / 60.0, s, t)
  {
    hide Earned, After, LetThrough;
    CallsSpend(Fresh(perMinute, start), before);
    var b := After(Fresh(perMinute, start), before);
    CallsSpend(b, calls);
  }

  /** `last` is the largest reading so far. */
  lemma {:induction false} LastIsLargest(b: Bucket, calls: seq<Call>, i: nat)
    requires Valid(b) && i < |calls|
    ensures b.last <= After(b, calls).last && calls[i].check <= After(b, calls).last
    ensures !Allowed(After(b, calls[..i]), calls[i].check) ==> calls[i].report <= After(b, calls).last
  {
    var front, c := calls[..|calls| - 1], calls[|calls| - 1];
    CallsSpend(b, front);
    CallSpends(After(b, front), c);
    if i < |front| {
      assert front[..i] == calls[..i];
      LastIsLargest(b, front, i);
    }
  }

  /** A full bucket lets a whole burst through, even at a standing clock. */
  lemma {:induction false} BurstIsLetThrough(b: Bucket, calls: seq<Call>)
    requires Valid(b) && |calls| as real <= b.tokens
    ensures LetThrough(b, calls) == |calls| && b.tokens - |calls| as real <= After(b, calls).tokens
  {
    if calls != [] {
      var front, c := calls[..|calls| - 1], calls[|calls| - 1];
      BurstIsLetThrough(b, front);
      CallsSpend(b, front);
      OneIsLetThrough(After(b, front), c);
      hide AfterCall, Allowed, Spent, Valid;
    }
  }

  lemma OneIsLetThrough(b: Bucket, c: Call)
    requires Valid(b) && 1.0 <= b.tokens
    ensures Allowed(b, c.check) && b.tokens - 1.0 <= AfterCall(b, c).tokens
  {
    EarnedAdds(b.refill, b.last, c.check, c.check);
    hide Earned;
  }

  /** The wait a denied caller is told is exact: a later reading is let through if and only if it has passed. */
  lemma RetryAfterIsExact(b: Bucket, now: real, later: real)
    requires Valid(b) && !Allowed(b, now) && later >= AfterAllow(b, now).last
    ensures var denied := AfterAllow(b, now);
            0.0 < RetryAfter(denied) && (Allowed(denied, later) <==> later - denied.last >= RetryAfter(denied))
  {
    AllowSpends(b, now);
    var denied := AfterAllow(b, now);
    Division(1.0 - denied.tokens, denied.refill, later - denied.last);
  }

  lemma WaitIsNotNegative(b: Bucket)
    requires Valid(b) && b.tokens < 1.0
    ensures 0.0 < RetryAfter(b) && 0 <= WaitNanos(b)
    ensures WaitNanos(b) as real <= RetryAfter(b) * NANOS as real < WaitNanos(b) as real + 1.0
  {
    Division(1.0 - b.tokens, b.refill, 0.0);
  }

  /** Waiting the seconds told is enough, unless the truncation dropped a fraction of a nanosecond above a whole
      second: exactly then the next reading comes that fraction too early. */
  lemma ToldWaitFallsShortIff(b: Bucket, now: real)
    requires Valid(b) && !Allowed(b, now)
    ensures var denied := AfterAllow(b, now);
            && Valid(denied) && denied.tokens < 1.0
            && 0 <= WaitNanos(denied)
            && (!Allowed(denied, denied.last + Told(WaitNanos(denied)) as real)
                <==> && WaitNanos(denied) > 0 && WaitNanos(denied) % NANOS == 0
                     && WaitNanos(denied) as real < RetryAfter(denied) * NANOS as real)
  {
    AllowSpends(b, now);
    var denied := AfterAllow(b, now);
    WaitIsNotNegative(denied);
    var seconds := Told(WaitNanos(denied));
    RetryAfterIsExact(b, now, denied.last + seconds as real);
    hide Allowed, AfterAllow, RetryAfter, WaitNanos;
    ToldCovers(WaitNanos(denied), RetryAfter(denied));
  }

  /** One input: seven commands a minute, the burst used up at instant 0, and the next command 0.571428571 seconds
      later. It is denied and told to wait 8 seconds, and is denied again after them. */
  lemma ToldWaitFallsShort()
    ensures var emptied := Bucket(0.0, 7.0, 7.0 / 60.0, 0.0);
            var denied := AfterAllow(emptied, 0.571428571);
            && After(Fresh(7.0, 0.0), seq(7, _ => Call(0.0, 0.0))) == emptied
            && !Allowed(emptied, 0.571428571)
            && Told(WaitNanos(denied)) == 8
            && !Allowed(denied, denied.last + 8.0)
  {
    EmptiedAtOnce(7.0, 7);
    var denied := AfterAllow(Bucket(0.0, 7.0, 7.0 / 60.0, 0.0), 0.571428571);
    assert denied.tokens == 0.571428571 * 7.0 / 60.0;
    assert RetryAfter(denied) * 7.0 == 60.0 * (1.0 - denied.tokens);
    assert WaitNanos(denied) == 8_000_000_000;
  }

  /** `n` commands at the instant the bucket was made. */
  lemma {:induction false} EmptiedAtOnce(perMinute: real, n: nat)
    requires n as real <= Capacity(perMinute)
    ensures After(Fresh(perMinute, 0.0), seq(n, _ => Call(0.0, 0.0)))
            == Bucket(Capacity(perMinute) - n as real, Capacity(perMinute), perMinute / 60.0, 0.0)
  {
    if n > 0 {
      EmptiedAtOnce(perMinute, n - 1);
      var calls := seq(n, _ => Call(0.0, 0.0));
      assert calls[..n - 1] == seq(n - 1, _ => Call(0.0, 0.0));
    }
  }

  lemma ToldCovers(nanos: nat, wait: real)
    requires nanos as real <= wait * NANOS as real < nanos as real + 1.0
    ensures Told(nanos) as real < wait <==> nanos > 0 && nanos % NANOS == 0 && (nanos as real) < wait * NANOS as real
  {
    var q, r := nanos / NANOS, nanos % NANOS;
    assert nanos == q * NANOS + r;
    if r > 0 {
      assert (q + 1) * NANOS >= nanos + 1;
    }
  }

  lemma Division(missing: real, refill: real, waited: real)
    requires 0.0 < refill && 0.0 < missing
    ensures 0.0 < missing / refill && (waited >= missing / refill <==> waited * refill >= missing)
  {
    var q := missing / refill;
    assert q * refill == missing;
    if waited >= q {
      assert (waited - q) * refill >= 0.0;
    } else {
      assert (q - waited) * refill > 0.0;
    }
    Positive(q, refill);
  }

  lemma Positive(q: real, refill: real)
    requires 0.0 < refill && 0.0 < q * refill
    ensures 0.0 < q
  {
    assert -q * refill == -(q * refill);
  }

  // ---------- The bucket, and the limit of one command type ----------

  class TokenBucket {
    var tokens: real
    var capacity: real
    var refillPerSec: real
    var lastRefill: real

    ghost function State(): Bucket
      reads this
    {
      Bucket(tokens, capacity, refillPerSec, lastRefill)
    }

    constructor (perMinute: real, now: real)
      ensures State() == Fresh(perMinute, now)
    {
      var room := perMinute;
      if room < 1.0 {
        room := 1.0;
      }
      tokens, capacity, refillPerSec, lastRefill := room, room, perMinute / 60.0, now;
    }

    method Allow(now: real) returns (ok: bool, retryAfter: int)
      requires refillPerSec > 0.0
      modifies this
      ensures State() == AfterAllow(old(State()), now)
      ensures ok == Allowed(old(State()), now)
      ensures retryAfter == if ok then 0 else WaitNanos(State())
    {
      var elapsed := now - lastRefill;
      if elapsed > 0.0 {
        tokens := tokens + elapsed * refillPerSec;
        if tokens > capacity {
          tokens := capacity;
        }
        lastRefill := now;
      }
      if tokens >= 1.0 {
        tokens := tokens - 1.0;
        return true, 0;
      }
      var missing := 1.0 - tokens;
      var seconds := missing / refillPerSec;
      return false, (seconds * NANOS as real).Floor;
    }
  }

  /** The executor's limiter for one command type; a rate that is not positive limits nothing. */
  class TypeLimit {
    const rate: real
    var bucket: TokenBucket?

    ghost predicate Ready()
      reads this, bucket
    {
      bucket != null ==> rate > 0.0 && bucket.refillPerSec == rate / 60.0 && Valid(bucket.State())
    }

    ghost function State(created: real): Bucket
      reads this, bucket
    {
      if bucket == null then Fresh(rate, created) else bucket.State()
    }

    constructor (rate: real)
      ensures this.rate == rate && bucket == null
    {
      this.rate, bucket := rate, null;
    }

    /** The bucket is made at the first command, and a denied command asks it a second time. */
    method Admit(created: real, c: Call) returns (ok: bool, seconds: nat)
      requires Ready()
      modifies this, bucket
      ensures Ready() && (rate > 0.0 ==> bucket != null) && (bucket == old(bucket) || fresh(bucket))
      ensures rate <= 0.0 ==> ok && bucket == old(bucket)
      ensures !ok ==> seconds == if Allowed(AfterAllow(old(State(created)), c.check), c.report) then 1
                                 else Told(WaitNanos(State(created)))
      ensures rate > 0.0 ==>
                && ok == Allowed(old(State(created)), c.check)
                && State(created) == AfterCall(old(State(created)), c)
    {
      if rate <= 0.0 {
        return true, 0;
      }
      if bucket == null {
        bucket := new TokenBucket(rate, created);
      }
      AllowSpends(bucket.State(), c.check);
      var allowed, _ := bucket.Allow(c.check);
      if allowed {
        return true, 0;
      }
      AllowSpends(bucket.State(), c.report);
      var late, retryAfter := bucket.Allow(c.report);
      if !late {
        WaitIsNotNegative(bucket.State());
      }
      return false, Told(retryAfter);
    }
  }
}
