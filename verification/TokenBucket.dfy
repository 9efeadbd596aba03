/** Token buckets and the bounded wait for a token, over exact reals; instants and durations are in seconds. */
module TokenBuckets {
  import opened Wrappers

  /** Value of a bucket: the tokens it held at instant `last`. */
  datatype Bucket = Bucket(tokens: real, last: real)

  datatype Taken = Granted | Wait(delay: real)

  function Min(a: real, b: real): real {
    if a <= b then a else b
  }

  function Max(a: real, b: real): real {
    if a >= b then a else b
  }

  /** Tokens held at `now`, at most `cap`; a `now` before the last update adds nothing. */
  function TokensAt(b: Bucket, cap: real, perSec: real, now: real): real {
    Min(b.tokens + Max(now - b.last, 0.0) * perSec, cap)
  }

  function Taking(b: Bucket, cap: real, perSec: real, now: real): (Bucket, Taken)
    requires perSec > 0.0
  {
    var tokens, last := TokensAt(b, cap, perSec, now), Max(b.last, now);
    if tokens >= 1.0 then (Bucket(tokens - 1.0, last), Granted)
    else (Bucket(tokens, last), Wait((1.0 - tokens) / perSec))
  }

  class TokenBucket {
    var tokens: real
    var last: real

    constructor Full(cap: real, now: real)
      ensures State() == Bucket(cap, now)
    {
      tokens, last := cap, now;
    }

    function State(): Bucket
      reads this
    {
      Bucket(tokens, last)
    }

    method Take(cap: real, perSec: real, now: real) returns (r: Taken)
      requires perSec > 0.0
      modifies this
      ensures (State(), r) == Taking(old(State()), cap, perSec, now)
    {
      var refill := (if now > last then now - last else 0.0) * perSec;
      tokens := if tokens + refill <= cap then tokens + refill else cap;
      last := if last >= now then last else now;
      if tokens >= 1.0 {
        tokens := tokens - 1.0;
        return Granted;
      }
      return Wait((1.0 - tokens) / perSec);
    }
  }

  // ----- rate bound

  predicate InRange(b: Bucket, cap: real) {
    0.0 <= b.tokens <= cap
  }

  /** The bucket after takes at the given instants, in whatever order those instants are. */
  function After(b: Bucket, cap: real, perSec: real, nows: seq<real>): Bucket
    requires perSec > 0.0
  {
    if nows == [] then b
    else Taking(After(b, cap, perSec, nows[..|nows| - 1]), cap, perSec, nows[|nows| - 1]).0
  }

  /** How many of the takes were granted. */
  function Grants(b: Bucket, cap: real, perSec: real, nows: seq<real>): nat
    requires perSec > 0.0
  {
    if nows == [] then 0
    else
      Grants(b, cap, perSec, nows[..|nows| - 1]) +
      if Taking(After(b, cap, perSec, nows[..|nows| - 1]), cap, perSec, nows[|nows| - 1]).1 == Granted then 1 else 0
  }

  /** `granted` tokens were paid for by what `b` held and by what time added until `b'`. */
  ghost predicate Balanced(b: Bucket, b': Bucket, granted: nat, cap: real, perSec: real) {
    && InRange(b', cap)
    && b.last <= b'.last
    && b'.tokens + granted as real <= b.tokens + perSec * (b'.last - b.last)
  }

  lemma TakeBalance(b: Bucket, cap: real, perSec: real, now: real)
    requires perSec > 0.0 && InRange(b, cap)
    ensures var (b', r) := Taking(b, cap, perSec, now); Balanced(b, b', if r == Granted then 1 else 0, cap, perSec)
  {
  }

  lemma BalanceTransitive(b: Bucket, mid: Bucket, end: Bucket, first: nat, second: nat, cap: real, perSec: real)
    requires Balanced(b, mid, first, cap, perSec) && Balanced(mid, end, second, cap, perSec)
    ensures Balanced(b, end, first + second, cap, perSec)
  {
    assert perSec * (end.last - b.last) == perSec * (mid.last - b.last) + perSec * (end.last - mid.last);
  }

  /** Tokens held at the end plus grants never exceed what was held and what the elapsed bucket time added. */
  lemma {:induction false} RunBalance(b: Bucket, cap: real, perSec: real, nows: seq<real>)
    requires perSec > 0.0 && InRange(b, cap)
    ensures Balanced(b, After(b, cap, perSec, nows), Grants(b, cap, perSec, nows), cap, perSec)
  {
    hide Taking;
    if nows != [] {
      var front, now := nows[..|nows| - 1], nows[|nows| - 1];
      var mid := After(b, cap, perSec, front);
      RunBalance(b, cap, perSec, front);
      TakeBalance(mid, cap, perSec, now);
      var (end, r) := Taking(mid, cap, perSec, now);
      BalanceTransitive(b, mid, end, Grants(b, cap, perSec, front), if r == Granted then 1 else 0, cap, perSec);
    }
  }

  lemma {:induction false} AfterSplit(b: Bucket, cap: real, perSec: real, first: seq<real>, rest: seq<real>)
    requires perSec > 0.0
    ensures After(b, cap, perSec, first + rest) == After(After(b, cap, perSec, first), cap, perSec, rest)
    ensures Grants(b, cap, perSec, first + rest)
            == Grants(b, cap, perSec, first) + Grants(After(b, cap, perSec, first), cap, perSec, rest)
  {
    if rest == [] {
      assert first + rest == first;
    } else {
      AfterSplit(b, cap, perSec, first, rest[..|rest| - 1]);
      assert (first + rest)[..|first + rest| - 1] == first + rest[..|rest| - 1];
    }
  }

  /**
   * The rate bound. In any sequence of takes, with timestamps in any order, the takes from the i-th up to the j-th are
   * granted at most one burst plus the refill of the bucket time that passed between them.
   */
  lemma RateBound(b: Bucket, cap: real, perSec: real, nows: seq<real>, i: nat, j: nat)
    requires perSec > 0.0 && InRange(b, cap) && i <= j <= |nows|
    ensures var (bi, bj) := (After(b, cap, perSec, nows[..i]), After(b, cap, perSec, nows[..j]));
            && InRange(bj, cap)
            && bi.last <= bj.last
            && (Grants(b, cap, perSec, nows[..j]) - Grants(b, cap, perSec, nows[..i])) as real
               <= cap + perSec * (bj.last - bi.last)
  {
    hide After, Grants, Taking;
    assert nows[..j] == nows[..i] + nows[i..j];
    AfterSplit(b, cap, perSec, nows[..i], nows[i..j]);
    RunBalance(b, cap, perSec, nows[..i]);
    RunBalance(After(b, cap, perSec, nows[..i]), cap, perSec, nows[i..j]);
  }

  // ----- the advertised wait

  lemma ProductOrder(x: real, y: real, p: real)
    requires p > 0.0
    ensures x * p <= y * p <==> x <= y
  {
    if x < y {
      assert (y - x) * p > 0.0;
    } else if y < x {
      assert (x - y) * p > 0.0;
    }
  }

  lemma PositiveDelay(delay: real, perSec: real)
    requires perSec > 0.0 && delay * perSec > 0.0
    ensures delay > 0.0
  {
  }

  /** A bucket short of one token holds it once `delay` has passed on its own clock. */
  lemma DueAfter(b: Bucket, cap: real, perSec: real, delay: real, now: real)
    requires perSec > 0.0 && cap >= 1.0 && b.tokens < 1.0
    requires delay > 0.0 && delay * perSec == 1.0 - b.tokens
    ensures TokensAt(b, cap, perSec, now) >= 1.0 <==> now - b.last >= delay
  {
    var elapsed := Max(now - b.last, 0.0);
    ProductOrder(delay, elapsed, perSec);
    assert TokensAt(b, cap, perSec, now) == Min(b.tokens + elapsed * perSec, cap);
  }

  /**
   * A refused take removes nothing, and an uncontended retry `d` seconds later is granted exactly from the advertised
   * wait on, counted from the bucket's own clock. So the advertised wait is the least sufficient one if and only if the
   * refused take was not timestamped before the bucket's last update.
   */
  lemma WaitIsExact(b: Bucket, cap: real, perSec: real, now: real, d: real)
    requires perSec > 0.0 && cap >= 1.0 && InRange(b, cap) && d >= 0.0
    requires Taking(b, cap, perSec, now).1.Wait?
    ensures var (b', r) := Taking(b, cap, perSec, now);
            && b'.tokens == TokensAt(b, cap, perSec, now) < 1.0
            && r.delay > 0.0
            && (Taking(b', cap, perSec, now + d).1 == Granted <==> d >= r.delay + (b'.last - now))
            && (b'.last == now <==> now >= b.last)
  {
    hide TokensAt;
    var (b', r) := Taking(b, cap, perSec, now);
    assert r.delay * perSec == 1.0 - b'.tokens;
    PositiveDelay(r.delay, perSec);
    DueAfter(b', cap, perSec, r.delay, now + d);
  }

  // ----- waiting for a token

  /** `n` requests per `period` seconds with burst `n`; none or 0 means no limit. */
  function LimitRate(n: Option<nat>, period: real): (r: Option<(real, real)>)
    requires period > 0.0
    ensures r.Some? <==> n.Some? && n.value > 0
  {
    if n.None? || n.value == 0 then None else Some((n.value as real, n.value as real / period))
  }

  class Limit {
    const cap: real
    const perSec: real
    const bucket: TokenBucket

    ghost predicate Valid()
      reads this, bucket
    {
      cap >= 1.0 && perSec > 0.0 && InRange(bucket.State(), cap)
    }

    constructor (n: nat, period: real, now: real)
      requires n > 0 && period > 0.0
      ensures Valid() && fresh(bucket)
      ensures cap == n as real && perSec * period == n as real
      ensures Some((cap, perSec)) == LimitRate(Some(n), period)
      ensures bucket.State() == Bucket(n as real, now)
    {
      cap := n as real;
      perSec := n as real / period;
      bucket := new TokenBucket.Full(n as real, now);
      new;
      assert perSec > 0.0 by {
        ProductOrder(perSec, 0.0, period);
        assert perSec * period == n as real;
      }
    }

    /**
     * Tries until a token is granted or the next advertised wait would go past `maxWait`. In between nobody else takes
     * from the bucket, and a sleep is never shorter than requested; `oversleep` is the excess of the i-th sleep.
     */
    method Acquire(start: real, maxWait: real, oversleep: nat -> real) returns (ok: bool, end: real, ghost sleeps: nat)
      requires Valid() && start >= bucket.last
      requires forall i :: oversleep(i) >= 0.0
      modifies bucket
      ensures Valid()
      ensures sleeps <= 1
      ensures ok <==> var r := Taking(old(bucket.State()), cap, perSec, start).1; r == Granted || r.delay <= maxWait
      ensures ok ==> end <= start + Max(maxWait, 0.0) + (if sleeps == 0 then 0.0 else oversleep(0))
      ensures ok ==> bucket.State() == Bucket(TokensAt(old(bucket.State()), cap, perSec, end) - 1.0, end)
      ensures !ok ==> sleeps == 0 && bucket.State() == Bucket(TokensAt(old(bucket.State()), cap, perSec, start), start)
    {
      var now := start;
      sleeps := 0;
      ghost var b0 := bucket.State();
      while true
        invariant Valid() && sleeps <= 1 && start <= now
        invariant sleeps == 0 ==> now == start && bucket.State() == b0
        invariant sleeps == 1 ==>
            var (b1, r) := Taking(b0, cap, perSec, start);
            r.Wait? && r.delay <= maxWait && bucket.State() == b1 && now == start + r.delay + oversleep(0)
        decreases 1 - sleeps
      {
        ghost var before := bucket.State();
        TakeBalance(before, cap, perSec, now);
        var taken := bucket.Take(cap, perSec, now);
        if taken == Granted {
          if sleeps == 1 {
            ResumedTake(b0, cap, perSec, start, now);
          }
          return true, now, sleeps;
        }
        if sleeps == 1 {
          WaitIsExact(b0, cap, perSec, start, now - start);
        }
        if taken.delay + (now - start) > maxWait {
          return false, now, sleeps;
        }
        now := now + taken.delay + oversleep(0);
        sleeps := sleeps + 1;
      }
    }
  }

  /** Topping up in two steps is topping up in one. */
  lemma ResumedTake(b: Bucket, cap: real, perSec: real, start: real, now: real)
    requires perSec > 0.0 && b.last <= start <= now
    requires Taking(b, cap, perSec, start).1.Wait? && cap >= 1.0
    ensures TokensAt(Taking(b, cap, perSec, start).0, cap, perSec, now) == TokensAt(b, cap, perSec, now)
  {
    assert (start - b.last) * perSec + (now - start) * perSec == (now - b.last) * perSec;
    ProductOrder(0.0, now - start, perSec);
  }

  // ----- waiting while others take

  /** One try of a waiting caller: the instants at which others have taken since its last try, and its own. */
  datatype Round = Round(others: seq<real>, now: real)

  /** The bucket after some rounds. */
  function AfterRounds(b: Bucket, cap: real, perSec: real, rounds: seq<Round>): Bucket
    requires perSec > 0.0
    decreases |rounds|
  {
    if rounds == [] then b
    else
      var last := rounds[|rounds| - 1];
      var before := After(AfterRounds(b, cap, perSec, rounds[..|rounds| - 1]), cap, perSec, last.others);
      Taking(before, cap, perSec, last.now).0
  }

  /** What the try of the last round is told. */
  function Told(b: Bucket, cap: real, perSec: real, rounds: seq<Round>): Taken
    requires perSec > 0.0 && rounds != []
  {
    var last := rounds[|rounds| - 1];
    Taking(After(AfterRounds(b, cap, perSec, rounds[..|rounds| - 1]), cap, perSec, last.others), cap, perSec, last.now).1
  }

  /**
   * Every round was refused and went to sleep: its wait fitted in what was left of `maxWait`, and the next try comes no
   * earlier than the wait asks for.
   */
  ghost predicate Sleeping(b: Bucket, cap: real, perSec: real, start: real, maxWait: real, rounds: seq<Round>)
    requires perSec > 0.0
    decreases |rounds|
  {
    rounds != [] ==>
      var last, front, told := rounds[|rounds| - 1], rounds[..|rounds| - 1], Told(b, cap, perSec, rounds);
      && Sleeping(b, cap, perSec, start, maxWait, front)
      && told.Wait? && told.delay + (last.now - start) <= maxWait
      && last.now >= if front == [] then start else front[|front| - 1].now + Told(b, cap, perSec, front).delay
  }

  /** The waits that were slept. */
  ghost function Slept(b: Bucket, cap: real, perSec: real, start: real, maxWait: real, rounds: seq<Round>): real
    requires perSec > 0.0 && Sleeping(b, cap, perSec, start, maxWait, rounds)
    decreases |rounds|
  {
    if rounds == [] then 0.0
    else Slept(b, cap, perSec, start, maxWait, rounds[..|rounds| - 1]) + Told(b, cap, perSec, rounds).delay
  }

  /**
   * However others take from the bucket meanwhile, and however long the sleeps really last, the waits that a caller agrees
   * to never add up to more than `maxWait`, and no try that ends in sleep is made later than that.
   */
  lemma {:induction false} SleepsFit(b: Bucket, cap: real, perSec: real, start: real, maxWait: real, rounds: seq<Round>)
    requires perSec > 0.0 && rounds != [] && Sleeping(b, cap, perSec, start, maxWait, rounds)
    ensures Slept(b, cap, perSec, start, maxWait, rounds) <= maxWait
    ensures var last := rounds[|rounds| - 1];
            && start + Slept(b, cap, perSec, start, maxWait, rounds) <= last.now + Told(b, cap, perSec, rounds).delay
            && last.now < start + maxWait
    decreases |rounds|
  {
    hide After, AfterRounds, Taking;
    var front, last := rounds[..|rounds| - 1], rounds[|rounds| - 1];
    if front != [] {
      SleepsFit(b, cap, perSec, start, maxWait, front);
    }
    WaitIsPositive(After(AfterRounds(b, cap, perSec, front), cap, perSec, last.others), cap, perSec, last.now);
  }

  lemma WaitIsPositive(b: Bucket, cap: real, perSec: real, now: real)
    requires perSec > 0.0
    ensures var r := Taking(b, cap, perSec, now).1; r.Wait? ==> r.delay > 0.0
  {
    var (b', r) := Taking(b, cap, perSec, now);
    if r.Wait? {
      assert r.delay * perSec == 1.0 - b'.tokens;
      PositiveDelay(r.delay, perSec);
    }
  }
}
