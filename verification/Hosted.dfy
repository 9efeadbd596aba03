/** Hosted mode: per-client limits and the admission of calls under a rate, a daily and a monthly quota. */
module Hosted {
  import opened Persistence
  import opened TokenBuckets
  import opened Windows
  import opened Wrappers

  datatype ClientLimits = ClientLimits(
    requestsPerMinute: Option<nat>,
    dailyRequests: Option<nat>,
    monthlyCredits: Option<nat>,
    toolProfile: Option<string>)

  function OrElse<T>(a: Option<T>, b: Option<T>): Option<T> {
    if a.Some? then a else b
  }

  /** Each limit from `over` where that sets it, else from `base`. */
  function LimitsOr(over: ClientLimits, base: ClientLimits): ClientLimits {
    ClientLimits(
      OrElse(over.requestsPerMinute, base.requestsPerMinute),
      OrElse(over.dailyRequests, base.dailyRequests),
      OrElse(over.monthlyCredits, base.monthlyCredits),
      OrElse(over.toolProfile, base.toolProfile))
  }

  datatype Client = Client(active: bool, limits: Option<ClientLimits>)

  /** Store override over config override over the default. */
  function EffectiveLimits(default: ClientLimits, overrides: map<string, ClientLimits>, id: string, c: Client): ClientLimits {
    var base := if id in overrides then LimitsOr(overrides[id], default) else default;
    match c.limits
    case None => base
    case Some(o) => LimitsOr(o, base)
  }

  /** Whole seconds to wait, at least one. */
  function RetryAfter(wait: real): (secs: nat)
    ensures secs >= 1 && secs as real >= wait
    ensures secs > 1 ==> (secs - 1) as real < wait
  {
    if wait <= 1.0 then 1
    else if wait.Floor as real == wait then wait.Floor
    else wait.Floor + 1
  }

  datatype Admission = Admitted | Unauthorized | RateLimited(retryAfter: nat) | QuotaExceeded(which: Exceeded)

  /** The client's bucket after one take, and the wait if it was refused; a rate of 0 refuses without a bucket. */
  function Rating(buckets: map<string, Bucket>, client: string, rpm: nat, at: real): (map<string, Bucket>, Option<nat>) {
    if rpm == 0 then (buckets, Some(60))
    else
      var cap := rpm as real;
      var (b, r) := Taking(if client in buckets then buckets[client] else Bucket(cap, at), cap, cap / 60.0, at);
      (buckets[client := b], match r case Granted => None case Wait(delay) => Some(RetryAfter(delay)))
  }

  class ClientGuard {
    const store: Store
    const default: ClientLimits
    const overrides: map<string, ClientLimits>
    var clients: map<string, Client>
    var buckets: map<string, TokenBucket>

    ghost predicate Valid()
      reads this
    {
      forall a, b :: a in buckets && b in buckets && a != b ==> buckets[a] != buckets[b]
    }

    function States(): map<string, Bucket>
      reads this, buckets.Values
    {
      map c | c in buckets :: buckets[c].State()
    }

    constructor (store: Store, default: ClientLimits, overrides: map<string, ClientLimits>, clients: map<string, Client>)
      ensures Valid() && States() == map[] && this.store == store && this.clients == clients
      ensures this.default == default && this.overrides == overrides
    {
      this.store, this.default, this.overrides, this.clients, buckets := store, default, overrides, clients, map[];
    }

    /** Take one token; a refusal says how many seconds to wait. */
    method Take(client: string, rpm: nat, at: real) returns (refused: Option<nat>)
      requires Valid()
      modifies this`buckets, buckets.Values
      ensures Valid() && fresh(buckets.Values - old(buckets.Values))
      ensures (States(), refused) == Rating(old(States()), client, rpm, at)
    {
      if rpm == 0 {
        return Some(60);
      }
      var cap := rpm as real;
      if client !in buckets {
        var full := new TokenBucket.Full(cap, at);
        buckets := buckets[client := full];
      }
      label taking:
      var bucket := buckets[client];
      assert bucket in buckets.Values;
      assert bucket.State() == if client in old(States()) then old(States())[client] else Bucket(cap, at);
      var r := bucket.Take(cap, cap / 60.0, at);
      assert forall c :: c in buckets && c != client ==> buckets[c].State() == old@taking(buckets[c].State());
      assert States() == old(States())[client := bucket.State()];
      match r
      case Granted => refused := None;
      case Wait(delay) => refused := Some(RetryAfter(delay));
    }

    /** `at` is the monotonic clock, `now` the wall clock. A caller without a client id is local and never limited. */
    method Admit(caller: Option<string>, at: real, now: int) returns (r: Admission)
      requires Valid()
      modifies this`buckets, buckets.Values, store
      ensures Valid()
      ensures (store.Value(), States(), r) ==
              Admitting(old(store.Value()), old(States()), clients, default, overrides, caller, at, now)
    {
      hide MirrorAdmit, MirrorThrottled, QuotaCheck, Rating, EffectiveLimits, CountersAt, DayKey, MonthKey;
      assert SubmitAll(store.Value()) == store.Value();
      if caller == None {
        return Admitted;
      }
      var id := caller.value;
      if id !in clients || !clients[id].active {
        return Unauthorized;
      }
      var limits := EffectiveLimits(default, overrides, id, clients[id]);
      if limits.requestsPerMinute.Some? {
        var refused := Take(id, limits.requestsPerMinute.value, at);
        if refused.Some? {
          store.RecordThrottled(id, now);
          return RateLimited(refused.value);
        }
      }
      var quota := store.AdmitClient(id, now, limits.dailyRequests, limits.monthlyCredits);
      if quota.Err? {
        RefusedUnchanged(old(store.Value()), id, now, limits.dailyRequests, limits.monthlyCredits);
        store.RecordThrottled(id, now);
        return QuotaExceeded(quota.error);
      }
      return Admitted;
    }
  }

  /** The whole admission of one call when nothing interleaves. */
  function Admitting(s: State, buckets: map<string, Bucket>, clients: map<string, Client>, default: ClientLimits,
                     overrides: map<string, ClientLimits>, caller: Option<string>, at: real, now: int)
    : (State, map<string, Bucket>, Admission)
  {
    if caller == None then (s, buckets, Admitted)
    else if caller.value !in clients || !clients[caller.value].active then (s, buckets, Unauthorized)
    else
      var id := caller.value;
      var limits := EffectiveLimits(default, overrides, id, clients[id]);
      var (buckets', refused) :=
        if limits.requestsPerMinute.Some? then Rating(buckets, id, limits.requestsPerMinute.value, at) else (buckets, None);
      if refused.Some? then (SubmitAll(MirrorThrottled(s, id, now)), buckets', RateLimited(refused.value))
      else
        match QuotaCheck(s, id, now, limits.dailyRequests, limits.monthlyCredits)
        case Ok(_) => (SubmitAll(MirrorAdmit(s, id, now, limits.dailyRequests, limits.monthlyCredits)), buckets', Admitted)
        case Err(which) => (SubmitAll(MirrorThrottled(s, id, now)), buckets', QuotaExceeded(which))
  }

  lemma RefusedUnchanged(s: State, id: string, now: int, daily: Option<nat>, monthly: Option<nat>)
    requires QuotaCheck(s, id, now, daily, monthly).Err?
    ensures MirrorAdmit(s, id, now, daily, monthly) == s
  {
  }

  const UNSET := ClientLimits(None, None, None, None)

  /** The first of three levels that sets a limit decides it. */
  predicate FirstSet<T(==)>(r: Option<T>, a: Option<T>, b: Option<T>, c: Option<T>) {
    && (a.Some? ==> r == a)
    && (a.None? && b.Some? ==> r == b)
    && (a.None? && b.None? ==> r == c)
  }

  /** Each limit comes from what is stored with the client, else from its configuration, else from the default. */
  lemma LimitsByField(default: ClientLimits, overrides: map<string, ClientLimits>, id: string, c: Client)
    ensures var stored := if c.limits.Some? then c.limits.value else UNSET;
            var configured := if id in overrides then overrides[id] else UNSET;
            var l := EffectiveLimits(default, overrides, id, c);
            && FirstSet(l.requestsPerMinute, stored.requestsPerMinute, configured.requestsPerMinute, default.requestsPerMinute)
            && FirstSet(l.dailyRequests, stored.dailyRequests, configured.dailyRequests, default.dailyRequests)
            && FirstSet(l.monthlyCredits, stored.monthlyCredits, configured.monthlyCredits, default.monthlyCredits)
            && FirstSet(l.toolProfile, stored.toolProfile, configured.toolProfile, default.toolProfile)
  {
  }

  /** A refusal by rate never asks for more than a minute. */
  lemma RetryWithinAMinute(buckets: map<string, Bucket>, client: string, rpm: nat, at: real)
    requires client in buckets ==> InRange(buckets[client], rpm as real)
    ensures var refused := Rating(buckets, client, rpm, at).1; refused.Some? ==> 1 <= refused.value <= 60
  {
    if rpm > 0 && client in buckets && Rating(buckets, client, rpm, at).1.Some? {
      WaitWithinAMinute(buckets[client], rpm, at);
    }
  }

  lemma WaitWithinAMinute(b: Bucket, rpm: nat, at: real)
    requires rpm > 0 && InRange(b, rpm as real)
    requires Taking(b, rpm as real, rpm as real / 60.0, at).1.Wait?
    ensures 1 <= RetryAfter(Taking(b, rpm as real, rpm as real / 60.0, at).1.delay) <= 60
  {
    var perSec := rpm as real / 60.0;
    var (b', r) := Taking(b, rpm as real, perSec, at);
    TakeBalance(b, rpm as real, perSec, at);
    assert r.delay * perSec == 1.0 - b'.tokens <= 60.0 * perSec;
    ProductOrder(r.delay, 60.0, perSec);
  }
}
