/** The bounded response cache against the unbounded one it stands in for. */
module TtlCaches {
  import opened Wrappers

  /** `expires` is the first instant at which the entry is no longer served. */
  datatype Entry<V> = Entry(value: V, expires: int)

  type Entries<V> = map<string, Entry<V>>

  predicate Live<V>(e: Entry<V>, now: int) {
    e.expires > now
  }

  function LiveKeys<V>(m: Entries<V>, now: int): set<string> {
    set k | k in m && Live(m[k], now)
  }

  function Lookup<V>(m: Entries<V>, key: string, now: int): Option<V> {
    if key in m && Live(m[key], now) then Some(m[key].value) else None
  }

  function Purged<V>(m: Entries<V>, now: int): Entries<V> {
    map k | k in m && Live(m[k], now) :: m[k]
  }

  predicate Soonest<V>(m: Entries<V>, key: string) {
    key in m && forall k :: k in m ==> m[key].expires <= m[k].expires
  }

  /** Room for one more key: `next` is `m` when it has room, else without its expired entries and, still full, the soonest to expire. */
  ghost predicate MadeRoom<V>(cap: nat, m: Entries<V>, key: string, now: int, next: Entries<V>) {
    if |m| < cap || key in m then next == m
    else if |Purged(m, now)| < cap then next == Purged(m, now)
    else exists k :: Soonest(Purged(m, now), k) && next == Purged(m, now) - {k}
  }

  /** `next` is a possible cache after storing; entries that expire at the same instant may be chosen either way. */
  ghost predicate Stored<V(!new)>(cap: nat, end: int, m: Entries<V>, key: string, v: V, ttl: nat, now: int, next: Entries<V>) {
    if now + ttl > end || cap == 0 then next == m
    else exists room: Entries<V> :: MadeRoom(cap, m, key, now, room) && next == room[key := Entry(v, now + ttl)]
  }

  /** Looking up drops the entry when it has expired. */
  function Read<V>(m: Entries<V>, key: string, now: int): Entries<V> {
    if key in m && !Live(m[key], now) then m - {key} else m
  }

  lemma {:induction false} SomeSoonest<V>(m: Entries<V>)
    requires m != map[]
    ensures exists k :: Soonest(m, k)
    decreases |m|
  {
    var k :| k in m;
    var rest := m - {k};
    if rest == map[] {
      assert forall j :: j in m && j != k ==> j in rest;
      assert Soonest(m, k);
    } else {
      SomeSoonest(rest);
      var s :| Soonest(rest, s);
      assert forall j :: j in m ==> j == k || j in rest;
      assert Soonest(m, if m[k].expires <= m[s].expires then k else s);
    }
  }

  class TtlCache<V(!new)> {
    const cap: nat
    /** Latest instant the clock can represent. */
    const end: int
    var entries: Entries<V>

    constructor (cap: nat, end: int)
      ensures this.cap == cap && this.end == end && entries == map[]
    {
      this.cap, this.end, entries := cap, end, map[];
    }

    method Get(key: string, now: int) returns (hit: Option<V>)
      modifies this
      ensures hit == Lookup(old(entries), key, now)
      ensures entries == (if key in old(entries) && old(entries)[key].expires <= now then old(entries) - {key} else old(entries))
      ensures entries == Read(old(entries), key, now)
    {
      if key in entries {
        if entries[key].expires > now {
          return Some(entries[key].value);
        }
        entries := entries - {key};
      }
      return None;
    }

    method Insert(key: string, v: V, ttl: nat, now: int)
      modifies this
      ensures Stored(cap, end, old(entries), key, v, ttl, now, entries)
    {
      if now + ttl > end {
        return;
      }
      if cap == 0 {
        return;
      }
      if |entries| >= cap && key !in entries {
        entries := Purged(entries, now);
        if |entries| >= cap {
          SomeSoonest(entries);
          var soonest :| soonest in entries && forall k :: k in entries ==> entries[soonest].expires <= entries[k].expires;
          assert Soonest(entries, soonest);
          entries := entries - {soonest};
        }
      }
      assert MadeRoom(cap, old(entries), key, now, entries);
      entries := entries[key := Entry(v, now + ttl)];
    }
  }

  // ----- runs against the ideal

  datatype Operation<V> =
    | Getting(key: string, now: int)
    | Inserting(key: string, value: V, ttl: nat, now: int)

  /** The unbounded cache: everything stored stays until it is replaced. */
  function Ideal<V>(end: int, ideal: Entries<V>, op: Operation<V>): Entries<V> {
    match op
    case Getting(_, _) => ideal
    case Inserting(key, v, ttl, now) => if now + ttl > end then ideal else ideal[key := Entry(v, now + ttl)]
  }

  ghost predicate Performed<V(!new)>(cap: nat, end: int, m: Entries<V>, op: Operation<V>, next: Entries<V>) {
    match op
    case Getting(key, now) => next == Read(m, key, now)
    case Inserting(key, v, ttl, now) => Stored(cap, end, m, key, v, ttl, now, next)
  }

  /**
   * A run: `states` are the bounded cache before the first operation and after each of them, `ideals` the unbounded one.
   * A lookup reads the clock under the lock, so it is not earlier than any operation before it; a store has read it before
   * taking the lock and may come late.
   */
  datatype Run<V> = Run(ops: seq<Operation<V>>, states: seq<Entries<V>>, ideals: seq<Entries<V>>)

  ghost predicate Valid<V(!new)>(cap: nat, end: int, run: Run<V>) {
    && |run.states| == |run.ideals| == |run.ops| + 1
    && run.states[0] == run.ideals[0] == map[]
    && (forall i :: 0 <= i < |run.ops| ==> Performed(cap, end, run.states[i], run.ops[i], run.states[i + 1]))
    && (forall i :: 0 <= i < |run.ops| ==> run.ideals[i + 1] == Ideal(end, run.ideals[i], run.ops[i]))
    && forall i, j :: 0 <= i < j < |run.ops| && run.ops[j].Getting? ==> run.ops[i].now <= run.ops[j].now
  }

  /** Everything the cache holds is what the ideal holds. */
  ghost predicate Within<V>(m: Entries<V>, ideal: Entries<V>) {
    forall k :: k in m ==> k in ideal && ideal[k] == m[k]
  }

  lemma StepWithin<V(!new)>(cap: nat, end: int, m: Entries<V>, ideal: Entries<V>, op: Operation<V>, next: Entries<V>)
    requires Within(m, ideal) && |m| <= cap && Performed(cap, end, m, op, next)
    ensures Within(next, Ideal(end, ideal, op)) && |next| <= cap
  {
    match op
    case Getting(key, now) =>
      if key in m {
        assert |m - {key}| == |m| - 1;
      }
    case Inserting(key, v, ttl, now) =>
      if now + ttl <= end && cap > 0 {
        var room: Entries<V> :| MadeRoom(cap, m, key, now, room) && next == room[key := Entry(v, now + ttl)];
        RoomIsSmall(cap, m, key, now, room);
      }
  }

  lemma RoomIsSmall<V(!new)>(cap: nat, m: Entries<V>, key: string, now: int, room: Entries<V>)
    requires cap > 0 && |m| <= cap && MadeRoom(cap, m, key, now, room)
    ensures forall k :: k in room ==> k in m && room[k] == m[k]
    ensures key in room || |room| < cap
    ensures |room| <= cap
  {
    if !(|m| < cap || key in m) {
      PurgedSize(m, now);
      if |Purged(m, now)| >= cap {
        var k :| Soonest(Purged(m, now), k) && room == Purged(m, now) - {k};
        assert |room| == |Purged(m, now)| - 1;
      }
    }
  }

  lemma PurgedSize<V>(m: Entries<V>, now: int)
    ensures |Purged(m, now)| == |LiveKeys(m, now)| <= |m|
  {
    assert Purged(m, now).Keys == LiveKeys(m, now);
    assert |Purged(m, now)| == |Purged(m, now).Keys|;
    Smaller(LiveKeys(m, now), m.Keys);
    assert |m| == |m.Keys|;
  }

  lemma Smaller(a: set<string>, b: set<string>)
    requires a <= b
    ensures |a| <= |b| && (|a| == |b| ==> a == b)
  {
    assert b == a + (b - a);
    if |a| == |b| {
      assert |b - a| == 0;
    }
  }

  /** In every run the cache keeps to its size, and a hit is always the value last stored under that key, not yet expired. */
  lemma {:induction false} HitsAreLatest<V(!new)>(cap: nat, end: int, run: Run<V>, i: nat)
    requires Valid(cap, end, run) && i <= |run.ops|
    ensures |run.states[i]| <= cap && Within(run.states[i], run.ideals[i])
    ensures forall key, now :: Lookup(run.states[i], key, now).Some? ==>
              Lookup(run.states[i], key, now) == Lookup(run.ideals[i], key, now)
  {
    if i > 0 {
      HitsAreLatest(cap, end, run, i - 1);
      StepWithin(cap, end, run.states[i - 1], run.ideals[i - 1], run.ops[i - 1], run.states[i]);
    }
  }

  /** At `now`, nothing that the ideal would serve is missing. */
  predicate Complete<V>(m: Entries<V>, ideal: Entries<V>, now: int) {
    forall k :: k in LiveKeys(ideal, now) ==> k in m
  }

  /** The keys alive once `key` is stored. */
  function Demand<V>(ideal: Entries<V>, key: string, now: int): set<string> {
    LiveKeys(ideal, now) + {key}
  }

  lemma RoomEnough<V(!new)>(cap: nat, m: Entries<V>, ideal: Entries<V>, key: string, now: int, room: Entries<V>)
    requires Within(m, ideal) && |Demand(ideal, key, now)| <= cap && MadeRoom(cap, m, key, now, room)
    ensures room == m || room == Purged(m, now)
  {
    if !(|m| < cap || key in m) {
      PurgedSize(m, now);
      assert key !in LiveKeys(m, now);
      Smaller(LiveKeys(m, now) + {key}, Demand(ideal, key, now));
    }
  }

  /**
   * Exactly when a store keeps the two caches in agreement: for a cache that serves all the ideal serves at `now`, it still
   * does after storing if and only if the keys then alive fit.
   */
  lemma StoreAgreesIff<V(!new)>(cap: nat, end: int, m: Entries<V>, ideal: Entries<V>, key: string, v: V, ttl: nat, now: int,
                          next: Entries<V>)
    requires Within(m, ideal) && |m| <= cap && Complete(m, ideal, now)
    requires now + ttl <= end && (cap > 0 || ttl > 0)
    requires Stored(cap, end, m, key, v, ttl, now, next)
    ensures Complete(next, ideal[key := Entry(v, now + ttl)], now) <==> |Demand(ideal, key, now)| <= cap
  {
    var ideal' := ideal[key := Entry(v, now + ttl)];
    if cap == 0 {
      assert key in LiveKeys(ideal', now);
      assert key in Demand(ideal, key, now);
    } else {
      var room: Entries<V> :| MadeRoom(cap, m, key, now, room) && next == room[key := Entry(v, now + ttl)];
      if |Demand(ideal, key, now)| <= cap {
        RoomEnough(cap, m, ideal, key, now, room);
      } else {
        CrowdedOut(cap, m, ideal, key, now, room);
        var k :| k in LiveKeys(ideal, now) && k != key && k !in room;
        assert k in LiveKeys(ideal', now) && k !in next;
      }
    }
  }

  /** If the live keys do not fit, one that is alive is dropped. */
  lemma CrowdedOut<V(!new)>(cap: nat, m: Entries<V>, ideal: Entries<V>, key: string, now: int, room: Entries<V>)
    requires cap > 0 && Within(m, ideal) && |m| <= cap && Complete(m, ideal, now)
    requires |Demand(ideal, key, now)| > cap && MadeRoom(cap, m, key, now, room)
    ensures exists k :: k in LiveKeys(ideal, now) && k != key && k !in room
  {
    assert LiveKeys(m, now) == LiveKeys(ideal, now);
    PurgedSize(m, now);
    if key in m {
      Smaller(Demand(ideal, key, now), m.Keys);
      assert false;
    }
    assert |Demand(ideal, key, now)| == |LiveKeys(m, now)| + 1;
    var k :| Soonest(Purged(m, now), k) && room == Purged(m, now) - {k};
    assert k in LiveKeys(ideal, now) && k !in room;
  }

  /** At each store that takes effect, the keys then alive fit into the cache. */
  predicate Fits<V>(cap: nat, end: int, run: Run<V>)
    requires |run.ideals| == |run.ops| + 1
  {
    forall i :: 0 <= i < |run.ops| && run.ops[i].Inserting? && run.ops[i].now + run.ops[i].ttl <= end ==>
      |Demand(run.ideals[i], run.ops[i].key, run.ops[i].now)| <= cap
  }

  /** Complete at every instant from all earlier operations on. */
  ghost predicate CompleteFrom<V>(run: Run<V>, i: nat)
    requires |run.states| == |run.ideals| == |run.ops| + 1 && i <= |run.ops|
  {
    forall now: int :: (forall j :: 0 <= j < i ==> run.ops[j].now <= now) ==> Complete(run.states[i], run.ideals[i], now)
  }

  lemma StepComplete<V(!new)>(cap: nat, end: int, m: Entries<V>, ideal: Entries<V>, op: Operation<V>, next: Entries<V>, now: int)
    requires Within(m, ideal) && Complete(m, ideal, now) && op.now <= now && Performed(cap, end, m, op, next)
    requires op.Inserting? && op.now + op.ttl <= end ==> |Demand(ideal, op.key, op.now)| <= cap
    ensures Complete(next, Ideal(end, ideal, op), now)
  {
    if op.Inserting? && op.now + op.ttl <= end {
      assert op.key in Demand(ideal, op.key, op.now);
      var room: Entries<V> :| MadeRoom(cap, m, op.key, op.now, room) && next == room[op.key := Entry(op.value, op.now + op.ttl)];
      RoomEnough(cap, m, ideal, op.key, op.now, room);
    }
  }

  lemma {:induction false} RunComplete<V(!new)>(cap: nat, end: int, run: Run<V>, i: nat)
    requires Valid(cap, end, run) && Fits(cap, end, run) && i <= |run.ops|
    ensures CompleteFrom(run, i)
  {
    hide Performed, Ideal, Demand;
    if i > 0 {
      RunComplete(cap, end, run, i - 1);
      HitsAreLatest(cap, end, run, i - 1);
      forall now: int | forall j :: 0 <= j < i ==> run.ops[j].now <= now
        ensures Complete(run.states[i], run.ideals[i], now)
      {
        assert run.ops[i - 1].now <= now;
        StepComplete(cap, end, run.states[i - 1], run.ideals[i - 1], run.ops[i - 1], run.states[i], now);
      }
    }
  }

  /** If the live keys never outnumber the cache, every lookup of a run answers exactly as the unbounded cache would. */
  lemma LookupsExact<V(!new)>(cap: nat, end: int, run: Run<V>, i: nat)
    requires Valid(cap, end, run) && Fits(cap, end, run) && i < |run.ops| && run.ops[i].Getting?
    ensures Lookup(run.states[i], run.ops[i].key, run.ops[i].now) == Lookup(run.ideals[i], run.ops[i].key, run.ops[i].now)
  {
    var op := run.ops[i];
    HitsAreLatest(cap, end, run, i);
    RunComplete(cap, end, run, i);
    assert Complete(run.states[i], run.ideals[i], op.now);
    assert op.key in LiveKeys(run.ideals[i], op.now) ==> op.key in run.states[i];
  }

  // ----- what is dropped, and what "latest" means

  /**
   * A store drops an entry that is still alive only from a full cache and for a new key, never more than one, only after all
   * expired entries, and never one that would have outlived another that is kept.
   */
  lemma DropsSoonest<V(!new)>(cap: nat, end: int, m: Entries<V>, key: string, v: V, ttl: nat, now: int, next: Entries<V>, k: string)
    requires Stored(cap, end, m, key, v, ttl, now, next)
    requires k in m && Live(m[k], now) && k !in next
    ensures |m| >= cap && key !in m && |LiveKeys(m, now)| >= cap
    ensures forall j :: j in m && Live(m[j], now) && j != k ==> j in next && next[j] == m[j] && m[k].expires <= m[j].expires
    ensures forall j :: j in next && j != key ==> j in m && Live(m[j], now)
  {
    var room: Entries<V> :| MadeRoom(cap, m, key, now, room) && next == room[key := Entry(v, now + ttl)];
    assert k in Purged(m, now) && k !in room;
    PurgedSize(m, now);
    var soonest :| Soonest(Purged(m, now), soonest) && room == Purged(m, now) - {soonest};
    assert soonest == k;
  }

  /** An operation that stores under the key and is not lost to the end of the clock. */
  predicate Stores<V>(op: Operation<V>, key: string, end: int) {
    op.Inserting? && op.key == key && op.now + op.ttl <= end
  }

  /** The last of the first `i` operations that stores under the key. */
  function LastStore<V>(ops: seq<Operation<V>>, i: nat, key: string, end: int): (r: Option<nat>)
    requires i <= |ops|
    ensures r.Some? ==> r.value < i && Stores(ops[r.value], key, end) && forall h: nat :: r.value < h < i ==> !Stores(ops[h], key, end)
    ensures r.None? ==> forall h: nat :: h < i ==> !Stores(ops[h], key, end)
  {
    if i == 0 then None
    else if Stores(ops[i - 1], key, end) then Some(i - 1)
    else LastStore(ops, i - 1, key, end)
  }

  /** The ideal holds under a key what the last store of it brought, until that store's lifetime is over. */
  lemma {:induction false} IdealIsLast<V(!new)>(cap: nat, end: int, run: Run<V>, i: nat, key: string)
    requires Valid(cap, end, run) && i <= |run.ops|
    ensures match LastStore(run.ops, i, key, end)
            case None => key !in run.ideals[i]
            case Some(j) => key in run.ideals[i] && run.ideals[i][key] == Entry(run.ops[j].value, run.ops[j].now + run.ops[j].ttl)
  {
    hide Performed;
    if i > 0 {
      IdealIsLast(cap, end, run, i - 1, key);
      assert run.ideals[i] == Ideal(end, run.ideals[i - 1], run.ops[i - 1]);
    }
  }

  /** So a hit is the value of the last store under its key, made less than that store's lifetime ago. */
  lemma HitMeans<V(!new)>(cap: nat, end: int, run: Run<V>, i: nat, key: string, now: int)
    requires Valid(cap, end, run) && i <= |run.ops| && Lookup(run.states[i], key, now).Some?
    ensures var j := LastStore(run.ops, i, key, end);
            && j.Some? && Lookup(run.states[i], key, now) == Some(run.ops[j.value].value)
            && now < run.ops[j.value].now + run.ops[j.value].ttl
  {
    hide Valid, LastStore;
    HitsAreLatest(cap, end, run, i);
    IdealIsLast(cap, end, run, i, key);
    IdealCount(cap, end, run);
  }

  lemma IdealCount<V(!new)>(cap: nat, end: int, run: Run<V>)
    requires Valid(cap, end, run)
    ensures |run.states| == |run.ideals| == |run.ops| + 1
  {
    hide Performed, Ideal;
  }

  /**
   * What a store does besides: nothing if its lifetime goes past the clock or the cache has no size; otherwise the entry is
   * there, the others that remain are as they were, and none is missing if there was room or the key was there already.
   */
  lemma StoreMeans<V(!new)>(cap: nat, end: int, m: Entries<V>, key: string, v: V, ttl: nat, now: int, next: Entries<V>)
    requires Stored(cap, end, m, key, v, ttl, now, next)
    ensures now + ttl > end || cap == 0 ==> next == m
    ensures now + ttl <= end && cap > 0 ==>
              && key in next && next[key] == Entry(v, now + ttl)
              && (forall k :: k in next && k != key ==> k in m && next[k] == m[k])
              && (|m| < cap || key in m ==> forall k :: k in m ==> k in next)
  {
    if now + ttl <= end && cap > 0 {
      var room: Entries<V> :| MadeRoom(cap, m, key, now, room) && next == room[key := Entry(v, now + ttl)];
      assert forall k :: k in room ==> k in m && room[k] == m[k];
    }
  }
}
