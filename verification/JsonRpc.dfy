/** JSON-RPC 2.0 over HTTP: request ids, batches and where each answer of a batch belongs. */
module JsonRpc {
  import opened JsonValues
  import opened Providers
  import opened Wrappers

  const WORD: nat := 0x1_0000_0000_0000_0000

  function Field(v: Json, name: string): Option<Json> {
    if v.Obj? && name in v.fields then Some(v.fields[name]) else None
  }

  /** The id of a response item, if it is an unsigned 64-bit number. */
  function IdOf(item: Json): Option<nat> {
    match Field(item, "id")
    case Some(Number(n)) => if 0 <= n < WORD then Some(n) else None
    case _ => None
  }

  type Answer = Result<Json, ProviderError>

  /** `mapped` sorts the vendor's error object into the routing taxonomy. */
  function Unwrapped(mapped: Json -> ProviderError, resp: Json): Answer {
    var error := Field(resp, "error");
    if error.Some? && error.value != Null then Err(mapped(error.value))
    else
      match Field(resp, "result")
      case Some(r) => Ok(r)
      case None => Err(Transient)
  }

  const MISSING: Answer := Err(Transient)

  /** The `i`-th id of a range; the counter is a machine word. */
  function IdAt(base: nat, i: nat): nat {
    (base + i) % WORD
  }

  /** The last item that carries an id. */
  function LastWith(items: seq<Json>, id: nat): (k: Option<nat>)
    ensures k.Some? ==> k.value < |items| && IdOf(items[k.value]) == Some(id)
    ensures k.Some? ==> forall j :: k.value < j < |items| ==> IdOf(items[j]) != Some(id)
    ensures k.None? ==> forall j :: 0 <= j < |items| ==> IdOf(items[j]) != Some(id)
    decreases |items|
  {
    if items == [] then None
    else if IdOf(items[|items| - 1]) == Some(id) then Some(|items| - 1)
    else LastWith(items[..|items| - 1], id)
  }

  /** What belongs into the slot of call `i`. */
  function Placed(mapped: Json -> ProviderError, base: nat, items: seq<Json>, i: nat): Answer {
    match LastWith(items, base + i)
    case Some(k) => Unwrapped(mapped, items[k])
    case None => MISSING
  }

  class JsonRpcClient {
    var nextId: nat
    const mapped: Json -> ProviderError

    constructor (mapped: Json -> ProviderError)
      ensures this.mapped == mapped && nextId == 1
    {
      this.mapped, nextId := mapped, 1;
    }

    method FetchAdd(n: nat) returns (base: nat)
      modifies this
      ensures base == old(nextId) && nextId == IdAt(old(nextId), n)
    {
      base := nextId;
      nextId := (nextId + n) % WORD;
    }

    method Request(resp: Answer) returns (r: Answer)
      modifies this
      ensures nextId == IdAt(old(nextId), 1)
      ensures r == match resp
                   case Ok(v) => Unwrapped(mapped, v)
                   case Err(e) => Err(e)
    {
      var id := FetchAdd(1);
      match resp {
        case Ok(v) => r := Unwrapped(mapped, v);
        case Err(e) => r := Err(e);
      }
    }

    /** `count` calls in one request, answered by `resp`. */
    method Batch(count: nat, resp: Answer) returns (r: Result<seq<Answer>, ProviderError>)
      modifies this
      ensures nextId == if count == 0 then old(nextId) else IdAt(old(nextId), count)
      ensures r.Ok? <==> count == 0 || (resp.Ok? && resp.value.Arr?)
      ensures r.Err? ==> r.error == if resp.Err? then resp.error else Transient
      ensures r.Ok? ==> |r.value| == count
      ensures r.Ok? && count > 0 ==> forall i: nat :: i < count ==> r.value[i] == Placed(mapped, old(nextId), resp.value.items, i)
    {
      hide Unwrapped, IdOf;
      if count == 0 {
        return Ok([]);
      }
      var base := FetchAdd(count);
      if resp.Err? {
        return Err(resp.error);
      }
      if !resp.value.Arr? {
        return Err(Transient);
      }
      var items := resp.value.items;
      var out := seq(count, _ => MISSING);
      for n := 0 to |items|
        invariant |out| == count
        invariant forall i: nat :: i < count ==> out[i] == Placed(mapped, base, items[..n], i)
      {
        assert items[..n + 1][..n] == items[..n];
        var id := IdOf(items[n]);
        if id.Some? && id.value >= base {
          var i := id.value - base;
          if i < count {
            out := out[i := Unwrapped(mapped, items[n])];
          }
        }
      }
      assert items[..|items|] == items;
      return Ok(out);
    }
  }

  // ----- placement

  /** Item `k` is the only one that carries the id. */
  predicate Only(items: seq<Json>, id: nat, k: nat) {
    k < |items| && forall j :: 0 <= j < |items| ==> (IdOf(items[j]) == Some(id) <==> j == k)
  }

  /** An item that alone carries a call's id ends up in that call's slot, wherever it stands among whatever else. */
  lemma SoleItemPlaced(mapped: Json -> ProviderError, base: nat, items: seq<Json>, i: nat, k: nat)
    requires Only(items, base + i, k)
    ensures Placed(mapped, base, items, i) == Unwrapped(mapped, items[k])
  {
    hide Unwrapped, IdOf;
    var last := LastWith(items, base + i);
    assert IdOf(items[k]) == Some(base + i);
  }

  /** Of several items with one id the last one counts; without any the call's answer is missing. */
  lemma PlacedIffLast(mapped: Json -> ProviderError, base: nat, items: seq<Json>, i: nat)
    ensures forall k: nat :: k < |items| && IdOf(items[k]) == Some(base + i)
                             && (forall j :: k < j < |items| ==> IdOf(items[j]) != Some(base + i)) ==>
                               Placed(mapped, base, items, i) == Unwrapped(mapped, items[k])
    ensures (forall k :: 0 <= k < |items| ==> IdOf(items[k]) != Some(base + i)) ==> Placed(mapped, base, items, i) == MISSING
  {
    hide Unwrapped, IdOf;
  }

  /** No two items carry the same id. */
  predicate DistinctIds(items: seq<Json>) {
    forall j, k :: 0 <= j < k < |items| && IdOf(items[j]).Some? ==> IdOf(items[j]) != IdOf(items[k])
  }

  /** The order of a response does not matter as long as no id is repeated: every permutation fills the slots alike. */
  lemma OrderIrrelevant(mapped: Json -> ProviderError, base: nat, items: seq<Json>, others: seq<Json>, i: nat)
    requires multiset(items) == multiset(others) && DistinctIds(items)
    ensures Placed(mapped, base, items, i) == Placed(mapped, base, others, i)
  {
    hide Unwrapped, IdOf;
    var id := base + i;
    var last, other := LastWith(items, id), LastWith(others, id);
    if other.Some? {
      var k := FoundIn(others, items, other.value);
      assert last.Some? && (k < last.value || k == last.value);
    } else if last.Some? {
      var k := FoundIn(items, others, last.value);
    }
  }

  lemma FoundIn(a: seq<Json>, b: seq<Json>, i: nat) returns (k: nat)
    requires multiset(a) == multiset(b) && i < |a|
    ensures k < |b| && b[k] == a[i]
  {
    assert a[i] in multiset(a);
    assert a[i] in b;
    k :| k < |b| && b[k] == a[i];
  }

  /**
   * A server that answers every call once, each item under the id that was sent, in any order and among items with other
   * ids: the call's own answer reaches its slot exactly if its id has not wrapped around.
   */
  lemma AnsweredIffNotWrapped(mapped: Json -> ProviderError, base: nat, count: nat, items: seq<Json>, i: nat, k: nat)
    requires base < WORD && count <= WORD && i < count && Only(items, IdAt(base, i), k)
    ensures base + i < WORD ==> Placed(mapped, base, items, i) == Unwrapped(mapped, items[k])
    ensures base + i >= WORD ==> Placed(mapped, base, items, i) == MISSING
  {
    hide Unwrapped;
    if base + i < WORD {
      SoleItemPlaced(mapped, base, items, i, k);
    } else {
      assert forall j :: 0 <= j < |items| ==> IdOf(items[j]) != Some(base + i);
    }
  }

  // ----- ids

  /** Where the range of allocation `j` starts, counted from the first id ever handed out. */
  function Offset(sizes: seq<nat>, j: nat): nat
    requires j <= |sizes|
  {
    if j == 0 then 0 else Offset(sizes, j - 1) + sizes[j - 1]
  }

  /** The counter after the first `j` allocations, in the order in which the callers reach it. */
  function Counter(sizes: seq<nat>, j: nat): nat
    requires j <= |sizes|
  {
    if j == 0 then 1 else IdAt(Counter(sizes, j - 1), sizes[j - 1])
  }

  lemma {:induction false} CounterIsOffset(sizes: seq<nat>, j: nat)
    requires j <= |sizes|
    ensures Counter(sizes, j) == IdAt(1, Offset(sizes, j))
  {
    if j > 0 {
      CounterIsOffset(sizes, j - 1);
      WrapSum(1 + Offset(sizes, j - 1), sizes[j - 1]);
    }
  }

  lemma WrapSum(a: nat, b: nat)
    ensures (a % WORD + b) % WORD == (a + b) % WORD
  {
    var q := a / WORD;
    assert a % WORD + b == a + b - q * WORD;
    WrapMultiple(a % WORD + b, q);
  }

  lemma {:induction false} WrapMultiple(a: nat, q: nat)
    ensures (a + q * WORD) % WORD == a % WORD
  {
    if q > 0 {
      WrapMultiple(a, q - 1);
      assert a + q * WORD == (a + (q - 1) * WORD) + WORD;
    }
  }

  /** Id `i` of allocation `j`. */
  function Handed(sizes: seq<nat>, j: nat, i: nat): nat
    requires j < |sizes| && i < sizes[j]
  {
    IdAt(Counter(sizes, j), i)
  }

  lemma {:induction false} OffsetsOrdered(sizes: seq<nat>, j: nat, k: nat)
    requires j <= k <= |sizes|
    ensures Offset(sizes, j) <= Offset(sizes, k)
    decreases k - j
  {
    if j < k {
      OffsetsOrdered(sizes, j, k - 1);
    }
  }

  lemma IdsInjective(a: nat, b: nat)
    requires a < WORD && b < WORD
    ensures IdAt(1, a) == IdAt(1, b) <==> a == b
  {
  }

  lemma WithinOffset(sizes: seq<nat>, j: nat, i: nat, k: nat)
    requires j < |sizes| && i < sizes[j] && j < k <= |sizes|
    ensures Offset(sizes, j) + i < Offset(sizes, k)
  {
    OffsetsOrdered(sizes, j + 1, k);
  }

  /** Callers that draw ranges in any interleaving never share an id as long as no more than 2^64 ids are handed out. */
  lemma IdsDisjoint(sizes: seq<nat>, j: nat, i: nat, k: nat, h: nat)
    requires Offset(sizes, |sizes|) <= WORD
    requires j < |sizes| && k < |sizes| && i < sizes[j] && h < sizes[k]
    ensures Handed(sizes, j, i) == Handed(sizes, k, h) <==> j == k && i == h
  {
    hide Offset, Handed, IdAt;
    HandedAt(sizes, j, i);
    HandedAt(sizes, k, h);
    WithinOffset(sizes, j, i, |sizes|);
    WithinOffset(sizes, k, h, |sizes|);
    IdsInjective(Offset(sizes, j) + i, Offset(sizes, k) + h);
    if j < k {
      WithinOffset(sizes, j, i, k);
    } else if k < j {
      WithinOffset(sizes, k, h, j);
    }
  }

  lemma HandedAt(sizes: seq<nat>, j: nat, i: nat)
    requires j < |sizes| && i < sizes[j]
    ensures Handed(sizes, j, i) == IdAt(1, Offset(sizes, j) + i)
  {
    CounterIsOffset(sizes, j);
    WrapSum(1 + Offset(sizes, j), i);
  }

  /** And once more than 2^64 are handed out, ids do repeat. */
  lemma IdsRepeat(n: nat)
    ensures (forall a: nat, b: nat :: a < b < n ==> IdAt(1, a) != IdAt(1, b)) <==> n <= WORD
  {
    if n > WORD {
      WrapMultiple(1, 1);
      assert IdAt(1, 0) == IdAt(1, WORD);
    }
  }

  // ----- what an item says

  /**
   * A response item read field by field: an error that is not null counts, whatever else there is; otherwise a result counts,
   * null included; and an item with neither, or one that is no object, is a transient failure.
   */
  lemma UnwrappedMeans(mapped: Json -> ProviderError, fields: map<string, Json>)
    ensures var r := Unwrapped(mapped, Obj(fields));
            var failed := "error" in fields && fields["error"] != Null;
            && (failed ==> r == Err(mapped(fields["error"])))
            && (!failed && "result" in fields ==> r == Ok(fields["result"]))
            && (!failed && "result" !in fields ==> r == Err(Transient))
    ensures forall v: Json :: !v.Obj? ==> Unwrapped(mapped, v) == Err(Transient)
  {
  }

  /** An object with this number as its `id`. */
  predicate Carries(item: Json, id: nat) {
    item.Obj? && "id" in item.fields && item.fields["id"] == Number(id)
  }

  /**
   * Placement, from the text of the response alone: if one item is an object whose `id` is the number sent for call `i`,
   * carries a result and no error, and no other item has that number, then the call's answer is that result.
   */
  lemma ResultPlaced(mapped: Json -> ProviderError, base: nat, items: seq<Json>, i: nat, k: nat)
    requires base + i < WORD && k < |items| && Carries(items[k], base + i)
    requires forall j :: 0 <= j < |items| ==> (Carries(items[j], base + i) <==> j == k)
    requires "result" in items[k].fields && ("error" in items[k].fields ==> items[k].fields["error"] == Null)
    ensures Placed(mapped, base, items, i) == Ok(items[k].fields["result"])
  {
    hide Unwrapped;
    forall j | 0 <= j < |items|
      ensures IdOf(items[j]) == Some(base + i) <==> j == k
    {
      assert Carries(items[j], base + i) <==> IdOf(items[j]) == Some(base + i);
    }
    SoleItemPlaced(mapped, base, items, i, k);
    UnwrappedMeans(mapped, items[k].fields);
  }

  /** If no item has the number sent for call `i`, its answer is a transient failure. */
  lemma NothingPlaced(mapped: Json -> ProviderError, base: nat, items: seq<Json>, i: nat)
    requires forall j :: 0 <= j < |items| ==> !Carries(items[j], base + i)
    ensures Placed(mapped, base, items, i) == Err(Transient)
  {
    hide Unwrapped;
    forall j | 0 <= j < |items|
      ensures IdOf(items[j]) != Some(base + i)
    {
      assert !Carries(items[j], base + i);
    }
  }
}
