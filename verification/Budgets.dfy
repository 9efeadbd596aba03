/** Vendor budgets: which limit applies to a window once the vendor's quota, the operator's cap and the reserve are combined. */
module Budgets {
  import opened Wrappers

  const U64_MAX: nat := 0xFFFF_FFFF_FFFF_FFFF

  type U64 = n: nat | n <= U64_MAX

  datatype WindowBudget = WindowBudget(rps: Option<U64>, perMinute: Option<U64>, daily: Option<U64>, monthly: Option<U64>)

  datatype OnExhausted = Skip | AllowOverage

  datatype EffectiveBudget = EffectiveBudget(
    limit: WindowBudget,
    cap: WindowBudget,
    reservePct: nat,
    onExhausted: OnExhausted,
    effective: WindowBudget)

  /** Operator settings of one vendor. */
  datatype VendorSettings = VendorSettings(
    limit: WindowBudget,
    cap: WindowBudget,
    reservePct: Option<nat>,
    onExhausted: Option<OnExhausted>,
    costs: map<string, U64>)

  /** Registry entry of one vendor. */
  datatype VendorEntry = VendorEntry(limit: WindowBudget, costs: map<string, U64>, defaultCost: U64)

  function Or(a: Option<U64>, b: Option<U64>): Option<U64> {
    if a.Some? then a else b
  }

  function Overlay(base: WindowBudget, over: WindowBudget): WindowBudget {
    WindowBudget(
      Or(over.rps, base.rps), Or(over.perMinute, base.perMinute), Or(over.daily, base.daily), Or(over.monthly, base.monthly))
  }

  function MinOpt(a: Option<U64>, b: Option<U64>): Option<U64> {
    match (a, b)
    case (None, _) => b
    case (_, None) => a
    case (Some(x), Some(y)) => if x <= y then a else b
  }

  function SaturatingMul(a: nat, b: nat): U64 {
    if a * b <= U64_MAX then a * b else U64_MAX
  }

  /** What is left of a limit when `reserve` percent of it is kept back. */
  function Keep(limit: Option<U64>, reserve: nat): Option<U64>
    requires reserve <= 100
  {
    match limit
    case None => None
    case Some(l) => Some(SaturatingMul(l, 100 - reserve) / 100)
  }

  /** A reserve above 100 percent is refused when the config is loaded. */
  predicate ValidSettings(vs: VendorSettings) {
    vs.reservePct.Some? ==> vs.reservePct.value <= 100
  }

  function Effective(entry: VendorEntry, vs: VendorSettings): EffectiveBudget
    requires ValidSettings(vs)
  {
    var limit := Overlay(entry.limit, vs.limit);
    var reserve := if vs.reservePct.Some? then vs.reservePct.value else 10;
    EffectiveBudget(
      limit, vs.cap, reserve, if vs.onExhausted.Some? then vs.onExhausted.value else Skip,
      WindowBudget(
        MinOpt(vs.cap.rps, limit.rps),
        MinOpt(vs.cap.perMinute, limit.perMinute),
        MinOpt(vs.cap.daily, Keep(limit.daily, reserve)),
        MinOpt(vs.cap.monthly, Keep(limit.monthly, reserve))))
  }

  /** What one call of an operation is charged: the operator's figure before the registry's, and 1 for a vendor of neither. */
  function Cost(entries: map<string, VendorEntry>, settings: map<string, VendorSettings>, vendor: string, operation: string): U64 {
    if vendor in settings && operation in settings[vendor].costs then settings[vendor].costs[operation]
    else if vendor in entries then
      if operation in entries[vendor].costs then entries[vendor].costs[operation] else entries[vendor].defaultCost
    else 1
  }

  /** `n` stays below both bounds that are set. */
  predicate Below(n: nat, a: Option<U64>, b: Option<U64>) {
    (a.Some? ==> n <= a.value) && (b.Some? ==> n <= b.value)
  }

  /** The smaller of two optional bounds is the greatest number below both, and is missing only when both are. */
  lemma MinOptIsGreatest(a: Option<U64>, b: Option<U64>)
    ensures MinOpt(a, b).None? <==> a.None? && b.None?
    ensures MinOpt(a, b).Some? ==> forall n: nat :: n <= MinOpt(a, b).value <==> Below(n, a, b)
  {
  }

  /** The kept part is the reserve-free share of the limit, rounded down, unless the product overflows; it never exceeds the limit. */
  lemma KeepIsShare(l: U64, reserve: nat)
    requires reserve <= 100
    ensures Keep(Some(l), reserve).Some? && Keep(Some(l), reserve).value <= l
    ensures l * (100 - reserve) <= U64_MAX ==>
              100 * Keep(Some(l), reserve).value <= l * (100 - reserve) < 100 * (Keep(Some(l), reserve).value + 1)
  {
    var product := l * (100 - reserve);
    assert product <= 100 * l by { ShareBelow(l, reserve); }
    Hundredth(product, l);
    Hundredth(if product <= U64_MAX then product else U64_MAX, l);
  }

  lemma ShareBelow(l: nat, reserve: nat)
    requires reserve <= 100
    ensures l * (100 - reserve) <= 100 * l
  {
  }

  lemma Hundredth(n: nat, l: nat)
    requires n <= 100 * l
    ensures n / 100 <= l && 100 * (n / 100) <= n < 100 * (n / 100 + 1)
  {
  }

  /** A window of a budget: the vendor's limit, the operator's cap and what routing enforces. */
  predicate Sound(limit: Option<U64>, cap: Option<U64>, effective: Option<U64>) {
    && (effective.None? <==> limit.None? && cap.None?)
    && (effective.Some? ==> Below(effective.value, limit, cap))
  }

  /** Whatever the operator configures, routing never allows more than the vendor's limit or the cap in any window. */
  lemma EffectiveIsSound(entry: VendorEntry, vs: VendorSettings)
    requires ValidSettings(vs)
    ensures var b := Effective(entry, vs);
            && b.reservePct <= 100
            && Sound(b.limit.rps, b.cap.rps, b.effective.rps)
            && Sound(b.limit.perMinute, b.cap.perMinute, b.effective.perMinute)
            && Sound(b.limit.daily, b.cap.daily, b.effective.daily)
            && Sound(b.limit.monthly, b.cap.monthly, b.effective.monthly)
  {
    var b := Effective(entry, vs);
    if b.limit.daily.Some? {
      KeepIsShare(b.limit.daily.value, b.reservePct);
    }
    if b.limit.monthly.Some? {
      KeepIsShare(b.limit.monthly.value, b.reservePct);
    }
  }

  /** What the operator set for a vendor's window, else what the registry knows. */
  function Configured(entry: Option<U64>, operator: Option<U64>): Option<U64> {
    match operator
    case Some(l) => Some(l)
    case None => entry
  }

  /**
   * `n` calls of a day or month fit under what is enforced exactly if they fit under the cap and leave the reserve of the
   * limit alone, as far as the product can be held in 64 bits.
   */
  predicate Leaves(n: nat, limit: Option<U64>, cap: Option<U64>, reserve: nat)
    requires reserve <= 100
  {
    && (cap.Some? ==> n <= cap.value)
    && (limit.Some? ==> 100 * n <= limit.value * (100 - reserve) && 100 * n <= U64_MAX)
  }

  lemma KeepMeans(l: U64, reserve: nat, n: nat)
    requires reserve <= 100
    ensures n <= Keep(Some(l), reserve).value <==> 100 * n <= l * (100 - reserve) && 100 * n <= U64_MAX
  {
    var product := l * (100 - reserve);
    var capped := if product <= U64_MAX then product else U64_MAX;
    assert Keep(Some(l), reserve).value == capped / 100;
    HundredthMeans(capped, n);
  }

  lemma HundredthMeans(m: nat, n: nat)
    ensures n <= m / 100 <==> 100 * n <= m
  {
  }

  /**
   * What routing enforces, window by window. Rates are the least of cap and limit; days and months the least of cap and the
   * limit's unreserved share. The limit is the operator's or else the registry's, the reserve the operator's or else ten
   * percent, and a vendor without a setting is skipped when its budget is used up.
   */
  lemma EffectiveMeans(entry: VendorEntry, vs: VendorSettings, n: nat)
    requires ValidSettings(vs)
    ensures var (b, reserve) := (Effective(entry, vs), match vs.reservePct case Some(r) => r case None => 10);
            var daily := Configured(entry.limit.daily, vs.limit.daily);
            var monthly := Configured(entry.limit.monthly, vs.limit.monthly);
            && b.limit.daily == daily && b.limit.monthly == monthly && b.cap == vs.cap && b.reservePct == reserve
            && b.onExhausted == (match vs.onExhausted case Some(o) => o case None => Skip)
            && (b.effective.rps.Some? ==>
                  (n <= b.effective.rps.value <==> Below(n, Configured(entry.limit.rps, vs.limit.rps), vs.cap.rps)))
            && (b.effective.perMinute.Some? ==>
                  (n <= b.effective.perMinute.value <==>
                   Below(n, Configured(entry.limit.perMinute, vs.limit.perMinute), vs.cap.perMinute)))
            && (b.effective.daily.Some? ==> (n <= b.effective.daily.value <==> Leaves(n, daily, vs.cap.daily, reserve)))
            && (b.effective.monthly.Some? ==> (n <= b.effective.monthly.value <==> Leaves(n, monthly, vs.cap.monthly, reserve)))
  {
    hide Keep;
    var b := Effective(entry, vs);
    if b.limit.daily.Some? {
      KeepMeans(b.limit.daily.value, b.reservePct, n);
      KeepKind(b.limit.daily, b.reservePct);
    }
    if b.limit.monthly.Some? {
      KeepMeans(b.limit.monthly.value, b.reservePct, n);
      KeepKind(b.limit.monthly, b.reservePct);
    }
    KeepKind(None, b.reservePct);
  }

  lemma KeepKind(limit: Option<U64>, reserve: nat)
    requires reserve <= 100
    ensures Keep(limit, reserve).Some? <==> limit.Some?
  {
  }

  /** The operator's price stands over the registry's, the registry's own over its default, and a stranger costs 1. */
  lemma CostMeans(entries: map<string, VendorEntry>, settings: map<string, VendorSettings>, vendor: string, operation: string)
    ensures var cost := Cost(entries, settings, vendor, operation);
            var priced := vendor in settings && operation in settings[vendor].costs;
            && (priced ==> cost == settings[vendor].costs[operation])
            && (!priced && vendor in entries && operation in entries[vendor].costs ==> cost == entries[vendor].costs[operation])
            && (!priced && vendor in entries && operation !in entries[vendor].costs ==> cost == entries[vendor].defaultCost)
            && (!priced && vendor !in entries ==> cost == 1)
  {
  }
}
