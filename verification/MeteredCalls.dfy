/**
 * Metering calls of many callers at the store. A call updates the vendor's total and the client's credits under locks of
 * their own, so between the two it owes the client's half; admission, queueing and the worker go on meanwhile.
 */
module MeteredCalls {
  import opened Counters
  import opened MapSums
  import opened Persistence
  import opened Windows
  import opened Wrappers
  import opened WriteBehind

  /** The client's half of a call that has charged its vendor. */
  datatype Debt = Debt(client: string, w: WindowKey, amount: nat)

  datatype System = System(state: State, debts: seq<Debt>)

  datatype Step =
    | Charge(vendor: string, w: WindowKey, amount: nat, dims: Dims)
    | Credit(i: nat)
    | Other(action: Action)

  function Advancing(sys: System, step: Step): System {
    match step
    case Charge(vendor, w, amount, dims) =>
      System(MirrorTotal(sys.state, vendor, w, amount, dims),
             if dims.client.Some? then sys.debts + [Debt(dims.client.value, w, amount)] else sys.debts)
    case Credit(i) =>
      if i >= |sys.debts| then sys
      else
        var d := sys.debts[i];
        System(MirrorCredit(sys.state, d.client, d.w, d.amount), sys.debts[..i] + sys.debts[i + 1..])
    case Other(a) => if a.AddTotal? || a.AddCredit? then sys else sys.(state := WriteBehind.Stepping(sys.state, a))
  }

  function Going(sys: System, steps: seq<Step>): System
    decreases |steps|
  {
    if steps == [] then sys else Advancing(Going(sys, steps[..|steps| - 1]), steps[|steps| - 1])
  }

  function OwedBy(d: Debt, client: string, w: WindowKey): nat {
    if d.client == client && d.w == w then d.amount else 0
  }

  /** What calls in progress still owe a client's window. */
  function Owing(debts: seq<Debt>, client: string, w: WindowKey): nat
    decreases |debts|
  {
    if debts == [] then 0 else OwedBy(debts[0], client, w) + Owing(debts[1..], client, w)
  }

  lemma {:induction false} OwingSplit(a: seq<Debt>, b: seq<Debt>, client: string, w: WindowKey)
    ensures Owing(a + b, client, w) == Owing(a, client, w) + Owing(b, client, w)
    decreases |a|
  {
    if a == [] {
      assert a + b == b;
    } else {
      OwingSplit(a[1..], b, client, w);
      assert (a + b)[1..] == a[1..] + b;
    }
  }

  lemma OwingOne(d: Debt, client: string, w: WindowKey)
    ensures Owing([d], client, w) == OwedBy(d, client, w)
  {
    assert Owing([d][1..], client, w) == 0;
  }

  lemma OwingWithout(debts: seq<Debt>, i: nat, client: string, w: WindowKey)
    requires i < |debts|
    ensures Owing(debts[..i] + debts[i + 1..], client, w) == Owing(debts, client, w) - OwedBy(debts[i], client, w)
  {
    hide Owing, OwedBy;
    assert debts == debts[..i] + ([debts[i]] + debts[i + 1..]);
    OwingSplit(debts[..i], [debts[i]] + debts[i + 1..], client, w);
    OwingSplit([debts[i]], debts[i + 1..], client, w);
    OwingSplit(debts[..i], debts[i + 1..], client, w);
    OwingOne(debts[i], client, w);
  }

  /** Amounts survive the cast to a signed column. */
  predicate Storable(step: Step) {
    step.Charge? ==> step.amount < I64_LIMIT
  }

  predicate AllStorable(steps: seq<Step>) {
    forall i :: 0 <= i < |steps| ==> Storable(steps[i])
  }

  predicate DebtsStorable(sys: System) {
    forall i :: 0 <= i < |sys.debts| ==> sys.debts[i].amount < I64_LIMIT
  }

  lemma Uncut(n: nat)
    requires n < I64_LIMIT
    ensures AsI64(n) == n
  {
  }

  /** The database action a step performs, if it performs one. */
  function ActionOf(sys: System, step: Step): seq<Action> {
    match step
    case Charge(vendor, w, amount, dims) => [AddTotal(vendor, w, amount, dims)]
    case Credit(i) => if i < |sys.debts| then [AddCredit(sys.debts[i].client, sys.debts[i].w, sys.debts[i].amount)] else []
    case Other(a) => if a.AddTotal? || a.AddCredit? then [] else [a]
  }

  function ActionsOf(sys: System, steps: seq<Step>): seq<Action>
    decreases |steps|
  {
    if steps == [] then []
    else
      var front := steps[..|steps| - 1];
      ActionsOf(sys, front) + ActionOf(Going(sys, front), steps[|steps| - 1])
  }

  lemma OneAction(sys: System, step: Step)
    requires DebtsStorable(sys) && Storable(step)
    ensures Advancing(sys, step).state == WriteBehind.Run(sys.state, ActionOf(sys, step))
    ensures Castable(ActionOf(sys, step)) && DebtsStorable(Advancing(sys, step))
  {
    hide MirrorTotal, MirrorCredit, MirrorAdmit, MirrorThrottled, Working, Submitting;
    var actions := ActionOf(sys, step);
    NoActions(sys.state);
    if actions != [] {
      assert actions == [actions[0]] && actions[..0] == [];
    }
  }

  /** A run of calls is one of the interleaved runs of actions, so everything proved of those holds here too. */
  lemma {:induction false} CallsAreActions(sys: System, steps: seq<Step>)
    requires DebtsStorable(sys) && AllStorable(steps)
    ensures Going(sys, steps).state == WriteBehind.Run(sys.state, ActionsOf(sys, steps))
    ensures Castable(ActionsOf(sys, steps)) && DebtsStorable(Going(sys, steps))
    decreases |steps|
  {
    hide Advancing, ActionOf, CastableAction, WriteBehind.Run, Storable;
    if steps == [] {
      NoActions(sys.state);
    } else {
      var front, last := steps[..|steps| - 1], steps[|steps| - 1];
      CallsAreActions(sys, front);
      var before := Going(sys, front);
      OneAction(before, last);
      RunSplit(sys.state, ActionsOf(sys, front), ActionOf(before, last));
    }
  }

  // ----- credits

  /** A step never changes what a client is credited and owed together against what is attributed to it. */
  lemma StepSettles(sys: System, step: Step, client: string, w: WindowKey)
    requires client != "" && DebtsStorable(sys) && Storable(step)
    ensures var sys' := Advancing(sys, step);
            Lead(sys'.state, client, w) + Owing(sys'.debts, client, w) == Lead(sys.state, client, w) + Owing(sys.debts, client, w)
  {
    hide Lead, MirrorTotal, MirrorCredit, MirrorAdmit, MirrorThrottled, Working, Submitting, AsI64, Owing;
    hide TotalShaped, TotalGap, ClientShaped, ClientGap;
    match step
    case Charge(vendor, x, amount, dims) =>
      StepGaps(sys.state, AddTotal(vendor, x, amount, dims), client, w);
      Uncut(amount);
      if dims.client.Some? {
        OwingSplit(sys.debts, [Debt(dims.client.value, x, amount)], client, w);
        OwingOne(Debt(dims.client.value, x, amount), client, w);
      }
    case Credit(i) =>
      if i < |sys.debts| {
        var d := sys.debts[i];
        StepGaps(sys.state, AddCredit(d.client, d.w, d.amount), client, w);
        OwingWithout(sys.debts, i, client, w);
      }
    case Other(a) => StepGaps(sys.state, a, client, w);
  }

  lemma {:induction false} RunSettles(sys: System, steps: seq<Step>, client: string, w: WindowKey)
    requires client != "" && DebtsStorable(sys) && AllStorable(steps)
    ensures var end := Going(sys, steps);
            Lead(end.state, client, w) + Owing(end.debts, client, w) == Lead(sys.state, client, w) + Owing(sys.debts, client, w)
    decreases |steps|
  {
    hide Lead, Owing, Advancing, Storable;
    if steps != [] {
      var front := steps[..|steps| - 1];
      RunSettles(sys, front, client, w);
      CallsAreActions(sys, front);
      StepSettles(Going(sys, front), steps[|steps| - 1], client, w);
    }
  }

  /** What the usage rows attribute to a client in a window. */
  ghost function AttributedTo(db: Db, client: string, w: WindowKey): int {
    Sum(MatchingRows(db.usage, OfClient(client, WKey(w))))
  }

  /** Each client's credits are what the usage rows attribute to it; the empty attribution belongs to no client. */
  ghost predicate Attributed(db: Db) {
    forall client, w :: client != "" ==> CountersAt(db.clients, (client, WKey(w))).credits == AttributedTo(db, client, w)
  }

  lemma EmptyIsAttributed()
    ensures Attributed(Db(map[], map[])) && NonNegativeDb(Db(map[], map[]))
  {
    forall client, w
      ensures AttributedTo(Db(map[], map[]), client, w) == 0
    {
      assert MatchingRows(map[], OfClient(client, WKey(w))) == map[];
    }
  }

  lemma LoadedHasNoLead(db: Db, client: string, w: WindowKey)
    requires NonNegativeDb(db) && Attributed(db) && client != ""
    ensures Lead(Loaded(db), client, w) == 0
  {
    hide WKey, LoadClients, LoadTotals, Sum, Outlook;
    SettledOutlook(Loaded(db), OfClient(client, WKey(w)));
    LoadedClient(db.clients, client, w);
    assert CountersAt(db.clients, (client, WKey(w))).credits == AttributedTo(db, client, w);
  }

  /**
   * Credits are attributed. From opening a database whose credits are attributed (an empty one, say), in every interleaving
   * of metering calls with everything else, a client's credits and what calls in progress still owe it make up exactly the
   * usage rows attributed to it, stored or outstanding. So once no call is between its two updates they are equal.
   */
  lemma CreditsAreAttributed(db: Db, steps: seq<Step>, client: string, w: WindowKey)
    requires NonNegativeDb(db) && Attributed(db) && AllStorable(steps) && client != ""
    ensures var end := Going(System(Loaded(db), []), steps);
            var credits := CountersAt(end.state.clientUsage, (client, w)).credits;
            var attributed := Outlook(end.state, OfClient(client, WKey(w))).counters.credits;
            && credits + Owing(end.debts, client, w) == attributed
            && (end.debts == [] ==> credits == attributed)
  {
    hide Loaded, Outlook, Going;
    LoadedHasNoLead(db, client, w);
    RunSettles(System(Loaded(db), []), steps, client, w);
  }

  /** Closing the store when no call is in progress leaves a database whose credits are attributed again. */
  lemma ClosedIsAttributed(db: Db, steps: seq<Step>)
    requires NonNegativeDb(db) && Attributed(db) && AllStorable(steps)
    ensures var end := Going(System(Loaded(db), []), steps);
            var closed := Drain(end.state.db, end.state.queue);
            && NonNegativeDb(closed)
            && (end.debts == [] && end.state.pending == [] ==> Attributed(closed))
  {
    hide Loaded, Going, Drain, Outlook, WKey, NonNegativeDb, Consistent;
    var start := System(Loaded(db), []);
    var end := Going(start, steps);
    CallsAreActions(start, steps);
    OpenRunReopen(db, ActionsOf(start, steps));
    if end.debts == [] && end.state.pending == [] {
      var s := end.state;
      var drained := s.(queue := [], db := Drain(s.db, s.queue));
      forall client, w | client != ""
        ensures CountersAt(drained.db.clients, (client, WKey(w))).credits == AttributedTo(drained.db, client, w)
      {
        CreditsAreAttributed(db, steps, client, w);
        DrainedCredits(s, client, w);
      }
    }
  }

  lemma DrainedCredits(s: State, client: string, w: WindowKey)
    requires Consistent(s) && s.pending == []
    requires CountersAt(s.clientUsage, (client, w)).credits == Outlook(s, OfClient(client, WKey(w))).counters.credits
    ensures var db := Drain(s.db, s.queue);
            CountersAt(db.clients, (client, WKey(w))).credits == AttributedTo(db, client, w)
  {
    hide Drain, Outlook, WKey, Sum;
    var drained := s.(queue := [], db := Drain(s.db, s.queue));
    assert ClientMatches(s, client, w);
    DrainOutlook(s, OfClient(client, WKey(w)));
    DrainOutlook(s, CounterOf(client, WKey(w)));
    SettledOutlook(drained, OfClient(client, WKey(w)));
    SettledOutlook(drained, CounterOf(client, WKey(w)));
  }
}
