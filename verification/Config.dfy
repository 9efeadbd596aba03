/** Layered configuration: value trees, how the layers merge, and the layer that the environment contributes. */
module Configs {
  import opened Decimal
  import opened Text
  import opened Wrappers

  /** A TOML value; `Scalar` stands for floats and dates. */
  datatype Tree =
    | Bool(b: bool)
    | Int(n: int)
    | Str(s: string)
    | Scalar(text: string)
    | Arr(items: seq<Tree>)
    | Table(fields: map<string, Tree>)

  type Path = seq<string>

  const EMPTY := Table(map[])

  function Lookup(t: Tree, p: Path): Option<Tree> {
    if p == [] then Some(t)
    else if t.Table? && p[0] in t.fields then Lookup(t.fields[p[0]], p[1..])
    else None
  }

  /** Tables merge key by key; otherwise the later value replaces the earlier. */
  function Merge(a: Tree, b: Tree): Tree
    decreases b
  {
    if a.Table? && b.Table? then
      Table(map k | k in a.fields.Keys + b.fields.Keys ::
              if k !in b.fields then a.fields[k]
              else if k !in a.fields then b.fields[k]
              else Merge(a.fields[k], b.fields[k]))
    else b
  }

  // ----- paths

  /** They agree up to the end of the shorter one. */
  predicate Comparable(p: Path, q: Path) {
    forall i :: 0 <= i < |p| && i < |q| ==> p[i] == q[i]
  }

  lemma ComparableIsPrefix(p: Path, q: Path)
    ensures Comparable(p, q) <==> p <= q || q <= p
  {
    if Comparable(p, q) {
      if |p| <= |q| {
        assert p <= q;
      } else {
        assert q <= p;
      }
    }
  }

  lemma ComparableTail(p: Path, q: Path)
    requires p != [] && q != [] && p[0] == q[0]
    ensures Comparable(p, q) <==> Comparable(p[1..], q[1..])
  {
    if Comparable(p[1..], q[1..]) {
      forall i | 0 <= i < |p| && i < |q|
        ensures p[i] == q[i]
      {
        if i > 0 {
          assert p[i] == p[1..][i - 1] && q[i] == q[1..][i - 1];
        }
      }
    }
  }

  // ----- merging, path by path

  /** The table under `k`, empty if there is none. */
  function Below(t: Tree, k: string): Tree {
    if t.Table? && k in t.fields && t.fields[k].Table? then t.fields[k] else EMPTY
  }

  lemma LookupBelow(t: Tree, q: Path)
    requires |q| >= 2
    ensures Lookup(t, q) == Lookup(Below(t, q[0]), q[1..])
  {
  }

  lemma MergeEmpty(b: Tree)
    requires b.Table?
    ensures Merge(EMPTY, b) == b == Merge(b, EMPTY)
  {
  }

  lemma MergeBelow(a: Tree, b: Tree, q: Path)
    requires a.Table? && b.Table? && |q| >= 2
    requires q[0] in b.fields ==> b.fields[q[0]].Table?
    ensures Lookup(Merge(a, b), q) == Lookup(Merge(Below(a, q[0]), Below(b, q[0])), q[1..])
  {
    var k := q[0];
    MergeEmpty(Below(a, k));
    MergeEmpty(Below(b, k));
  }

  /** What a merge holds at a path depends on the lower layer only by what that holds there. */
  lemma {:induction false} MergeSame(a: Tree, a': Tree, b: Tree, q: Path)
    requires a.Table? && a'.Table? && b.Table? && q != []
    requires Lookup(a, q) == Lookup(a', q)
    ensures Lookup(Merge(a, b), q) == Lookup(Merge(a', b), q)
    decreases |q|
  {
    var k := q[0];
    if |q| == 1 {
      assert Lookup(a, q) == if k in a.fields then Some(a.fields[k]) else None;
      assert Lookup(a', q) == if k in a'.fields then Some(a'.fields[k]) else None;
    } else if k in b.fields && !b.fields[k].Table? {
      LookupBelow(Merge(a, b), q);
      LookupBelow(Merge(a', b), q);
    } else {
      LookupBelow(a, q);
      LookupBelow(a', q);
      MergeBelow(a, b, q);
      MergeBelow(a', b, q);
      MergeSame(Below(a, k), Below(a', k), Below(b, k), q[1..]);
    }
  }

  /** Following the path one leaves the tree at a table: nothing is there, and nothing stands in the way. */
  predicate Clear(t: Tree, p: Path) {
    t.Table? && p != [] && (p[0] in t.fields ==> Clear(t.fields[p[0]], p[1..]))
  }

  /** A layer that is clear at a path leaves it as it is below. */
  lemma {:induction false} MergeKeeps(a: Tree, b: Tree, q: Path)
    requires a.Table? && Clear(b, q)
    ensures Lookup(Merge(a, b), q) == Lookup(a, q)
    decreases |q|
  {
    var k := q[0];
    if |q| >= 2 {
      LookupBelow(a, q);
      MergeBelow(a, b, q);
      if k in b.fields {
        MergeKeeps(Below(a, k), b.fields[k], q[1..]);
      } else {
        MergeEmpty(Below(a, k));
      }
    }
  }

  // ----- inserting

  /** Sets a value, making tables of everything above it. */
  function InsertAt(t: Tree, p: Path, v: Tree): (r: Tree)
    requires p != []
    ensures r.Table?
    decreases |p|
  {
    var fields := if t.Table? then t.fields else map[];
    if |p| == 1 then Table(fields[p[0] := v])
    else Table(fields[p[0] := InsertAt(Below(t, p[0]), p[1..], v)])
  }

  /** What is found after inserting: below the path the value's own parts, above it a table, elsewhere what was there. */
  lemma {:induction false} InsertLookup(t: Tree, p: Path, v: Tree, q: Path)
    requires t.Table? && p != [] && q != []
    ensures p <= q ==> Lookup(InsertAt(t, p, v), q) == Lookup(v, q[|p|..])
    ensures q <= p && q != p ==> Lookup(InsertAt(t, p, v), q).Some? && Lookup(InsertAt(t, p, v), q).value.Table?
    ensures !Comparable(p, q) ==> Lookup(InsertAt(t, p, v), q) == Lookup(t, q)
    decreases |p|
  {
    if p[0] == q[0] {
      ComparableTail(p, q);
      if |p| == 1 {
        assert q[|p|..] == q[1..];
      } else if |q| >= 2 {
        InsertLookup(Below(t, p[0]), p[1..], v, q[1..]);
        LookupBelow(t, q);
        if p <= q {
          assert q[|p|..] == q[1..][|p[1..]|..];
          assert p[1..] <= q[1..];
        }
        assert q <= p ==> q[1..] <= p[1..];
      } else {
        assert Lookup(InsertAt(t, p, v), q) == Some(InsertAt(Below(t, p[0]), p[1..], v));
      }
    }
  }

  // ----- the environment layer

  const ENV_PREFIX := "ODM__"
  const LEGACY_ENV_PREFIX := "BDM__"

  const U64_MAX: nat := 0xFFFF_FFFF_FFFF_FFFF

  /** `str::parse::<u64>`: digits, optionally after a plus sign. */
  function ParseU64(s: string): Option<nat> {
    var digits := if s != "" && s[0] == '+' then s[1..] else s;
    if digits != "" && AllDigits(digits) && Value(digits) <= U64_MAX then Some(Value(digits)) else None
  }

  function Typed(raw: string): Tree {
    var t := Trim(raw);
    if t == "true" then Bool(true)
    else if t == "false" then Bool(false)
    else
      match ParseU64(t)
      case Some(n) => Int(n)
      case None => Str(t)
  }

  /** A number printed in decimal is read back as that number. */
  lemma TypedNumber(n: nat)
    requires n <= U64_MAX
    ensures Typed(Digits(n)) == Int(n)
  {
    hide Digits, Value, Trim;
    var s := Digits(n);
    DigitsDenote(n);
    DigitsTrimmed(n);
    assert IsDigit(s[0]);
    assert "true"[0] == 't' && "false"[0] == 'f';
  }

  lemma DigitsTrimmed(n: nat)
    ensures Trim(Digits(n)) == Digits(n)
  {
    hide Digits, Trim;
    var s := Digits(n);
    assert IsDigit(s[0]) && IsDigit(s[|s| - 1]);
    TrimTrimmed(s);
  }

  function LowerChar(c: char): char {
    if 'A' <= c <= 'Z' then c - 'A' + 'a' else c
  }

  function Lower(s: string): string {
    seq(|s|, i requires 0 <= i < |s| => LowerChar(s[i]))
  }

  /** The lower-cased segments between double underscores. */
  function Segments(s: string, start: nat): (p: Path)
    requires start <= |s|
    ensures p != []
    decreases |s|, |s| - start
  {
    if start + 2 > |s| then [Lower(s)]
    else if s[start] == '_' && s[start + 1] == '_' then [Lower(s[..start])] + Segments(s[start + 2..], 0)
    else Segments(s, start + 1)
  }

  /** Environment variables in name order. */
  type Vars = seq<(string, string)>

  /** The value of a variable, or `None` if it is unset or blank. */
  function GetVar(vars: Vars, name: string): Option<string>
    decreases |vars|
  {
    if vars == [] then None
    else if vars[0].0 == name then (if Trim(vars[0].1) == "" then None else Some(vars[0].1))
    else GetVar(vars[1..], name)
  }

  /** One path that the environment sets, and the variable responsible. */
  datatype Setting = Setting(path: Path, value: Tree, variable: string)

  function SettingOf(v: (string, string), prefix: string): Option<Setting> {
    if !(prefix <= v.0) then None
    else
      var path := Segments(v.0[|prefix|..], 0);
      if "" in path then None else Some(Setting(path, Typed(v.1), v.0))
  }

  function Prefixed(vars: Vars, prefix: string): (r: seq<Setting>)
    ensures forall i :: 0 <= i < |r| ==> r[i].path != []
    decreases |vars|
  {
    if vars == [] then []
    else
      var rest := Prefixed(vars[..|vars| - 1], prefix);
      match SettingOf(vars[|vars| - 1], prefix)
      case Some(s) => rest + [s]
      case None => rest
  }

  /** Which variable holds which key field of which vendor. */
  datatype KeyVar = KeyVar(vendor: string, field: string, variable: string)

  function Keys(vars: Vars, keys: seq<KeyVar>): (r: seq<Setting>)
    ensures forall i :: 0 <= i < |r| ==> r[i].path != []
    decreases |keys|
  {
    if keys == [] then []
    else
      var k := keys[|keys| - 1];
      Keys(vars, keys[..|keys| - 1]) +
      match GetVar(vars, k.variable)
      case Some(v) => [Setting(["keys", k.vendor, k.field], Str(v), k.variable)]
      case None => []
  }

  function RpcUrl(vars: Vars): (r: seq<Setting>)
    ensures forall i :: 0 <= i < |r| ==> r[i].path != []
  {
    match GetVar(vars, "RPC_URL")
    case Some(url) =>
      [Setting(["custom_rpc", "rpc_url"], Table(map["chain" := Str("eip155:1"), "url" := Str(url)]), "RPC_URL")]
    case None => []
  }

  /** Everything the environment sets, later settings overriding earlier ones. */
  function Settings(vars: Vars, keys: seq<KeyVar>): (r: seq<Setting>)
    ensures forall i :: 0 <= i < |r| ==> r[i].path != []
  {
    Prefixed(vars, LEGACY_ENV_PREFIX) + Prefixed(vars, ENV_PREFIX) + Keys(vars, keys) + RpcUrl(vars)
  }

  type Locked = map<Path, string>

  /** The tree and the locked paths that a list of settings leaves. */
  function Layer(settings: seq<Setting>): (r: (Tree, Locked))
    requires forall i :: 0 <= i < |settings| ==> settings[i].path != []
    ensures r.0.Table?
    decreases |settings|
  {
    if settings == [] then (EMPTY, map[])
    else
      var last := settings[|settings| - 1];
      var (tree, locked) := Layer(settings[..|settings| - 1]);
      (InsertAt(tree, last.path, last.value), locked[last.path := last.variable])
  }

  lemma LayerOneMore(settings: seq<Setting>, s: Setting)
    requires s.path != [] && forall i :: 0 <= i < |settings| ==> settings[i].path != []
    ensures Layer(settings + [s]) == (InsertAt(Layer(settings).0, s.path, s.value), Layer(settings).1[s.path := s.variable])
  {
    assert (settings + [s])[..|settings|] == settings;
  }

  predicate AllSet(settings: seq<Setting>) {
    forall i :: 0 <= i < |settings| ==> settings[i].path != []
  }

  /** One more setting: `done` are the ones before it. */
  method Apply(tree: Tree, locked: Locked, s: Setting, ghost done: seq<Setting>) returns (tree': Tree, locked': Locked)
    requires AllSet(done) && s.path != [] && (tree, locked) == Layer(done)
    ensures AllSet(done + [s]) && (tree', locked') == Layer(done + [s])
  {
    LayerOneMore(done, s);
    tree', locked' := InsertAt(tree, s.path, s.value), locked[s.path := s.variable];
  }

  method EnvPrefixed(vars: Vars, prefix: string, start: Tree, started: Locked, ghost done: seq<Setting>)
    returns (tree: Tree, locked: Locked)
    requires AllSet(done) && (start, started) == Layer(done)
    ensures AllSet(done + Prefixed(vars, prefix)) && (tree, locked) == Layer(done + Prefixed(vars, prefix))
  {
    hide Layer, Segments, Typed;
    tree, locked := start, started;
    assert done + [] == done;
    for i := 0 to |vars|
      invariant AllSet(done + Prefixed(vars[..i], prefix)) && (tree, locked) == Layer(done + Prefixed(vars[..i], prefix))
    {
      assert vars[..i + 1][..i] == vars[..i];
      var (variable, raw) := vars[i];
      if !(prefix <= variable) {
        continue;
      }
      var path := Segments(variable[|prefix|..], 0);
      if "" in path {
        continue;
      }
      ghost var before := Prefixed(vars[..i], prefix);
      tree, locked := Apply(tree, locked, Setting(path, Typed(raw), variable), done + before);
      assert done + before + [Setting(path, Typed(raw), variable)] == done + (before + [Setting(path, Typed(raw), variable)]);
    }
    assert vars[..|vars|] == vars;
  }

  method EnvKeys(vars: Vars, keys: seq<KeyVar>, start: Tree, started: Locked, ghost done: seq<Setting>)
    returns (tree: Tree, locked: Locked)
    requires AllSet(done) && (start, started) == Layer(done)
    ensures AllSet(done + Keys(vars, keys)) && (tree, locked) == Layer(done + Keys(vars, keys))
  {
    hide Layer, GetVar;
    tree, locked := start, started;
    assert done + [] == done;
    for i := 0 to |keys|
      invariant AllSet(done + Keys(vars, keys[..i])) && (tree, locked) == Layer(done + Keys(vars, keys[..i]))
    {
      assert keys[..i + 1][..i] == keys[..i];
      var k := keys[i];
      ghost var before := Keys(vars, keys[..i]);
      var v := GetVar(vars, k.variable);
      if v.Some? {
        var s := Setting(["keys", k.vendor, k.field], Str(v.value), k.variable);
        tree, locked := Apply(tree, locked, s, done + before);
        assert done + before + [s] == done + (before + [s]);
      } else {
        assert before + [] == before;
      }
    }
    assert keys[..|keys|] == keys;
  }

  /** Settings under the legacy prefix come first in the list, and so lose to equal paths under the new one. */
  method EnvLayer(vars: Vars, keys: seq<KeyVar>) returns (tree: Tree, locked: Locked)
    ensures (tree, locked) == Layer(Settings(vars, keys))
  {
    hide Layer, GetVar, Prefixed, Keys;
    tree, locked := EMPTY, map[];
    ghost var done: seq<Setting> := [];
    assert (tree, locked) == Layer(done) by { NoSettings(); }
    tree, locked := EnvPrefixed(vars, LEGACY_ENV_PREFIX, tree, locked, done);
    done := done + Prefixed(vars, LEGACY_ENV_PREFIX);
    tree, locked := EnvPrefixed(vars, ENV_PREFIX, tree, locked, done);
    done := done + Prefixed(vars, ENV_PREFIX);
    tree, locked := EnvKeys(vars, keys, tree, locked, done);
    done := done + Keys(vars, keys);
    assert done == Prefixed(vars, LEGACY_ENV_PREFIX) + Prefixed(vars, ENV_PREFIX) + Keys(vars, keys);
    var url := GetVar(vars, "RPC_URL");
    if url.Some? {
      var value := Table(map["chain" := Str("eip155:1"), "url" := Str(url.value)]);
      tree, locked := Apply(tree, locked, Setting(["custom_rpc", "rpc_url"], value, "RPC_URL"), done);
    } else {
      assert done + [] == done;
    }
  }

  lemma NoSettings()
    ensures Layer([]) == (EMPTY, map[])
  {
  }

  // ----- locked paths cover the environment

  /** The path, or one above or below it, is set by the environment. */
  predicate LockedBy(locked: Locked, p: Path) {
    exists l :: l in locked && Comparable(l, p)
  }

  /** Every value of the layer lies at or below a locked path, and every table of it above or below one. */
  ghost predicate Covered(tree: Tree, locked: Locked) {
    forall q :: q != [] && Lookup(tree, q).Some? ==>
      LockedBy(locked, q) && (!Lookup(tree, q).value.Table? ==> exists l :: l in locked && l <= q)
  }

  lemma InsertCovered(tree: Tree, locked: Locked, p: Path, v: Tree, name: string)
    requires tree.Table? && p != [] && Covered(tree, locked)
    ensures Covered(InsertAt(tree, p, v), locked[p := name])
  {
    hide InsertAt, Lookup;
    var tree', locked' := InsertAt(tree, p, v), locked[p := name];
    forall q | q != [] && Lookup(tree', q).Some?
      ensures LockedBy(locked', q) && (!Lookup(tree', q).value.Table? ==> exists l :: l in locked' && l <= q)
    {
      InsertLookup(tree, p, v, q);
      ComparableIsPrefix(p, q);
      if Comparable(p, q) {
        assert p in locked';
      } else {
        var l :| l in locked && Comparable(l, q);
        assert l in locked';
        if !Lookup(tree', q).value.Table? {
          var m :| m in locked && m <= q;
          assert m in locked';
        }
      }
    }
  }

  lemma {:induction false} LayerCovered(settings: seq<Setting>)
    requires forall i :: 0 <= i < |settings| ==> settings[i].path != []
    ensures Covered(Layer(settings).0, Layer(settings).1)
    decreases |settings|
  {
    hide Covered;
    if settings == [] {
      NothingCovered();
    } else {
      var last, front := settings[|settings| - 1], settings[..|settings| - 1];
      LayerCovered(front);
      InsertCovered(Layer(front).0, Layer(front).1, last.path, last.value, last.variable);
    }
  }

  lemma NothingCovered()
    ensures Covered(EMPTY, map[])
  {
  }

  lemma OpenOrLocked(tree: Tree, locked: Locked, p: Path, n: nat)
    requires Covered(tree, locked) && 0 < n <= |p|
    ensures LockedBy(locked, p) || Lookup(tree, p[..n]).None? || (n < |p| && Lookup(tree, p[..n]).value.Table?)
  {
    hide Lookup;
    var q := p[..n];
    if Lookup(tree, q).Some? {
      if !Lookup(tree, q).value.Table? {
        var l :| l in locked && l <= q;
        ComparableIsPrefix(l, p);
      } else if n == |p| {
        assert q == p;
      }
    }
  }

  /** Where a path is not locked, the environment contributes nothing and stands in nobody's way. */
  lemma UnlockedIsClear(tree: Tree, locked: Locked, p: Path)
    requires tree.Table? && p != [] && Covered(tree, locked) && !LockedBy(locked, p)
    ensures Clear(tree, p)
  {
    forall n: nat | 0 < n <= |p|
      ensures Lookup(tree, p[..n]).None? || (n < |p| && Lookup(tree, p[..n]).value.Table?)
    {
      OpenOrLocked(tree, locked, p, n);
    }
    OpenIsClear(tree, p);
  }

  lemma {:induction false} OpenIsClear(t: Tree, p: Path)
    requires t.Table? && p != []
    requires forall n: nat :: 0 < n <= |p| ==>
               Lookup(t, p[..n]).None? || (n < |p| && Lookup(t, p[..n]).value.Table?)
    ensures Clear(t, p)
    decreases |p|
  {
    var k := p[0];
    if k in t.fields {
      assert p[..1] == [k] && Lookup(t, p[..1]) == Some(t.fields[k]);
      forall n: nat | 0 < n <= |p[1..]|
        ensures Lookup(t.fields[k], p[1..][..n]).None? || (n < |p[1..]| && Lookup(t.fields[k], p[1..][..n]).value.Table?)
      {
        assert p[..n + 1][0] == k && p[..n + 1][1..] == p[1..][..n];
        assert Lookup(t, p[..n + 1]) == Lookup(t.fields[k], p[1..][..n]);
      }
      OpenIsClear(t.fields[k], p[1..]);
    }
  }

  /** A setting that no later one touches is what the layer holds: variables with the new prefix win over legacy ones. */
  lemma {:induction false} LastSettingWins(settings: seq<Setting>, i: nat)
    requires forall j :: 0 <= j < |settings| ==> settings[j].path != []
    requires i < |settings| && forall j :: i < j < |settings| ==> !Comparable(settings[j].path, settings[i].path)
    ensures Lookup(Layer(settings).0, settings[i].path) == Some(settings[i].value)
    decreases |settings|
  {
    hide InsertAt, Lookup;
    var last, front := settings[|settings| - 1], settings[..|settings| - 1];
    var p := settings[i].path;
    InsertLookup(Layer(front).0, last.path, last.value, p);
    if i < |front| {
      LastSettingWins(front, i);
    } else {
      WholeValue(last.value, p);
    }
  }

  lemma WholeValue(v: Tree, p: Path)
    ensures Lookup(v, p[|p|..]) == Some(v)
  {
  }
}
