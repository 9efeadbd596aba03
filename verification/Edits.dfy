/** Config edits from the admin side: refused where the environment decides, otherwise they take exactly the effect asked for. */
module Edits {
  import opened Configs
  import opened JsonValues
  import opened Wrappers

  const I64_MIN: int := -0x8000_0000_0000_0000
  const I64_MAX: int := 0x7FFF_FFFF_FFFF_FFFF

  /** What TOML can hold: no nulls, and no numbers but signed 64-bit integers. */
  predicate Convertible(v: Json) {
    match v
    case Null => false
    case Bool(_) => true
    case Number(n) => I64_MIN <= n <= I64_MAX
    case Fraction => false
    case Str(_) => true
    case Arr(items) => forall i :: 0 <= i < |items| ==> Convertible(items[i])
    case Obj(fields) => forall k :: k in fields ==> Convertible(fields[k])
  }

  function ToItem(v: Json): Tree
    requires Convertible(v)
  {
    match v
    case Bool(b) => Tree.Bool(b)
    case Number(n) => Int(n)
    case Str(s) => Tree.Str(s)
    case Arr(items) => Tree.Arr(seq(|items|, i requires 0 <= i < |items| => ToItem(items[i])))
    case Obj(fields) => Table(map k | k in fields :: ToItem(fields[k]))
  }

  /** A path and what it should hold from now on; `None` stands for nothing. */
  datatype Edit = Edit(path: Path, value: Option<Json>)
  {
    /** Paths under `keys` go to the secrets file. */
    predicate IsSecret() {
      path != [] && path[0] == "keys"
    }
  }

  datatype Issue = LockedPath(path: Path) | EmptyPath | NotATable(path: Path) | NotToml(path: Path) | Rejected

  /** The tree with the edit made, or why it cannot be. */
  function SetPath(t: Tree, p: Path, value: Option<Json>, full: Path): (r: Result<Tree, Issue>)
    requires t.Table? && p != []
    ensures r.Ok? ==> r.value.Table?
    decreases |p|
  {
    if |p| > 1 then
      var child := if p[0] in t.fields then t.fields[p[0]] else EMPTY;
      if !child.Table? then Err(NotATable(full))
      else
        match SetPath(child, p[1..], value, full)
        case Err(e) => Err(e)
        case Ok(c) => Ok(Table(t.fields[p[0] := c]))
    else
      match value
      case None => Ok(Table(t.fields - {p[0]}))
      case Some(v) => if Convertible(v) then Ok(Table(t.fields[p[0] := ToItem(v)])) else Err(NotToml(full))
  }

  /** What a tree says as JSON; a float or a date has no counterpart that an edit could ask for. */
  function ToJson(t: Tree): Json {
    match t
    case Bool(b) => Json.Bool(b)
    case Int(n) => Number(n)
    case Str(s) => Json.Str(s)
    case Scalar(_) => Fraction
    case Arr(items) => Json.Arr(seq(|items|, i requires 0 <= i < |items| => ToJson(items[i])))
    case Table(fields) => Obj(map k | k in fields :: ToJson(fields[k]))
  }

  /** What is stored reads back as what was given, at every depth. */
  lemma {:induction false} ReadsBack(v: Json)
    requires Convertible(v)
    ensures ToJson(ToItem(v)) == v
    decreases v
  {
    match v {
      case Arr(items) =>
        forall i | 0 <= i < |items|
          ensures ToJson(ToItem(items[i])) == items[i]
        {
          ReadsBack(items[i]);
        }
      case Obj(fields) =>
        forall k | k in fields
          ensures ToJson(ToItem(fields[k])) == fields[k]
        {
          ReadsBack(fields[k]);
        }
      case _ =>
    }
  }

  /** What is found at a path, as JSON. */
  function Read(found: Option<Tree>): Option<Json> {
    match found
    case None => None
    case Some(t) => Some(ToJson(t))
  }

  /** The value an edit asks for. */
  function Wanted(value: Option<Json>): Option<Tree>
    requires value.Some? ==> Convertible(value.value)
  {
    match value
    case None => None
    case Some(v) => Some(ToItem(v))
  }

  lemma WantedReads(value: Option<Json>)
    requires value.Some? ==> Convertible(value.value)
    ensures Read(Wanted(value)) == value
  {
    if value.Some? {
      ReadsBack(value.value);
    }
  }

  /** Something that is not a table stands above the path. */
  predicate Obstructed(t: Tree, p: Path)
    requires t.Table?
    decreases |p|
  {
    |p| > 1 && p[0] in t.fields && (!t.fields[p[0]].Table? || Obstructed(t.fields[p[0]], p[1..]))
  }

  /** An edit of a file fails exactly if a value stands in the way or TOML cannot hold what is to be set. */
  lemma {:induction false} SetPathFails(t: Tree, p: Path, value: Option<Json>, full: Path)
    requires t.Table? && p != []
    ensures SetPath(t, p, value, full).Err? <==> Obstructed(t, p) || (value.Some? && !Convertible(value.value))
    decreases |p|
  {
    if |p| > 1 {
      SetPathFails(if p[0] in t.fields then Below(t, p[0]) else EMPTY, p[1..], value, full);
      NotObstructed(p[1..]);
    }
  }

  lemma NotObstructed(p: Path)
    ensures !Obstructed(EMPTY, p)
  {
  }

  lemma WantedIfSet(t: Tree, p: Path, value: Option<Json>, full: Path)
    requires t.Table? && p != [] && SetPath(t, p, value, full).Ok?
    ensures value.Some? ==> Convertible(value.value)
  {
    hide Convertible;
    SetPathFails(t, p, value, full);
  }

  /** What a file holds after an edit: at the path what was asked for, at every incomparable path what was there. */
  lemma {:induction false} SetPathLookup(t: Tree, p: Path, value: Option<Json>, full: Path, q: Path)
    requires t.Table? && p != [] && q != [] && SetPath(t, p, value, full).Ok?
    ensures value.Some? ==> Convertible(value.value)
    ensures Lookup(SetPath(t, p, value, full).value, p) == Wanted(value)
    ensures Read(Lookup(SetPath(t, p, value, full).value, p)) == value
    ensures !Comparable(p, q) ==> Lookup(SetPath(t, p, value, full).value, q) == Lookup(t, q)
    decreases |p|
  {
    hide Convertible, ToItem, ToJson;
    WantedIfSet(t, p, value, full);
    WantedReads(value);
    if |p| > 1 {
      var child := Below(t, p[0]);
      if p[0] == q[0] && |q| > 1 {
        ComparableTail(p, q);
        SetPathLookup(child, p[1..], value, full, q[1..]);
        LookupBelow(t, q);
      } else {
        SetPathLookup(child, p[1..], value, full, p[1..]);
      }
    } else {
      assert p[0] == q[0] ==> Comparable(p, q);
    }
  }

  lemma {:induction false} SetPathTop(t: Tree, p: Path, value: Option<Json>, full: Path, k: string)
    requires t.Table? && p != [] && SetPath(t, p, value, full).Ok? && k != p[0]
    ensures k in SetPath(t, p, value, full).value.fields <==> k in t.fields
  {
  }

  // ----- several edits

  /** The two files. */
  datatype Files = Files(config: Tree, secrets: Tree)

  /** Keys live in the secrets file, and nothing else does. */
  predicate Separate(f: Files) {
    && f.config.Table? && f.secrets.Table?
    && "keys" !in f.config.fields
    && forall k :: k in f.secrets.fields ==> k == "keys"
  }

  function Editing(f: Files, e: Edit): Result<Files, Issue>
    requires f.config.Table? && f.secrets.Table? && e.path != []
  {
    match SetPath(if e.IsSecret() then f.secrets else f.config, e.path, e.value, e.path)
    case Err(issue) => Err(issue)
    case Ok(t) => Ok(if e.IsSecret() then f.(secrets := t) else f.(config := t))
  }

  predicate NonEmpty(edits: seq<Edit>) {
    forall i :: 0 <= i < |edits| ==> edits[i].path != []
  }

  function EditingAll(f: Files, edits: seq<Edit>): (r: Result<Files, Issue>)
    requires f.config.Table? && f.secrets.Table? && NonEmpty(edits)
    ensures r.Ok? ==> r.value.config.Table? && r.value.secrets.Table?
    decreases |edits|
  {
    if edits == [] then Ok(f)
    else
      match EditingAll(f, edits[..|edits| - 1])
      case Err(issue) => Err(issue)
      case Ok(g) => Editing(g, edits[|edits| - 1])
  }

  /** Config first, secrets over it, the environment over both. */
  function Merged(f: Files, env: Tree): Tree {
    Merge(Merge(f.config, f.secrets), env)
  }

  datatype Plan = Plan(files: Files, merged: Tree)

  function LockedIssues(locked: Locked, edits: seq<Edit>): seq<Issue>
    decreases |edits|
  {
    if edits == [] then []
    else
      var last := edits[|edits| - 1];
      LockedIssues(locked, edits[..|edits| - 1]) + if LockedBy(locked, last.path) then [LockedPath(last.path)] else []
  }

  /** `valid` is whether settings can be extracted from the merged tree and pass validation. */
  function Planning(f: Files, vars: Vars, keys: seq<KeyVar>, valid: Tree -> bool, locked: Locked, edits: seq<Edit>)
    : Result<Plan, seq<Issue>>
    requires f.config.Table? && f.secrets.Table?
  {
    if LockedIssues(locked, edits) != [] then Err(LockedIssues(locked, edits))
    else if !NonEmpty(edits) then Err([EmptyPath])
    else
      match EditingAll(f, edits)
      case Err(issue) => Err([issue])
      case Ok(g) =>
        var merged := Merged(g, Layer(Settings(vars, keys)).0);
        if valid(merged) then Ok(Plan(g, merged)) else Err([Rejected])
  }

  method FindLocked(locked: Locked, edits: seq<Edit>) returns (issues: seq<Issue>)
    ensures issues == LockedIssues(locked, edits)
  {
    hide LockedBy;
    issues := [];
    for i := 0 to |edits|
      invariant issues == LockedIssues(locked, edits[..i])
    {
      assert edits[..i + 1][..i] == edits[..i];
      if LockedBy(locked, edits[i].path) {
        issues := issues + [LockedPath(edits[i].path)];
      }
    }
    assert edits[..|edits|] == edits;
  }

  /** Edits the two documents one edit after the other and stops at the first that fails. */
  method EditFiles(f: Files, edits: seq<Edit>) returns (r: Result<Files, Issue>)
    requires f.config.Table? && f.secrets.Table? && NonEmpty(edits)
    ensures r == EditingAll(f, edits)
  {
    hide SetPath;
    var g := f;
    for i := 0 to |edits|
      invariant g.config.Table? && g.secrets.Table? && EditingAll(f, edits[..i]) == Ok(g)
    {
      assert edits[..i + 1][..i] == edits[..i];
      var e := edits[i];
      var changed := SetPath(if e.IsSecret() then g.secrets else g.config, e.path, e.value, e.path);
      if changed.Err? {
        FailsEarly(f, edits, i + 1);
        return Err(changed.error);
      }
      g := if e.IsSecret() then g.(secrets := changed.value) else g.(config := changed.value);
    }
    assert edits[..|edits|] == edits;
    return Ok(g);
  }

  /** `locked` are the paths that the environment set when the current config was loaded. */
  method PlanEdits(f: Files, vars: Vars, keys: seq<KeyVar>, valid: Tree -> bool, locked: Locked, edits: seq<Edit>)
    returns (r: Result<Plan, seq<Issue>>)
    requires f.config.Table? && f.secrets.Table?
    ensures r == Planning(f, vars, keys, valid, locked, edits)
  {
    hide EditingAll, Layer, Settings, LockedIssues;
    var issues := FindLocked(locked, edits);
    if issues != [] {
      return Err(issues);
    }
    if exists i :: 0 <= i < |edits| && edits[i].path == [] {
      return Err([EmptyPath]);
    }
    var edited := EditFiles(f, edits);
    if edited.Err? {
      return Err([edited.error]);
    }
    var env, _ := EnvLayer(vars, keys);
    var merged := Merge(Merge(edited.value.config, edited.value.secrets), env);
    if !valid(merged) {
      return Err([Rejected]);
    }
    return Ok(Plan(edited.value, merged));
  }

  lemma {:induction false} FailsEarly(f: Files, edits: seq<Edit>, n: nat)
    requires f.config.Table? && f.secrets.Table? && NonEmpty(edits) && n <= |edits|
    requires EditingAll(f, edits[..n]).Err?
    ensures EditingAll(f, edits) == EditingAll(f, edits[..n])
    decreases |edits|
  {
    if n < |edits| {
      assert edits[..|edits| - 1][..n] == edits[..n];
      FailsEarly(f, edits[..|edits| - 1], n);
    } else {
      assert edits[..n] == edits;
    }
  }

  // ----- accepted edits take effect

  /** What the two files hold together. */
  function Held(f: Files, q: Path): Option<Tree> {
    if q != [] && q[0] == "keys" then Lookup(f.secrets, q) else Lookup(f.config, q)
  }

  lemma MergedFiles(f: Files, q: Path)
    requires Separate(f) && q != []
    ensures Lookup(Merge(f.config, f.secrets), q) == Held(f, q)
  {
    if q[0] == "keys" {
      assert Merge(f.config, f.secrets).fields.Keys == f.config.fields.Keys + f.secrets.fields.Keys;
    } else {
      assert Clear(f.secrets, q);
      MergeKeeps(f.config, f.secrets, q);
    }
  }

  lemma EditingHeld(f: Files, e: Edit, q: Path)
    requires Separate(f) && e.path != [] && q != [] && Editing(f, e).Ok?
    ensures Separate(Editing(f, e).value)
    ensures e.value.Some? ==> Convertible(e.value.value)
    ensures Held(Editing(f, e).value, e.path) == Wanted(e.value)
    ensures !Comparable(e.path, q) ==> Held(Editing(f, e).value, q) == Held(f, q)
  {
    hide Lookup, Convertible, ToItem, SetPath;
    var t := if e.IsSecret() then f.secrets else f.config;
    SetPathLookup(t, e.path, e.value, e.path, q);
    forall k | k != e.path[0]
      ensures k in SetPath(t, e.path, e.value, e.path).value.fields <==> k in t.fields
    {
      SetPathTop(t, e.path, e.value, e.path, k);
    }
  }

  /** No path is a prefix of another. */
  predicate Independent(edits: seq<Edit>) {
    forall i, j :: 0 <= i < j < |edits| ==> !Comparable(edits[i].path, edits[j].path)
  }

  predicate Untouched(edits: seq<Edit>, q: Path) {
    forall i :: 0 <= i < |edits| ==> !Comparable(edits[i].path, q)
  }

  lemma {:induction false} EditingAllHeld(f: Files, edits: seq<Edit>, i: nat, q: Path)
    requires Separate(f) && NonEmpty(edits) && Independent(edits) && q != [] && EditingAll(f, edits).Ok?
    ensures Separate(EditingAll(f, edits).value)
    ensures i < |edits| ==> (edits[i].value.Some? ==> Convertible(edits[i].value.value))
                            && Held(EditingAll(f, edits).value, edits[i].path) == Wanted(edits[i].value)
    ensures Untouched(edits, q) ==> Held(EditingAll(f, edits).value, q) == Held(f, q)
    decreases |edits|
  {
    hide Held, Convertible, ToItem, Editing, Comparable;
    if edits != [] {
      var front, last := edits[..|edits| - 1], edits[|edits| - 1];
      assert Independent(front) && NonEmpty(front);
      EditingAllHeld(f, front, i, q);
      var g := EditingAll(f, front).value;
      EditingHeld(g, last, q);
      if i < |front| {
        assert !Comparable(edits[i].path, last.path);
        ComparableSymmetric(edits[i].path, last.path);
        EditingHeld(g, last, edits[i].path);
      }
    }
  }

  lemma ComparableSymmetric(p: Path, q: Path)
    ensures Comparable(p, q) <==> Comparable(q, p)
  {
  }

  lemma {:induction false} NothingLocked(locked: Locked, edits: seq<Edit>)
    requires LockedIssues(locked, edits) == []
    ensures forall i :: 0 <= i < |edits| ==> !LockedBy(locked, edits[i].path)
    decreases |edits|
  {
    hide LockedBy;
    if edits != [] {
      NothingLocked(locked, edits[..|edits| - 1]);
      forall i | 0 <= i < |edits|
        ensures !LockedBy(locked, edits[i].path)
      {
        if i < |edits| - 1 {
          assert edits[..|edits| - 1][i] == edits[i];
        }
      }
    }
  }

  /**
   * Accepted edits take effect. If a plan accepts edits of which none is above another, the effective configuration then
   * has exactly the wanted value at each edited path, nothing where one was removed, and is unchanged at every path that
   * is incomparable to all of them. And the files keep to their division, so this holds again for the next edits.
   */
  lemma EditsTakeEffect(f: Files, vars: Vars, keys: seq<KeyVar>, valid: Tree -> bool, edits: seq<Edit>, i: nat, q: Path)
    requires Separate(f) && Independent(edits) && q != []
    requires Planning(f, vars, keys, valid, Layer(Settings(vars, keys)).1, edits).Ok?
    ensures var plan := Planning(f, vars, keys, valid, Layer(Settings(vars, keys)).1, edits).value;
            && Separate(plan.files)
            && (i < |edits| ==> Read(Lookup(plan.merged, edits[i].path)) == edits[i].value)
            && (Untouched(edits, q) ==> Lookup(plan.merged, q) == Lookup(Merged(f, Layer(Settings(vars, keys)).0), q))
  {
    hide Layer, Settings, EditingAll, Held, Convertible, ToItem, ToJson, Lookup, Merge, Comparable;
    var (env, locked) := Layer(Settings(vars, keys));
    LayerCovered(Settings(vars, keys));
    NothingLocked(locked, edits);
    var g := EditingAll(f, edits).value;
    EditingAllHeld(f, edits, i, q);
    MergedFiles(f, q);
    MergedFiles(g, q);
    TablesMerge(f);
    TablesMerge(g);
    if i < |edits| {
      var p := edits[i].path;
      UnlockedIsClear(env, locked, p);
      MergeKeeps(Merge(g.config, g.secrets), env, p);
      MergedFiles(g, p);
      WantedReads(edits[i].value);
    }
    if Untouched(edits, q) {
      MergeSame(Merge(g.config, g.secrets), Merge(f.config, f.secrets), env, q);
    }
  }

  lemma TablesMerge(f: Files)
    requires Separate(f)
    ensures Merge(f.config, f.secrets).Table?
  {
  }

  /** An edit at, above or below a path that the environment sets is always refused. */
  lemma LockedIsRefused(f: Files, vars: Vars, keys: seq<KeyVar>, valid: Tree -> bool, locked: Locked, edits: seq<Edit>, i: nat)
    requires f.config.Table? && f.secrets.Table?
    requires i < |edits| && LockedBy(locked, edits[i].path)
    ensures Planning(f, vars, keys, valid, locked, edits).Err?
    ensures LockedPath(edits[i].path) in Planning(f, vars, keys, valid, locked, edits).error
  {
    LockedIsListed(locked, edits, i);
  }

  lemma {:induction false} LockedIsListed(locked: Locked, edits: seq<Edit>, i: nat)
    requires i < |edits| && LockedBy(locked, edits[i].path)
    ensures LockedPath(edits[i].path) in LockedIssues(locked, edits)
    decreases |edits|
  {
    hide LockedBy;
    if i < |edits| - 1 {
      LockedIsListed(locked, edits[..|edits| - 1], i);
    }
  }

  // ----- exactly which edits are accepted

  /** A value that is no table stands at a proper prefix of the path. */
  lemma {:induction false} ObstructedMeans(t: Tree, p: Path)
    requires t.Table?
    ensures Obstructed(t, p) <==>
            exists n: nat :: 0 < n < |p| && Lookup(t, p[..n]).Some? && !Lookup(t, p[..n]).value.Table?
    decreases |p|
  {
    if |p| > 1 && p[0] in t.fields {
      var below := t.fields[p[0]];
      assert p[..1] == [p[0]] && Lookup(t, p[..1]) == Some(below);
      if below.Table? {
        ObstructedMeans(below, p[1..]);
        forall n: nat | 0 < n < |p|
          ensures Lookup(t, p[..n]) == Lookup(below, p[..n][1..])
          ensures n > 1 ==> p[..n][1..] == p[1..][..n - 1]
        {
        }
        if Obstructed(below, p[1..]) {
          var n: nat :| 0 < n < |p[1..]| && Lookup(below, p[1..][..n]).Some? && !Lookup(below, p[1..][..n]).value.Table?;
          assert p[..n + 1][1..] == p[1..][..n];
        }
      }
    } else if |p| > 1 {
      forall n: nat | 0 < n < |p|
        ensures Lookup(t, p[..n]).None?
      {
        assert p[..n][0] == p[0];
      }
    }
  }

  /** An edit turns nothing above an independent path into a value, nor a value there into a table. */
  lemma {:induction false} SetPathAbove(t: Tree, p: Path, value: Option<Json>, full: Path, q: Path)
    requires t.Table? && p != [] && q != [] && q <= p && q != p && SetPath(t, p, value, full).Ok?
    ensures Lookup(SetPath(t, p, value, full).value, q).Some? && Lookup(SetPath(t, p, value, full).value, q).value.Table?
    ensures Lookup(t, q).Some? ==> Lookup(t, q).value.Table?
    decreases |p|
  {
    hide Convertible, ToItem;
    var child := if p[0] in t.fields then t.fields[p[0]] else EMPTY;
    assert q[0] == p[0];
    if |q| > 1 {
      SetPathAbove(child, p[1..], value, full, q[1..]);
    }
  }

  lemma SetPathObstructs(t: Tree, p: Path, value: Option<Json>, full: Path, q: Path)
    requires t.Table? && p != [] && q != [] && SetPath(t, p, value, full).Ok? && !Comparable(p, q)
    ensures Obstructed(SetPath(t, p, value, full).value, q) <==> Obstructed(t, q)
  {
    hide Lookup, SetPath, Obstructed;
    var t' := SetPath(t, p, value, full).value;
    ObstructedMeans(t, q);
    ObstructedMeans(t', q);
    forall n: nat | 0 < n < |q|
      ensures (Lookup(t, q[..n]).Some? && !Lookup(t, q[..n]).value.Table?) <==>
              (Lookup(t', q[..n]).Some? && !Lookup(t', q[..n]).value.Table?)
    {
      ComparableIsPrefix(p, q);
      ComparableIsPrefix(p, q[..n]);
      if Comparable(p, q[..n]) {
        assert q[..n] <= p && q[..n] != p by { NotAbove(p, q, n); }
        SetPathAbove(t, p, value, full, q[..n]);
      } else {
        SetPathLookup(t, p, value, full, q[..n]);
      }
    }
  }

  lemma NotAbove(p: Path, q: Path, n: nat)
    requires n < |q| && !Comparable(p, q) && Comparable(p, q[..n])
    ensures q[..n] <= p && q[..n] != p
  {
    ComparableIsPrefix(p, q);
    ComparableIsPrefix(p, q[..n]);
  }

  /** The file an edit goes to. */
  function FileOf(f: Files, e: Edit): Tree {
    if e.IsSecret() then f.secrets else f.config
  }

  /** One edit on its own can be made in these files. */
  predicate CanBeMade(f: Files, e: Edit)
    requires f.config.Table? && f.secrets.Table?
  {
    !Obstructed(FileOf(f, e), e.path) && (e.value.Some? ==> Convertible(e.value.value))
  }

  lemma EditingKeeps(f: Files, e: Edit, other: Edit)
    requires f.config.Table? && f.secrets.Table? && e.path != [] && other.path != [] && Editing(f, e).Ok?
    requires !Comparable(e.path, other.path)
    ensures CanBeMade(Editing(f, e).value, other) <==> CanBeMade(f, other)
  {
    hide SetPath, Obstructed, Convertible;
    if e.IsSecret() == other.IsSecret() {
      SetPathObstructs(FileOf(f, e), e.path, e.value, e.path, other.path);
    }
  }

  /** Independent edits can all be made exactly if each of them can be made in the files as they are. */
  lemma {:induction false} EditsCanBeMade(f: Files, edits: seq<Edit>, q: Edit)
    requires f.config.Table? && f.secrets.Table? && NonEmpty(edits) && Independent(edits)
    ensures EditingAll(f, edits).Ok? <==> forall i :: 0 <= i < |edits| ==> CanBeMade(f, edits[i])
    ensures EditingAll(f, edits).Ok? && q.path != [] && Untouched(edits, q.path) ==>
              (CanBeMade(EditingAll(f, edits).value, q) <==> CanBeMade(f, q))
    decreases |edits|
  {
    hide SetPath, Obstructed, Convertible, Comparable, CanBeMade, Editing;
    if edits != [] {
      var front, last := edits[..|edits| - 1], edits[|edits| - 1];
      assert Independent(front) && NonEmpty(front);
      forall i | 0 <= i < |front|
        ensures !Comparable(front[i].path, last.path)
      {
        assert front[i] == edits[i];
      }
      EditsCanBeMade(f, front, last);
      EditsCanBeMade(f, front, q);
      assert forall i :: 0 <= i < |front| ==> front[i] == edits[i];
      if EditingAll(f, front).Ok? {
        var g := EditingAll(f, front).value;
        EditingFails(g, last);
        if Editing(g, last).Ok? && q.path != [] && Untouched(edits, q.path) {
          EditingKeeps(g, last, q);
        }
      }
    }
  }

  lemma EditingFails(f: Files, e: Edit)
    requires f.config.Table? && f.secrets.Table? && e.path != []
    ensures Editing(f, e).Ok? <==> CanBeMade(f, e)
  {
    hide SetPath, Obstructed, Convertible;
    SetPathFails(FileOf(f, e), e.path, e.value, e.path);
  }

  /**
   * Exactly which edits are accepted. Edits of which none is above another are accepted if and only if no path is locked and
   * none is empty, no value stands in the way of any of them, TOML can hold every value, and the merged result is valid.
   */
  lemma AcceptedIff(f: Files, vars: Vars, keys: seq<KeyVar>, valid: Tree -> bool, locked: Locked, edits: seq<Edit>)
    requires f.config.Table? && f.secrets.Table? && Independent(edits)
    ensures Planning(f, vars, keys, valid, locked, edits).Ok? <==>
            && (forall i :: 0 <= i < |edits| ==> !LockedBy(locked, edits[i].path) && edits[i].path != [])
            && (forall i :: 0 <= i < |edits| ==> CanBeMade(f, edits[i]))
            && NonEmpty(edits) && EditingAll(f, edits).Ok?
            && valid(Merged(EditingAll(f, edits).value, Layer(Settings(vars, keys)).0))
  {
    hide EditingAll, Layer, Settings, Merged, LockedBy, CanBeMade, LockedIssues, Independent;
    if NonEmpty(edits) {
      EditsCanBeMade(f, edits, Edit([], None));
    }
    if LockedIssues(locked, edits) == [] {
      NothingLocked(locked, edits);
    }
    forall i: nat | i < |edits| && LockedBy(locked, edits[i].path)
      ensures LockedIssues(locked, edits) != []
    {
      LockedIsListed(locked, edits, i);
    }
    if forall i :: 0 <= i < |edits| ==> !LockedBy(locked, edits[i].path) {
      NobodyLocked(locked, edits);
    }
  }

  lemma {:induction false} NobodyLocked(locked: Locked, edits: seq<Edit>)
    requires forall i :: 0 <= i < |edits| ==> !LockedBy(locked, edits[i].path)
    ensures LockedIssues(locked, edits) == []
    decreases |edits|
  {
    hide LockedBy;
    if edits != [] {
      NobodyLocked(locked, edits[..|edits| - 1]);
    }
  }

  /** A path that is obstructed is named as such before its value is looked at. */
  lemma {:induction false} SetPathIssue(t: Tree, p: Path, value: Option<Json>, full: Path)
    requires t.Table? && p != [] && SetPath(t, p, value, full).Err?
    ensures SetPath(t, p, value, full).error == if Obstructed(t, p) then NotATable(full) else NotToml(full)
    decreases |p|
  {
    hide Convertible;
    if |p| > 1 {
      var child := if p[0] in t.fields then t.fields[p[0]] else EMPTY;
      if child.Table? {
        SetPathIssue(child, p[1..], value, full);
        NotObstructed(p[1..]);
      }
    }
  }

  /** The issues of a locked plan name exactly the locked paths among the edits. */
  lemma {:induction false} LockedIssuesMean(locked: Locked, edits: seq<Edit>, issue: Issue)
    ensures issue in LockedIssues(locked, edits) <==>
            exists i :: 0 <= i < |edits| && LockedBy(locked, edits[i].path) && issue == LockedPath(edits[i].path)
    decreases |edits|
  {
    hide LockedBy;
    if edits != [] {
      var front, last := edits[..|edits| - 1], edits[|edits| - 1];
      LockedIssuesMean(locked, front, issue);
      if LockedBy(locked, last.path) && issue == LockedPath(last.path) {
        assert edits[|edits| - 1] == last;
      }
      if issue in LockedIssues(locked, front) {
        var i :| 0 <= i < |front| && LockedBy(locked, front[i].path) && issue == LockedPath(front[i].path);
        assert edits[i] == front[i];
      }
      if exists i :: 0 <= i < |edits| && LockedBy(locked, edits[i].path) && issue == LockedPath(edits[i].path) {
        var i :| 0 <= i < |edits| && LockedBy(locked, edits[i].path) && issue == LockedPath(edits[i].path);
        assert i < |front| ==> front[i] == edits[i];
      }
    }
  }

  /** In which order a plan is refused: for locked paths, then for an empty one, then for an edit, and last for the result. */
  lemma RefusedFor(f: Files, vars: Vars, keys: seq<KeyVar>, valid: Tree -> bool, locked: Locked, edits: seq<Edit>)
    requires f.config.Table? && f.secrets.Table? && Planning(f, vars, keys, valid, locked, edits).Err?
    ensures var issues := Planning(f, vars, keys, valid, locked, edits).error;
            if exists i :: 0 <= i < |edits| && LockedBy(locked, edits[i].path) then
              forall issue :: issue in issues <==>
                exists i :: 0 <= i < |edits| && LockedBy(locked, edits[i].path) && issue == LockedPath(edits[i].path)
            else if exists i :: 0 <= i < |edits| && edits[i].path == [] then issues == [EmptyPath]
            else if EditingAll(f, edits).Err? then issues == [EditingAll(f, edits).error]
            else issues == [Rejected]
  {
    hide EditingAll, Layer, Settings, Merged, LockedBy, LockedIssues;
    forall issue
      ensures issue in LockedIssues(locked, edits) <==>
              exists i :: 0 <= i < |edits| && LockedBy(locked, edits[i].path) && issue == LockedPath(edits[i].path)
    {
      LockedIssuesMean(locked, edits, issue);
    }
    if exists i :: 0 <= i < |edits| && LockedBy(locked, edits[i].path) {
      var i: nat :| i < |edits| && LockedBy(locked, edits[i].path);
      LockedIsListed(locked, edits, i);
    } else {
      NobodyLocked(locked, edits);
    }
  }

  // ----- which values TOML can hold

  /** Nothing but truth values, texts, signed 64-bit integers, arrays and tables, at every depth. */
  predicate IsPlain(t: Tree) {
    match t
    case Bool(_) => true
    case Int(n) => -9_223_372_036_854_775_808 <= n <= 9_223_372_036_854_775_807
    case Str(_) => true
    case Scalar(_) => false
    case Arr(items) => forall i :: 0 <= i < |items| ==> IsPlain(items[i])
    case Table(fields) => forall k :: k in fields ==> IsPlain(fields[k])
  }

  lemma {:induction false} ItemIsPlain(v: Json)
    requires Convertible(v)
    ensures IsPlain(ToItem(v))
    decreases v
  {
    match v {
      case Arr(items) =>
        forall i | 0 <= i < |items|
          ensures IsPlain(ToItem(items[i]))
        {
          ItemIsPlain(items[i]);
        }
      case Obj(fields) =>
        forall k | k in fields
          ensures IsPlain(ToItem(fields[k]))
        {
          ItemIsPlain(fields[k]);
        }
      case _ =>
    }
  }

  lemma {:induction false} PlainIsConvertible(t: Tree)
    requires IsPlain(t)
    ensures Convertible(ToJson(t))
    decreases t
  {
    match t {
      case Arr(items) =>
        forall i | 0 <= i < |items|
          ensures Convertible(ToJson(items[i]))
        {
          PlainIsConvertible(items[i]);
        }
      case Table(fields) =>
        forall k | k in fields
          ensures Convertible(ToJson(fields[k]))
        {
          PlainIsConvertible(fields[k]);
        }
      case _ =>
    }
  }

  /** A value can be set exactly if some such tree reads as it; so neither nulls nor other numbers can, however deep inside. */
  lemma ConvertibleMeans(v: Json)
    ensures Convertible(v) <==> exists t :: IsPlain(t) && ToJson(t) == v
  {
    hide Convertible, ToJson, ToItem, IsPlain;
    if Convertible(v) {
      ItemIsPlain(v);
      ReadsBack(v);
    }
    forall t | IsPlain(t) && ToJson(t) == v
      ensures Convertible(v)
    {
      PlainIsConvertible(t);
    }
  }
}
