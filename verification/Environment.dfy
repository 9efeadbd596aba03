/** What environment variables mean for the configuration: how they are spelled, which of them count, and that they win. */
module Environment {
  import opened Configs
  import opened Decimal
  import opened Edits
  import opened Text
  import opened Wrappers

  // ----- values

  /** A value is read as a truth value or a 64-bit number where its trimmed text is one, and as that text otherwise. */
  lemma TypedMeans(raw: string)
    ensures forall b :: Typed(raw) == Bool(b) <==> Trim(raw) == if b then "true" else "false"
    ensures forall n: nat :: Typed(raw) == Int(n) <==>
              exists digits: string :: IsNumber(digits, n) && (Trim(raw) == digits || Trim(raw) == "+" + digits)
    ensures Typed(raw).Bool? || Typed(raw).Int? || Typed(raw) == Str(Trim(raw))
  {
    hide Trim, Value;
    var t := Trim(raw);
    assert "true"[0] == 't' && "false"[0] == 'f';
    var digits := if t != "" && t[0] == '+' then t[1..] else t;
    assert t != "" && t[0] == '+' ==> t == "+" + digits;
    forall n: nat, d: string | IsNumber(d, n) && (t == d || t == "+" + d)
      ensures d == digits
    {
      assert IsDigit(d[0]);
    }
    if ParseU64(t).Some? {
      assert IsNumber(digits, ParseU64(t).value);
    }
  }

  predicate IsNumber(digits: string, n: nat) {
    digits != "" && AllDigits(digits) && Value(digits) == n && n <= 0xFFFF_FFFF_FFFF_FFFF
  }

  predicate DistinctNames(vars: Vars) {
    forall i, j :: 0 <= i < j < |vars| ==> vars[i].0 != vars[j].0
  }

  /** A variable has a value exactly if it is set to more than blanks, and then it is the text as it stands. */
  lemma {:induction false} GetVarMeans(vars: Vars, name: string, v: string)
    requires DistinctNames(vars)
    ensures GetVar(vars, name) == Some(v) <==> (name, v) in vars && Trim(v) != ""
    decreases |vars|
  {
    hide Trim;
    if vars != [] {
      GetVarMeans(vars[1..], name, v);
      assert vars == [vars[0]] + vars[1..];
      if vars[0].0 == name {
        forall w | (name, w) in vars
          ensures w == vars[0].1
        {
          var i :| 0 <= i < |vars| && vars[i] == (name, w);
          assert i == 0;
        }
      }
    }
  }

  // ----- paths

  function UpperChar(c: char): char {
    if 'a' <= c <= 'z' then c - 'a' + 'A' else c
  }

  function Upper(s: string): string {
    seq(|s|, i requires 0 <= i < |s| => UpperChar(s[i]))
  }

  /** The name, without its prefix, of the variable that sets a path. */
  function NameOf(p: Path): string
    requires p != []
    decreases |p|
  {
    if |p| == 1 then Upper(p[0]) else Upper(p[0]) + "__" + NameOf(p[1..])
  }

  /** A segment that a variable name can carry: lower-case, without a double underscore, and not ending in an underscore. */
  predicate Nameable(s: string) {
    && s != ""
    && (forall i :: 0 <= i < |s| ==> !('A' <= s[i] <= 'Z'))
    && (forall i :: 0 <= i < |s| - 1 ==> !(s[i] == '_' && s[i + 1] == '_'))
    && s[|s| - 1] != '_'
  }

  lemma LowerUpper(s: string)
    requires forall i :: 0 <= i < |s| ==> !('A' <= s[i] <= 'Z')
    ensures Lower(Upper(s)) == s
  {
  }

  /** No separator in front of `stop`: the search goes on there. */
  lemma {:induction false} SegmentsSkip(s: string, start: nat, stop: nat)
    requires start <= stop < |s| - 1
    requires forall i :: start <= i < stop ==> !(s[i] == '_' && s[i + 1] == '_')
    ensures Segments(s, start) == Segments(s, stop)
    decreases stop - start
  {
    if start < stop {
      SegmentsSkip(s, start + 1, stop);
    }
  }

  lemma {:induction false} SegmentsPlain(s: string, start: nat)
    requires start <= |s|
    requires forall i :: start <= i < |s| - 1 ==> !(s[i] == '_' && s[i + 1] == '_')
    ensures Segments(s, start) == [Lower(s)]
    decreases |s| - start
  {
    if start + 2 <= |s| {
      SegmentsPlain(s, start + 1);
    }
  }

  /** The variable that is named after a path sets that path. */
  lemma {:induction false} NameSetsPath(p: Path)
    requires p != [] && forall i :: 0 <= i < |p| ==> Nameable(p[i])
    ensures Segments(NameOf(p), 0) == p
    decreases |p|
  {
    var s, first := NameOf(p), Upper(p[0]);
    LowerUpper(p[0]);
    if |p| == 1 {
      SegmentsPlain(s, 0);
      assert p == [p[0]];
    } else {
      var rest := NameOf(p[1..]);
      NameSetsPath(p[1..]);
      assert s == first + "__" + rest;
      forall i | 0 <= i < |first|
        ensures !(s[i] == '_' && s[i + 1] == '_')
      {
        assert s[i] == first[i];
        if i == |first| - 1 {
          assert first[i] != '_';
        } else {
          assert s[i + 1] == first[i + 1];
        }
      }
      SegmentsSkip(s, 0, |first|);
      assert s[|first|] == '_' && s[|first| + 1] == '_';
      assert s[..|first|] == first && s[|first| + 2..] == rest;
      assert p == [p[0]] + p[1..];
    }
  }

  // ----- which settings there are

  /** A variable with the prefix whose segments are all there. */
  ghost predicate SetBy(s: Setting, vars: Vars, prefix: string) {
    exists raw :: (s.variable, raw) in vars && prefix <= s.variable && s.path == Segments(s.variable[|prefix|..], 0)
                  && "" !in s.path && s.value == Typed(raw)
  }

  ghost predicate SetByKey(s: Setting, vars: Vars, keys: seq<KeyVar>) {
    exists k, v :: k in keys && GetVar(vars, k.variable) == Some(v)
                   && s == Setting(["keys", k.vendor, k.field], Str(v), k.variable)
  }

  ghost predicate SetByUrl(s: Setting, vars: Vars) {
    exists url :: GetVar(vars, "RPC_URL") == Some(url)
                  && s == Setting(["custom_rpc", "rpc_url"], Table(map["chain" := Str("eip155:1"), "url" := Str(url)]), "RPC_URL")
  }

  lemma {:induction false} PrefixedMeans(vars: Vars, prefix: string, s: Setting)
    ensures s in Prefixed(vars, prefix) <==> SetBy(s, vars, prefix)
    decreases |vars|
  {
    hide Segments, Typed;
    if vars != [] {
      var front, last := vars[..|vars| - 1], vars[|vars| - 1];
      PrefixedMeans(front, prefix, s);
      assert vars == front + [last];
      if SetBy(s, vars, prefix) && !SetBy(s, front, prefix) {
        assert s.variable == last.0;
        assert SettingOf(last, prefix) == Some(s);
      }
      if SetBy(s, front, prefix) {
        var raw :| (s.variable, raw) in front && prefix <= s.variable && s.path == Segments(s.variable[|prefix|..], 0)
                   && "" !in s.path && s.value == Typed(raw);
        assert (s.variable, raw) in vars;
      }
      if SettingOf(last, prefix) == Some(s) {
        assert (s.variable, last.1) == last && last in vars;
      }
    }
  }

  lemma {:induction false} KeysMean(vars: Vars, keys: seq<KeyVar>, s: Setting)
    ensures s in Keys(vars, keys) <==> SetByKey(s, vars, keys)
    decreases |keys|
  {
    hide GetVar;
    if keys != [] {
      var front, last := keys[..|keys| - 1], keys[|keys| - 1];
      KeysMean(vars, front, s);
      assert keys == front + [last];
      if SetByKey(s, vars, front) {
        var k, v :| k in front && GetVar(vars, k.variable) == Some(v)
                    && s == Setting(["keys", k.vendor, k.field], Str(v), k.variable);
        assert k in keys;
      }
      if SetByKey(s, vars, keys) {
        var k, v :| k in keys && GetVar(vars, k.variable) == Some(v)
                    && s == Setting(["keys", k.vendor, k.field], Str(v), k.variable);
        assert k in front || k == last;
      }
      if GetVar(vars, last.variable).Some? {
        assert last in keys;
      }
    }
  }

  /**
   * The environment sets exactly this: each well-formed variable under the legacy or the new prefix its own path, each key
   * variable with a value its vendor's key field, and a value of `RPC_URL` the Ethereum endpoint.
   */
  lemma SettingsMean(vars: Vars, keys: seq<KeyVar>, s: Setting)
    ensures s in Settings(vars, keys) <==>
            SetBy(s, vars, "BDM__") || SetBy(s, vars, "ODM__") || SetByKey(s, vars, keys) || SetByUrl(s, vars)
  {
    hide GetVar, SetBy, SetByKey, Prefixed, Keys;
    PrefixedMeans(vars, "BDM__", s);
    PrefixedMeans(vars, "ODM__", s);
    KeysMean(vars, keys, s);
    assert s in RpcUrl(vars) <==> SetByUrl(s, vars);
  }

  /** Where only the legacy prefix and one variable of the new one speak of a path, the new one is what the layer holds. */
  lemma NewPrefixWins(vars: Vars, keys: seq<KeyVar>, s: Setting)
    requires SetBy(s, vars, "ODM__")
    requires forall t :: t != s && (SetBy(t, vars, "ODM__") || SetByKey(t, vars, keys) || SetByUrl(t, vars)) ==> !Comparable(t.path, s.path)
    ensures Lookup(Layer(Settings(vars, keys)).0, s.path) == Some(s.value)
  {
    hide GetVar, SetBy, SetByKey, SetByUrl, Prefixed, Keys, RpcUrl, Comparable, Lookup, Layer;
    var settings := Settings(vars, keys);
    var early, late := Prefixed(vars, "BDM__"), Prefixed(vars, "ODM__") + Keys(vars, keys) + RpcUrl(vars);
    assert settings == early + late;
    PrefixedMeans(vars, "ODM__", s);
    var i := LastIndex(late, s);
    forall j | |early| + i < j < |settings|
      ensures !Comparable(settings[j].path, s.path)
    {
      var t := late[j - |early|];
      assert settings[j] == t && t != s;
      PrefixedMeans(vars, "ODM__", t);
      KeysMean(vars, keys, t);
      UrlMeans(vars, t);
    }
    assert settings[|early| + i] == s;
    LastSettingWins(settings, |early| + i);
  }

  lemma UrlMeans(vars: Vars, s: Setting)
    ensures s in RpcUrl(vars) <==> SetByUrl(s, vars)
  {
    hide GetVar;
  }

  lemma {:induction false} LastIndex(settings: seq<Setting>, s: Setting) returns (i: nat)
    requires s in settings
    ensures i < |settings| && settings[i] == s && forall j :: i < j < |settings| ==> settings[j] != s
    decreases |settings|
  {
    var front := settings[..|settings| - 1];
    if settings[|settings| - 1] == s {
      i := |settings| - 1;
    } else {
      assert settings == front + [settings[|settings| - 1]];
      i := LastIndex(front, s);
    }
  }

  // ----- the environment wins

  /** A later layer's own values are what a merge holds: whatever is earlier gives way, tables and values alike. */
  lemma {:induction false} LaterWins(a: Tree, b: Tree, q: Path)
    requires a.Table? && b.Table? && q != [] && Lookup(b, q).Some? && !Lookup(b, q).value.Table?
    ensures Lookup(Merge(a, b), q) == Lookup(b, q)
    decreases |q|
  {
    var k := q[0];
    if |q| >= 2 {
      assert b.fields[k].Table?;
      LookupBelow(b, q);
      MergeBelow(a, b, q);
      LaterWins(Below(a, k), b.fields[k], q[1..]);
    }
  }

  /** Whatever the files hold, the configuration in force has the environment's value at every path it sets last. */
  lemma EnvironmentWins(f: Files, settings: seq<Setting>, i: nat)
    requires Separate(f)
    requires forall j :: 0 <= j < |settings| ==> settings[j].path != []
    requires i < |settings| && forall j :: i < j < |settings| ==> !Comparable(settings[j].path, settings[i].path)
    requires !settings[i].value.Table?
    ensures Lookup(Merged(f, Layer(settings).0), settings[i].path) == Some(settings[i].value)
  {
    hide Layer, Lookup, Merge;
    LastSettingWins(settings, i);
    TablesMerge(f);
    LaterWins(Merge(f.config, f.secrets), Layer(settings).0, settings[i].path);
  }

  // ----- which paths are locked

  /** Exactly the paths that some setting speaks of are locked. */
  lemma {:induction false} LockedMeans(settings: seq<Setting>, p: Path)
    requires forall j :: 0 <= j < |settings| ==> settings[j].path != []
    ensures p in Layer(settings).1 <==> exists s :: s in settings && s.path == p
    decreases |settings|
  {
    hide InsertAt;
    if settings != [] {
      var front, last := settings[..|settings| - 1], settings[|settings| - 1];
      LockedMeans(front, p);
      assert settings == front + [last];
      assert forall s :: s in settings <==> s in front || s == last;
    }
  }
}
