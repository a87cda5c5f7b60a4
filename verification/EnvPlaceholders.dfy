/**
 The defaults of ipalib/constants.py hold placeholders of a refused type for the variables that the earlier stages set:
 when ipalib/config.py reaches one, and when it never does.
 */
module EnvPlaceholders {
  import opened Common
  import opened EnvValue
  import opened EnvRun
  import opened EnvLaws
  import opened EnvTables

  /** An item that merging takes: its name is set already, or the name and the value are allowed. */
  predicate Passes(d: Vars, item: Item) { item.0 in d || (NameOk(item.0) && !item.1.Object?) }

  ghost predicate AllPass(d: Vars, items: seq<Item>, n: nat)
    requires n <= |items|
  {
    forall i :: 0 <= i < n ==> Passes(d, items[i])
  }

  ghost predicate DistinctKeys(items: seq<Item>) {
    forall i, j :: 0 <= i < j < |items| ==> items[i].0 != items[j].0
  }

  /** The first item that does not pass has an allowed name, so that its value is what is refused. */
  ghost predicate Refused(d: Vars, items: seq<Item>, n: nat)
    requires n <= |items|
  {
    exists i :: 0 <= i < n && !Passes(d, items[i]) && NameOk(items[i].0) && AllPass(d, items, i)
  }

  lemma {:induction false} MergedKeys(r: Run, items: seq<Item>, n: nat, key: string)
    requires n <= |items| && forall i :: 0 <= i < n ==> items[i].0 != key
    ensures key in ProposeAll(r, items, n).d <==> key in r.d
  {
    if n > 0 {
      MergedKeys(r, items, n - 1, key);
    }
  }

  /** Merging goes through exactly if every item passes, and raises for a value exactly if one is refused. */
  lemma {:induction false} MergeIff(r: Run, items: seq<Item>, n: nat)
    requires n <= |items| && DistinctKeys(items) && r.e.None? && !r.locked
    ensures var s := ProposeAll(r, items, n);
      && (s.e.None? <==> AllPass(r.d, items, n))
      && (Bad(s.e) <==> Refused(r.d, items, n))
      && !s.locked
  {
    if n > 0 {
      var s, item := ProposeAll(r, items, n - 1), items[n - 1];
      MergeIff(r, items, n - 1);
      MergedKeys(r, items, n - 1, item.0);
      if s.e.None? && Bad(Propose(s, item.0, item.1).e) {
        assert !Passes(r.d, items[n - 1]) && NameOk(items[n - 1].0) && AllPass(r.d, items, n - 1);
      }
    }
  }

  // ---------- _finalize_core ----------

  /** `_finalize_core` raises for a value exactly if it gets as far as the defaults and one of them is refused. */
  lemma {:induction false} CoreRefusesIff(a: Around, r: Run)
    requires Clean(r.d) && r.e.None? && !r.locked && DistinctKeys(a.defaults)
    ensures Bad(CoreRun(a, r).e) <==> BeforeRun(a, r).e.None? && Refused(BeforeRun(a, r).d, a.defaults, |a.defaults|)
  {
    var before := BeforeRun(a, r);
    BeforeStage(a, r);
    var merged := ProposeAll(before, a.defaults, |a.defaults|);
    if before.e.None? {
      MergeIff(before, a.defaults, |a.defaults|);
    }
    ItemsStage(before, a.defaults, |a.defaults|);
    TlsStage(a, merged);
  }

  lemma {:induction false} ExecNames(a: Around, table: seq<Instr>, n: nat, r: Run)
    requires n <= |table|
    ensures Exec(a, table, n, r).d.Keys <= r.d.Keys + NamesOf(table, n)
  {
    if n > 0 {
      ExecNames(a, table, n - 1, r);
    }
  }

  lemma {:induction false} ForceNames(a: Around, r: Run)
    ensures ForceRun(a, r).d.Keys <= r.d.Keys + URI_NAMES
  {
    ExecNames(a, FORCED_TABLE, |FORCED_TABLE|, r);
    assert NamesOf(FORCED_TABLE, 1) == {"server"};
    ExecNames(a, URI_TABLE, |URI_TABLE|, ExecAll(a, FORCED_TABLE, r));
    UriNaming();
  }

  const DERIVED_NAMES := CORE_KEYS + DOMAIN_NAMES + URI_NAMES

  lemma {:induction false} DerivedRunNames(a: Around, forced: bool, r: Run)
    ensures DerivedRun(a, forced, r).d.Keys <= r.d.Keys + DERIVED_NAMES
  {
    var r1 := ExecAll(a, SERVER_TABLE, r);
    var r2 := ExecAll(a, DOMAIN_TABLE, r1);
    ExecNames(a, SERVER_TABLE, |SERVER_TABLE|, r);
    ServerNaming();
    ExecNames(a, DOMAIN_TABLE, |DOMAIN_TABLE|, r1);
    DomainNaming();
    ExecNames(a, URI_TABLE, |URI_TABLE|, r2);
    UriNaming();
  }

  /** The variables after the configuration files, if they are read. */
  function Loaded(a: Around, r: Run): Vars { FilesRun(a.world, ForceRun(a, r)).d }

  lemma {:induction false} NamesApart()
    ensures BOOTSTRAP_KEYS !! DERIVED_NAMES && URI_NAMES <= DERIVED_NAMES && "mode" !in URI_NAMES
  {
  }

  /** The variables of `_bootstrap` come from there or from a file; in the dummy mode, only from there. */
  lemma {:induction false} BootstrapKeys(a: Around, r: Run, key: string)
    requires key in BOOTSTRAP_KEYS
    ensures key in BeforeRun(a, r).d <==> key in Loaded(a, r)
    ensures Dummy(r.d) ==> (key in Loaded(a, r) <==> key in r.d)
  {
    var forced := ForceRun(a, r);
    NamesApart();
    ForceNames(a, r);
    ForceStage(a, r);
    FilesStage(a.world, forced);
    DerivedStage(a, IsForced(r.d), FilesRun(a.world, forced));
    DerivedRunNames(a, IsForced(r.d), FilesRun(a.world, forced));
  }

  /** Defaults such as those of the constants: allowed names, and placeholders only for variables the stages fill in. */
  ghost predicate Standard(defaults: seq<Item>) {
    && DistinctKeys(defaults)
    && forall i :: 0 <= i < |defaults| ==>
         NameOk(defaults[i].0) && (defaults[i].1.Object? ==> defaults[i].0 in BOOTSTRAP_KEYS + CORE_KEYS)
  }

  /** A placeholder for a variable of `_bootstrap` that is missing. */
  ghost predicate Missing(d: Vars, defaults: seq<Item>) {
    exists i :: 0 <= i < |defaults| && defaults[i].1.Object? && defaults[i].0 in BOOTSTRAP_KEYS && defaults[i].0 !in d
  }

  lemma {:induction false} FirstRefused(d: Vars, items: seq<Item>, n: nat)
    requires n <= |items| && !AllPass(d, items, n) && forall i :: 0 <= i < |items| ==> NameOk(items[i].0)
    ensures Refused(d, items, n)
  {
    if AllPass(d, items, n - 1) {
      assert !Passes(d, items[n - 1]);
    } else {
      FirstRefused(d, items, n - 1);
    }
  }

  lemma {:induction false} RefusedIsMissing(d: Vars, defaults: seq<Item>)
    requires Standard(defaults) && CORE_KEYS <= d.Keys
    ensures Refused(d, defaults, |defaults|) <==> Missing(d, defaults)
  {
    if Missing(d, defaults) {
      FirstRefused(d, defaults, |defaults|);
    }
  }

  /** A placeholder is reached exactly if the stage gets as far as the defaults with a variable of `_bootstrap` missing. */
  lemma {:induction false} PlaceholderReachedIff(a: Around, r: Run)
    requires Clean(r.d) && r.e.None? && !r.locked && Standard(a.defaults)
    ensures Bad(CoreRun(a, r).e) <==> BeforeRun(a, r).e.None? && Missing(Loaded(a, r), a.defaults)
    ensures Dummy(r.d) ==> (Bad(CoreRun(a, r).e) <==> BeforeRun(a, r).e.None? && Missing(r.d, a.defaults))
  {
    CoreRefusesIff(a, r);
    BeforeStage(a, r);
    if BeforeRun(a, r).e.None? {
      RefusedIsMissing(BeforeRun(a, r).d, a.defaults);
    }
    forall key | key in BOOTSTRAP_KEYS
      ensures key in BeforeRun(a, r).d <==> key in Loaded(a, r)
      ensures Dummy(r.d) ==> (key in Loaded(a, r) <==> key in r.d)
    {
      BootstrapKeys(a, r, key);
    }
  }

  /** After a `_bootstrap` that went through, no placeholder is reached. */
  lemma {:induction false} NeverReached(a: Around, overrides: seq<Item>)
    requires Standard(a.defaults) && BootRun(a, overrides, EMPTY).e.None?
    ensures !Bad(CoreRun(a, BootRun(a, overrides, EMPTY)).e)
  {
    var r := BootRun(a, overrides, EMPTY);
    BootStage(a, overrides, EMPTY);
    PlaceholderReachedIff(a, r);
    ForceStage(a, r);
    FilesStage(a.world, ForceRun(a, r));
  }

  // ---------- a failed `_bootstrap` whose error was caught ----------

  const DUMMY_OVERRIDES: seq<Item> := [("mode", Str("dummy")), ("confdir", Str("/x"))]

  const CONF_PLACEHOLDER: seq<Item> := [("conf", Object)]

  /** A process without a home directory and with IPA_CONFDIR set. */
  predicate Clashing(a: Around) {
    a.world.home.None? && Converted("env_confdir", VariableOf(a.world)) != Null && a.defaults == CONF_PLACEHOLDER
  }

  lemma {:induction false} RuntimeNamesOk()
    ensures NameOk("ipalib") && NameOk("site_packages") && NameOk("script") && NameOk("bin") && NameOk("home") && NameOk("fips_mode")
  {
  }

  lemma {:induction false} OtherNamesOk()
    ensures NameOk("mode") && NameOk("confdir") && NameOk("in_tree") && NameOk("dot_ipa") && NameOk("context") && NameOk("env_confdir")
  {
  }

  /** One step on an open environment. */
  lemma {:induction false} StepGoes(a: Around, r: Run, instr: Instr)
    requires !instr.Test? && r.e.None? && !r.locked && instr.key !in r.d && NameOk(instr.key)
    requires !Faulty(a, r.d, instr.key, instr.expr)
    requires Eval(a, r.d, instr.key, instr.expr).Some? && !Eval(a, r.d, instr.key, instr.expr).value.Object?
    ensures var value := Eval(a, r.d, instr.key, instr.expr).value; var s := Do(a, instr, r);
      s.e.None? && !s.locked && s.d == r.d[instr.key := Converted(instr.key, value)]
  {
  }

  predicate Constant(instr: Instr) {
    instr.Put? && instr.expr.Given? && !instr.expr.value.Object? && NameOk(instr.key)
  }

  /** A table of constants goes through where none of its names is set. */
  lemma {:induction false} ConstantsGo(a: Around, t: seq<Instr>, n: nat, r: Run, i: nat)
    requires n <= |t| && OnceEach(t, n) && forall j :: 0 <= j < |t| ==> Constant(t[j])
    requires r.e.None? && !r.locked && NamesOf(t, n) !! r.d.Keys
    ensures var s := Exec(a, t, n, r);
      && s.e.None? && !s.locked && s.d.Keys == r.d.Keys + NamesOf(t, n)
      && (i < n ==> Constant(t[i]) && t[i].key in s.d && s.d[t[i].key] == Converted(t[i].key, t[i].expr.value))
  {
    if n > 0 {
      ConstantsGo(a, t, n - 1, r, i);
      StepGoes(a, Exec(a, t, n - 1, r), t[n - 1]);
      if i < n - 1 {
        NamedIn(t, n - 1, i);
      }
    }
  }

  lemma {:induction false} RuntimeGoes(a: Around)
    requires Clashing(a)
    ensures var r := ExecAll(a, RuntimeTable(a.world), EMPTY);
      r.e.None? && !r.locked && r.d.Keys == RUNTIME_KEYS && r.d["home"] == Null
  {
    var t := RuntimeTable(a.world);
    RuntimeNamesOk();
    RuntimeNaming(a.world);
    ConstantsGo(a, t, 6, EMPTY, 4);
    assert t[4] == Put("home", Given(Null));
  }

  lemma {:induction false} OverridesGo(r: Run)
    requires r.e.None? && !r.locked && r.d.Keys == RUNTIME_KEYS && r.d["home"] == Null
    ensures var s := ProposeAll(r, DUMMY_OVERRIDES, 2);
      && s.e.None? && !s.locked && s.d.Keys == RUNTIME_KEYS + {"mode", "confdir"}
      && s.d["home"] == Null && s.d["mode"] == Str("dummy")
  {
    OtherNamesOk();
    var s := ProposeAll(r, DUMMY_OVERRIDES, 1);
    assert ProposeAll(r, DUMMY_OVERRIDES, 0) == r;
    assert s.e.None? && s.d == r.d["mode" := Str("dummy")];
  }

  const CLASH_KEYS: set<string> := {"mode", "confdir", "in_tree", "dot_ipa", "context"}

  lemma {:induction false} InTreeGoes(a: Around, r: Run)
    requires r.e.None? && !r.locked && r.d.Keys == RUNTIME_KEYS + {"mode", "confdir"}
    ensures var s := Exec(a, TreeTable(a.world), 2, r);
      s.e.None? && !s.locked && s.d.Keys == RUNTIME_KEYS + {"mode", "confdir", "in_tree"} && Grows(r.d, s.d)
  {
    var t := TreeTable(a.world);
    OtherNamesOk();
    assert Exec(a, t, 0, r) == r;
    StepGoes(a, r, t[0]);
    assert Exec(a, t, 2, r).d == Exec(a, t, 1, r).d;
  }

  lemma {:induction false} DotIpaGoes(a: Around, r: Run)
    requires r.e.None? && !r.locked && "home" in r.d && r.d["home"] == Null && "dot_ipa" !in r.d
    ensures var s := Do(a, TreeTable(a.world)[2], r); s.e.None? && !s.locked && s.d == r.d["dot_ipa" := Null]
  {
    OtherNamesOk();
    StepGoes(a, r, TreeTable(a.world)[2]);
  }

  lemma {:induction false} ContextGoes(a: Around, r: Run)
    requires r.e.None? && !r.locked && "context" !in r.d
    ensures var s := Do(a, TreeTable(a.world)[3], r); s.e.None? && !s.locked && s.d == r.d["context" := Str("default")]
  {
    OtherNamesOk();
    StepGoes(a, r, TreeTable(a.world)[3]);
  }

  lemma {:induction false} TreeGoes(a: Around, r: Run)
    requires r.e.None? && !r.locked && r.d.Keys == RUNTIME_KEYS + {"mode", "confdir"}
    requires r.d["home"] == Null && r.d["mode"] == Str("dummy")
    ensures var s := ExecAll(a, TreeTable(a.world), r);
      && s.e.None? && !s.locked && s.d.Keys == RUNTIME_KEYS + CLASH_KEYS
      && s.d["mode"] == Str("dummy") && s.d["dot_ipa"] == Null && s.d["context"] == Str("default")
  {
    var t := TreeTable(a.world);
    InTreeGoes(a, r);
    DotIpaGoes(a, Exec(a, t, 2, r));
    ContextGoes(a, Exec(a, t, 3, r));
  }

  lemma {:induction false} ConfdirStops(a: Around, r: Run)
    requires Clashing(a) && r.e.None? && !r.locked && r.d.Keys == RUNTIME_KEYS + CLASH_KEYS
    ensures var s := ExecAll(a, ConfdirTable(a.world), r);
      && s == r.(d := s.d, e := Some(EnvironmentError))
      && s.d.Keys == RUNTIME_KEYS + CLASH_KEYS + {"env_confdir"} && Grows(r.d, s.d)
  {
    var t := ConfdirTable(a.world);
    OtherNamesOk();
    assert Exec(a, t, 0, r) == r;
    StepGoes(a, r, t[0]);
    var s1 := Exec(a, t, 1, r);
    assert s1.d == r.d["env_confdir" := Converted("env_confdir", VariableOf(a.world))];
    var s2 := Exec(a, t, 2, r);
    assert s2 == s1.(e := Some(EnvironmentError));
  }

  /** What is left of the environment when `_bootstrap` fails for the clash. */
  ghost predicate Clashed(r: Run) {
    && !r.locked && r.d.Keys == RUNTIME_KEYS + CLASH_KEYS + {"env_confdir"}
    && r.d["mode"] == Str("dummy") && r.d["dot_ipa"] == Null && r.d["context"] == Str("default")
  }

  lemma {:induction false} StoppedStays(a: Around, r: Run)
    requires r.e.Some?
    ensures ExecAll(a, PathsTable(a.world), ExecAll(a, CONFS_TABLE, r)) == r
  {
    TableStage(a, CONFS_TABLE, r);
    TableStage(a, PathsTable(a.world), r);
  }

  lemma {:induction false} BootstrapFails(a: Around)
    requires Clashing(a)
    ensures var r := BootRun(a, DUMMY_OVERRIDES, EMPTY); r.e == Some(EnvironmentError) && Clashed(r) && Clean(r.d)
  {
    var r1 := ExecAll(a, RuntimeTable(a.world), EMPTY);
    var r2 := ProposeAll(r1, DUMMY_OVERRIDES, 2);
    var r3 := ExecAll(a, TreeTable(a.world), r2);
    var r4 := ExecAll(a, ConfdirTable(a.world), r3);
    RuntimeGoes(a);
    OverridesGo(r1);
    TreeGoes(a, r2);
    ConfdirStops(a, r3);
    StoppedStays(a, r4);
    BootStage(a, DUMMY_OVERRIDES, EMPTY);
  }

  lemma {:induction false} InServerGoes(a: Around, r: Run)
    requires r.e.None? && !r.locked && CORE_KEYS !! r.d.Keys && "context" in r.d && r.d["context"] == Str("default")
    ensures var s := Exec(a, SERVER_TABLE, 1, r); s.e.None? && !s.locked && s.d == r.d["in_server" := Bool(false)]
  {
    assert NameOk("in_server");
    assert Exec(a, SERVER_TABLE, 0, r) == r;
    StepGoes(a, r, SERVER_TABLE[0]);
  }

  lemma {:induction false} ServerGoes(a: Around, r: Run)
    requires r.e.None? && !r.locked && CORE_KEYS !! r.d.Keys && {"context", "in_tree", "dot_ipa"} <= r.d.Keys
    requires r.d["context"] == Str("default") && r.d["dot_ipa"] == Null
    ensures var s := ExecAll(a, SERVER_TABLE, r);
      s.e.None? && s.d.Keys == r.d.Keys + CORE_KEYS && s.d["context"] == Str("default")
  {
    var t := SERVER_TABLE;
    InServerGoes(a, r);
    assert NameOk("logdir") && NameOk("log");
    var s1, s2 := Exec(a, t, 1, r), Exec(a, t, 2, r);
    StepGoes(a, s1, t[1]);
    assert s2.d == s1.d["logdir" := Null];
    StepGoes(a, s2, t[2]);
  }

  lemma {:induction false} QuietTable(a: Around, t: seq<Instr>, n: nat, r: Run)
    requires n <= |t| && forall i :: 0 <= i < |t| ==> Do(a, t[i], r) == r
    ensures Exec(a, t, n, r) == r
  {
    if n > 0 {
      QuietTable(a, t, n - 1, r);
    }
  }

  lemma {:induction false} QuietDomain(a: Around, r: Run)
    requires r.e.None? && "domain" !in r.d && "context" in r.d && r.d["context"] == Str("default")
    ensures ExecAll(a, DOMAIN_TABLE, r) == r
  {
    var t := DOMAIN_TABLE;
    assert Do(a, t[0], r) == r && Do(a, t[1], r) == r && Do(a, t[2], r) == r;
    QuietTable(a, t, 3, r);
  }

  lemma {:induction false} QuietUris(a: Around, r: Run)
    requires r.e.None? && URI_NAMES !! r.d.Keys && a.defaults == CONF_PLACEHOLDER
    ensures ExecAll(a, URI_TABLE, r) == r
  {
    var t := URI_TABLE;
    assert LookUp(a.defaults, "xmlrpc_uri") == Null && LookUp(a.defaults, "jsonrpc_uri") == Null;
    assert Do(a, t[0], r) == r && Do(a, t[1], r) == r && Do(a, t[2], r) == r && Do(a, t[3], r) == r;
    QuietTable(a, t, 4, r);
  }

  lemma {:induction false} ClashedKeys(r: Run)
    requires Clashed(r)
    ensures CORE_KEYS !! r.d.Keys && {"context", "in_tree", "dot_ipa"} <= r.d.Keys
    ensures "forced_server" !in r.d && "domain" !in r.d && "conf" !in r.d
  {
  }

  lemma {:induction false} ClashedUris(r: Run)
    requires Clashed(r)
    ensures URI_NAMES !! r.d.Keys
  {
  }

  lemma {:induction false} BeforeGoes(a: Around, r: Run)
    requires Clashed(r) && r.e.None? && a.defaults == CONF_PLACEHOLDER
    ensures BeforeRun(a, r).e.None?
  {
    ClashedKeys(r);
    ClashedUris(r);
    var s := ExecAll(a, SERVER_TABLE, r);
    ServerGoes(a, r);
    QuietDomain(a, s);
    QuietUris(a, s);
    assert DerivedRun(a, false, r) == s;
    assert ForceRun(a, r) == r;
    assert FilesRun(a.world, r) == r;
  }

  lemma {:induction false} ConfRefused(a: Around, before: Run)
    requires before.e.None? && !before.locked && "conf" !in before.d
    ensures ExecAll(a, TLS_TABLE, ProposeAll(before, CONF_PLACEHOLDER, 1)).e == Some(BadValue("conf"))
  {
    var s := ProposeAll(before, CONF_PLACEHOLDER, 1);
    assert NameOk("conf");
    assert ProposeAll(before, CONF_PLACEHOLDER, 0) == before;
    assert s.e == Some(BadValue("conf"));
    TableStage(a, TLS_TABLE, s);
  }

  /**
   Where the error of a failed `_bootstrap` is caught, a placeholder is reached: with the overrides `mode` and `confdir`
   and IPA_CONFDIR set, `_bootstrap` stops before `conf`, and `_finalize_core` then raises for its placeholder.
   */
  lemma {:induction false} PlaceholderReached(a: Around)
    requires Clashing(a)
    ensures var r := BootRun(a, DUMMY_OVERRIDES, EMPTY);
      r.e == Some(EnvironmentError) && CoreRun(a, r.(e := None)).e == Some(BadValue("conf"))
  {
    var r := BootRun(a, DUMMY_OVERRIDES, EMPTY).(e := None);
    BootstrapFails(a);
    ClashedKeys(r);
    BeforeGoes(a, r);
    BootstrapKeys(a, r, "conf");
    BeforeStage(a, r);
    ConfRefused(a, BeforeRun(a, r));
  }
}
