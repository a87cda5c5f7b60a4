/** What every stage of ipalib/config.py keeps: no variable ever changes, an error ends the run, a lock freezes it. */
module EnvLaws {
  import opened Common
  import opened EnvValue
  import opened EnvRun

  ghost predicate Grows(a: Vars, b: Vars) {
    forall key :: key in a ==> key in b && b[key] == a[key]
  }

  /** No variable has a refused value. */
  ghost predicate Clean(d: Vars) {
    forall key :: key in d ==> !d[key].Object?
  }

  /** What holds between any two moments. */
  ghost predicate Grown(a: Run, b: Run) {
    && b.locked == a.locked && (a.locked ==> b.d == a.d)
    && (a.e.Some? ==> b == a)
    && Grows(a.d, b.d)
    && (Clean(a.d) ==> Clean(b.d))
  }

  lemma {:induction false} GrownAll(a: Run, b: Run, c: Run)
    requires Grown(a, b) && Grown(b, c)
    ensures Grown(a, c)
  {
  }

  /** A stage: unless it fails, the variables `keys` are set; a tidy stage meets no refused value. */
  ghost predicate Stage(a: Run, b: Run, keys: set<string>, tidy: bool) {
    || (Grown(a, b) && b.e.None? && keys <= b.d.Keys)
    || (Grown(a, b) && b.e.Some? && (tidy && Clean(a.d) && Bad(b.e) ==> Bad(a.e)))
  }

  lemma {:induction false} Then(a: Run, b: Run, c: Run, keys: set<string>, more: set<string>, tidy: bool, tidy2: bool)
    requires Stage(a, b, keys, tidy) && Stage(b, c, more, tidy2)
    ensures Stage(a, c, keys + more, tidy && tidy2)
  {
    GrownAll(a, b, c);
  }

  lemma {:induction false} StopStage(r: Run, e: Option<Error>)
    requires !Bad(e)
    ensures Stage(r, StopOn(r, e), {}, true)
  {
  }

  // ---------- tables ----------

  lemma {:induction false} PlaceStage(r: Run, key: string, value: Value)
    ensures Stage(r, Place(r, key, value), {key}, !value.Object?)
    ensures Stage(r, Propose(r, key, value), {key}, value.Object? ==> key in r.d)
  {
  }

  /** A fallback that offers something in every environment. */
  predicate Always(expr: Expr) {
    expr.Given? || expr.Path? || expr.ContextPath? || expr.Confdir? || expr.ContextIs? || expr.LogDir?
  }

  function KeyOf(instr: Instr): set<string> {
    if instr.Test? || !Always(instr.expr) then {} else {instr.key}
  }

  /** The variables set by the first `n` entries, unless they fail. */
  function KeysOf(table: seq<Instr>, n: nat): set<string>
    requires n <= |table|
  {
    if n == 0 then {} else KeysOf(table, n - 1) + KeyOf(table[n - 1])
  }

  /** None of the constants of an entry is refused. */
  predicate Sound(instr: Instr) {
    instr.Test? || !((instr.expr.Given? || instr.expr.IfTree?) && instr.expr.value.Object?)
  }

  ghost predicate SoundTable(table: seq<Instr>) {
    forall i :: 0 <= i < |table| ==> Sound(table[i])
  }

  lemma {:induction false} EvalAllowed(a: Around, d: Vars, instr: Instr)
    requires Clean(d) && !instr.Test? && Sound(instr)
    ensures Eval(a, d, instr.key, instr.expr).Some? ==> !Eval(a, d, instr.key, instr.expr).value.Object?
  {
  }

  lemma {:induction false} DoStage(a: Around, instr: Instr, r: Run)
    requires Sound(instr)
    ensures Stage(r, Do(a, instr, r), KeyOf(instr), true)
  {
    if !instr.Test? && Eval(a, r.d, instr.key, instr.expr).Some? {
      PlaceStage(r, instr.key, Eval(a, r.d, instr.key, instr.expr).value);
      if Clean(r.d) {
        EvalAllowed(a, r.d, instr);
      }
    }
  }

  lemma {:induction false} ExecStage(a: Around, table: seq<Instr>, n: nat, r: Run)
    requires n <= |table| && SoundTable(table)
    ensures Stage(r, Exec(a, table, n, r), KeysOf(table, n), true)
  {
    if n > 0 {
      ExecStage(a, table, n - 1, r);
      var s := Exec(a, table, n - 1, r);
      DoStage(a, table[n - 1], s);
      Then(r, s, Exec(a, table, n, r), KeysOf(table, n - 1), KeyOf(table[n - 1]), true, true);
    }
  }

  lemma {:induction false} TableStage(a: Around, table: seq<Instr>, r: Run)
    requires SoundTable(table)
    ensures Stage(r, ExecAll(a, table, r), KeysOf(table, |table|), true)
  {
    ExecStage(a, table, |table|, r);
  }

  // ---------- layers of items ----------

  /** Refused values appear at most under the given names. */
  ghost predicate ObjectsWithin(items: seq<Item>, keys: set<string>) {
    forall i :: 0 <= i < |items| && items[i].1.Object? ==> items[i].0 in keys
  }

  lemma {:induction false} ItemsStage(r: Run, items: seq<Item>, n: nat)
    requires n <= |items|
    ensures Stage(r, ProposeAll(r, items, n), {}, ObjectsWithin(items, r.d.Keys))
  {
    if n > 0 {
      ItemsStage(r, items, n - 1);
      var s, item := ProposeAll(r, items, n - 1), items[n - 1];
      PlaceStage(s, item.0, item.1);
      Then(r, s, ProposeAll(r, items, n), {}, {item.0}, ObjectsWithin(items, r.d.Keys), item.1.Object? ==> item.0 in s.d);
    }
  }

  // ---------- _bootstrap ----------

  const RUNTIME_KEYS: set<string> := {"ipalib", "site_packages", "script", "bin", "home", "fips_mode"}

  const TREE_KEYS: set<string> := {"in_tree", "dot_ipa", "context"}
  const CONF_KEYS: set<string> := {"env_confdir", "confdir", "conf", "conf_default", "nss_dir"}
  const PATH_KEYS: set<string> := {"cache_dir", "tls_ca_cert", "plugins_on_demand"}

  const FILLED_KEYS := TREE_KEYS + CONF_KEYS + PATH_KEYS

  const BOOTSTRAP_KEYS := RUNTIME_KEYS + FILLED_KEYS

  lemma {:induction false} RuntimeStage(a: Around, r: Run)
    ensures Stage(r, ExecAll(a, RuntimeTable(a.world), r), RUNTIME_KEYS, true)
  {
    var t := RuntimeTable(a.world);
    assert KeysOf(t, 0) == {};
    assert KeysOf(t, 1) == {"ipalib"};
    assert KeysOf(t, 2) == {"ipalib", "site_packages"};
    assert KeysOf(t, 3) == {"ipalib", "site_packages", "script"};
    assert KeysOf(t, 4) == {"ipalib", "site_packages", "script", "bin"};
    assert KeysOf(t, 5) == {"ipalib", "site_packages", "script", "bin", "home"};
    TableStage(a, t, r);
  }

  lemma {:induction false} TreeStage(a: Around, r: Run)
    ensures Stage(r, ExecAll(a, TreeTable(a.world), r), TREE_KEYS, true)
  {
    var t := TreeTable(a.world);
    assert KeysOf(t, 0) == {};
    assert KeysOf(t, 1) == {"in_tree"};
    assert KeysOf(t, 2) == {"in_tree"};
    assert KeysOf(t, 3) == {"in_tree", "dot_ipa"};
    TableStage(a, t, r);
  }

  lemma {:induction false} ConfStage(a: Around, r: Run)
    ensures Stage(r, ExecAll(a, CONFS_TABLE, ExecAll(a, ConfdirTable(a.world), r)), CONF_KEYS, true)
  {
    var t, u := ConfdirTable(a.world), CONFS_TABLE;
    assert KeysOf(t, 0) == {};
    assert KeysOf(t, 1) == {"env_confdir"};
    assert KeysOf(t, 2) == {"env_confdir"};
    assert KeysOf(t, 3) == {"env_confdir", "confdir"};
    assert KeysOf(u, 0) == {};
    assert KeysOf(u, 1) == {"conf"};
    assert KeysOf(u, 2) == {"conf", "conf_default"};
    assert KeysOf(u, 3) == {"conf", "conf_default", "nss_dir"};
    TableStage(a, t, r);
    TableStage(a, u, ExecAll(a, t, r));
    Then(r, ExecAll(a, t, r), ExecAll(a, u, ExecAll(a, t, r)), KeysOf(t, 3), KeysOf(u, 3), true, true);
  }

  lemma {:induction false} PathsStage(a: Around, r: Run)
    ensures Stage(r, ExecAll(a, PathsTable(a.world), r), PATH_KEYS, true)
  {
    var t := PathsTable(a.world);
    assert KeysOf(t, 0) == {};
    assert KeysOf(t, 1) == {"cache_dir"};
    assert KeysOf(t, 2) == {"cache_dir", "tls_ca_cert"};
    assert KeysOf(t, 3) == {"cache_dir", "tls_ca_cert"};
    TableStage(a, t, r);
  }

  lemma {:induction false} FillStage(a: Around, r: Run)
    ensures Stage(r, FillRun(a, r), FILLED_KEYS, true)
  {
    var r1 := ExecAll(a, TreeTable(a.world), r);
    TreeStage(a, r);
    var r2 := ExecAll(a, CONFS_TABLE, ExecAll(a, ConfdirTable(a.world), r1));
    ConfStage(a, r1);
    Then(r, r1, r2, TREE_KEYS, CONF_KEYS, true, true);
    PathsStage(a, r2);
    Then(r, r2, FillRun(a, r), TREE_KEYS + CONF_KEYS, PATH_KEYS, true, true);
  }

  lemma {:induction false} BootStage(a: Around, overrides: seq<Item>, r: Run)
    ensures Stage(r, BootRun(a, overrides, r), BOOTSTRAP_KEYS, ObjectsWithin(overrides, {}))
  {
    var r1 := ExecAll(a, RuntimeTable(a.world), r);
    RuntimeStage(a, r);
    var r2 := ProposeAll(r1, overrides, |overrides|);
    ItemsStage(r1, overrides, |overrides|);
    Then(r, r1, r2, RUNTIME_KEYS, {}, true, ObjectsWithin(overrides, r1.d.Keys));
    FillStage(a, r2);
    Then(r, r2, BootRun(a, overrides, r), RUNTIME_KEYS + {}, FILLED_KEYS, ObjectsWithin(overrides, r1.d.Keys), true);
  }

  // ---------- _finalize_core ----------

  lemma {:induction false} UriStage(a: Around, r: Run)
    ensures Stage(r, ExecAll(a, URI_TABLE, r), {}, true)
  {
    TableStage(a, URI_TABLE, r);
  }

  lemma {:induction false} ForceStage(a: Around, r: Run)
    ensures Stage(r, ForceRun(a, r), {}, true)
  {
    var r1 := ExecAll(a, FORCED_TABLE, r);
    TableStage(a, FORCED_TABLE, r);
    UriStage(a, r1);
    Then(r, r1, ExecAll(a, URI_TABLE, r1), KeysOf(FORCED_TABLE, |FORCED_TABLE|), {}, true, true);
  }

  lemma {:induction false} FileStage(w: World, file: Value, r: Run)
    ensures Stage(r, FileRun(w, file, r), {}, true)
  {
    var items := FileItems(w, file);
    var r1 := StopOn(r, if file.Str? then None else Some(Crash));
    StopStage(r, if file.Str? then None else Some(Crash));
    var r2 := ProposeAll(r1, items, |items|);
    ItemsStage(r1, items, |items|);
    Then(r, r1, r2, {}, {}, true, true);
    PlaceStage(r2, "config_loaded", Bool(true));
    Then(r, r2, Propose(r2, "config_loaded", Bool(true)), {} + {}, {"config_loaded"}, true, true);
  }

  lemma {:induction false} NamedFileStage(w: World, key: string, r: Run)
    ensures Stage(r, NamedFileRun(w, key, r), {}, true)
  {
    var e := if key in r.d then None else Some(Crash);
    StopStage(r, e);
    FileStage(w, Get(r.d, key), StopOn(r, e));
    Then(r, StopOn(r, e), NamedFileRun(w, key, r), {}, {}, true, true);
  }

  lemma {:induction false} FilesStage(w: World, r: Run)
    ensures Stage(r, FilesRun(w, r), {}, true)
  {
    var r1 := NamedFileRun(w, "conf", r);
    NamedFileStage(w, "conf", r);
    NamedFileStage(w, "conf_default", r1);
    Then(r, r1, NamedFileRun(w, "conf_default", r1), {}, {}, true, true);
  }

  const CORE_KEYS: set<string> := {"in_server", "logdir", "log"}

  lemma {:induction false} ServerStage(a: Around, r: Run)
    ensures Stage(r, ExecAll(a, SERVER_TABLE, r), CORE_KEYS, true)
  {
    var t := SERVER_TABLE;
    assert KeysOf(t, 0) == {};
    assert KeysOf(t, 1) == {"in_server"};
    assert KeysOf(t, 2) == {"in_server", "logdir"};
    TableStage(a, t, r);
  }

  lemma {:induction false} DerivedStage(a: Around, forced: bool, r: Run)
    ensures Stage(r, DerivedRun(a, forced, r), CORE_KEYS, true)
  {
    var r1 := ExecAll(a, SERVER_TABLE, r);
    ServerStage(a, r);
    var r2 := ExecAll(a, DOMAIN_TABLE, r1);
    TableStage(a, DOMAIN_TABLE, r1);
    Then(r, r1, r2, CORE_KEYS, KeysOf(DOMAIN_TABLE, |DOMAIN_TABLE|), true, true);
    UriStage(a, r2);
    Then(r, r2, ExecAll(a, URI_TABLE, r2), CORE_KEYS + KeysOf(DOMAIN_TABLE, |DOMAIN_TABLE|), {}, true, true);
  }

  lemma {:induction false} BeforeStage(a: Around, r: Run)
    ensures Stage(r, BeforeRun(a, r), CORE_KEYS, true)
  {
    var r1 := ForceRun(a, r);
    ForceStage(a, r);
    var r2 := FilesRun(a.world, r1);
    FilesStage(a.world, r1);
    Then(r, r1, r2, {}, {}, true, true);
    DerivedStage(a, IsForced(r.d), r2);
    Then(r, r2, BeforeRun(a, r), {} + {}, CORE_KEYS, true, true);
  }

  const TLS_KEYS: set<string> := {"tls_version_min", "tls_version_max"}

  lemma {:induction false} TlsStage(a: Around, r: Run)
    ensures Stage(r, ExecAll(a, TLS_TABLE, r), TLS_KEYS, true)
  {
    var t := TLS_TABLE;
    assert KeysOf(t, 0) == {};
    assert KeysOf(t, 1) == {"tls_version_min"};
    assert KeysOf(t, 2) == {"tls_version_min"};
    assert KeysOf(t, 3) == TLS_KEYS;
    TableStage(a, t, r);
  }

  lemma {:induction false} CoreStage(a: Around, r: Run)
    ensures Stage(r, CoreRun(a, r), CORE_KEYS + TLS_KEYS, ObjectsWithin(a.defaults, BeforeRun(a, r).d.Keys))
  {
    var r1 := BeforeRun(a, r);
    var tidy := ObjectsWithin(a.defaults, r1.d.Keys);
    BeforeStage(a, r);
    var r2 := ProposeAll(r1, a.defaults, |a.defaults|);
    ItemsStage(r1, a.defaults, |a.defaults|);
    Then(r, r1, r2, CORE_KEYS, {}, true, tidy);
    TlsStage(a, r2);
    Then(r, r2, CoreRun(a, r), CORE_KEYS + {}, TLS_KEYS, tidy, true);
  }
}
