/** What carrying out a table of ipalib/config.py sets, exactly: each missing variable to its fallback. */
module EnvTables {
  import opened Common
  import opened EnvValue
  import opened EnvRun
  import opened EnvLaws

  /** One name between two moments: kept if it was set; otherwise set exactly if there was an offer, to its value. */
  predicate Settled(before: Vars, after: Vars, key: string, offer: Option<Value>) {
    || (key in before && key in after && after[key] == before[key])
    || (key !in before && offer.None? && key !in after)
    || (key !in before && offer.Some? && key in after && after[key] == Converted(key, offer.value))
  }

  // ---------- one entry ----------

  lemma {:induction false} DoSets(a: Around, instr: Instr, r: Run)
    requires Do(a, instr, r).e.None?
    ensures r.e.None? && (instr.Test? ==> Do(a, instr, r).d == r.d)
    ensures !instr.Test? ==>
      var v := Eval(a, r.d, instr.key, instr.expr);
      Do(a, instr, r).d == if v.None? || instr.key in r.d then r.d else r.d[instr.key := Converted(instr.key, v.value)]
  {
  }

  /** The variables that the first `n` entries may set. */
  function NamesOf(table: seq<Instr>, n: nat): set<string>
    requires n <= |table|
  {
    if n == 0 then {} else NamesOf(table, n - 1) + (if table[n - 1].Test? then {} else {table[n - 1].key})
  }

  /** The variables a fallback looks at. */
  function Touches(expr: Expr): set<string> {
    match expr
    case Given(_) => {}
    case IfTree(_) => {"in_tree"}
    case Path(base, _) => {base}
    case ContextPath(base, _) => {base, "context"}
    case Confdir => {"env_confdir", "in_tree", "dot_ipa"}
    case ContextIs(_) => {"context"}
    case LogDir => {"in_tree", "in_server", "dot_ipa"}
    case ServerUri(_, _) => {"server"}
    case ParsedUri(from, _) => {from}
    case ForcedServer => {"forced_server", "server"}
    case Realm => {"in_server", "context", "config_loaded"}
    case Domain => {"in_server", "context", "config_loaded", "realm"}
    case BaseDn => {"domain"}
  }

  ghost predicate SameOn(d: Vars, e: Vars, keys: set<string>) {
    forall key :: key in keys ==> (key in d <==> key in e) && (key in d ==> d[key] == e[key])
  }

  /** A fallback depends on nothing else, and on whether its own variable is missing. */
  lemma {:induction false} EvalSameOn(a: Around, d: Vars, e: Vars, key: string, expr: Expr)
    requires SameOn(d, e, Touches(expr)) && (key in d <==> key in e)
    ensures Eval(a, d, key, expr) == Eval(a, e, key, expr)
  {
  }

  /** The fallback of a missing variable, in the environment `d`, whether or not it has been filled in there. */
  function Fallback(a: Around, d: Vars, key: string, expr: Expr): Option<Value> {
    Eval(a, d - {key}, key, expr)
  }

  // ---------- a whole table ----------

  /** No variable is set twice. */
  predicate OnceEach(table: seq<Instr>, n: nat)
    requires n <= |table|
  {
    n == 0 || (OnceEach(table, n - 1) && (table[n - 1].Test? || table[n - 1].key !in NamesOf(table, n - 1)))
  }

  /** The variables the first `n` entries look at. */
  function TouchedBy(table: seq<Instr>, n: nat): set<string>
    requires n <= |table|
  {
    if n == 0 then {} else TouchedBy(table, n - 1) + (if table[n - 1].Test? then {} else Touches(table[n - 1].expr))
  }

  /** No entry sets what an earlier one looked at. */
  predicate InSequence(table: seq<Instr>, n: nat)
    requires n <= |table|
  {
    n == 0 || (InSequence(table, n - 1) && (table[n - 1].Test? || table[n - 1].key !in TouchedBy(table, n - 1)))
  }

  lemma {:induction false} ExecGoes(a: Around, table: seq<Instr>, i: nat, n: nat, r: Run)
    requires i <= n <= |table| && Exec(a, table, n, r).e.None?
    ensures Exec(a, table, i, r).e.None?
    decreases n
  {
    if i < n {
      DoSets(a, table[n - 1], Exec(a, table, n - 1, r));
      ExecGoes(a, table, i, n - 1, r);
    }
  }

  /** A name that none of the entries from `i` on sets. */
  predicate UnsetFrom(table: seq<Instr>, i: nat, n: nat, key: string)
    requires i <= n <= |table|
    decreases n
  {
    i == n || (UnsetFrom(table, i, n - 1, key) && (table[n - 1].Test? || table[n - 1].key != key))
  }

  lemma {:induction false} KeptFrom(a: Around, table: seq<Instr>, i: nat, n: nat, r: Run, key: string)
    requires i <= n <= |table| && Exec(a, table, n, r).e.None? && UnsetFrom(table, i, n, key)
    ensures var d, e := Exec(a, table, i, r).d, Exec(a, table, n, r).d;
      (key in d <==> key in e) && (key in d ==> d[key] == e[key])
    decreases n
  {
    if i < n {
      DoSets(a, table[n - 1], Exec(a, table, n - 1, r));
      KeptFrom(a, table, i, n - 1, r, key);
    }
  }

  lemma {:induction false} UnsetAll(table: seq<Instr>, n: nat, key: string)
    requires n <= |table| && key !in NamesOf(table, n)
    ensures UnsetFrom(table, 0, n, key)
  {
    if n > 0 {
      UnsetAll(table, n - 1, key);
    }
  }

  lemma {:induction false} NamedIn(table: seq<Instr>, n: nat, i: nat)
    requires i < n <= |table| && !table[i].Test?
    ensures table[i].key in NamesOf(table, n) && Touches(table[i].expr) <= TouchedBy(table, n)
  {
    if i < n - 1 {
      NamedIn(table, n - 1, i);
    }
  }

  lemma {:induction false} UnsetAfter(table: seq<Instr>, i: nat, n: nat)
    requires i < n <= |table| && OnceEach(table, n) && !table[i].Test?
    ensures UnsetFrom(table, i + 1, n, table[i].key)
    decreases n
  {
    if i + 1 < n {
      UnsetAfter(table, i, n - 1);
      NamedIn(table, n - 1, i);
    }
  }

  /** An entry decides its variable, by its fallback at that moment. */
  lemma {:induction false} EntrySets(a: Around, table: seq<Instr>, r: Run, i: nat)
    requires i < |table| && OnceEach(table, |table|) && !table[i].Test? && ExecAll(a, table, r).e.None?
    ensures Settled(r.d, ExecAll(a, table, r).d, table[i].key, Eval(a, Exec(a, table, i, r).d, table[i].key, table[i].expr))
  {
    var key := table[i].key;
    ExecGoes(a, table, i + 1, |table|, r);
    ExecGoes(a, table, i, i + 1, r);
    OnceBefore(table, |table|, i);
    UnsetAll(table, i, key);
    KeptFrom(a, table, 0, i, r, key);
    DoSets(a, table[i], Exec(a, table, i, r));
    UnsetAfter(table, i, |table|);
    KeptFrom(a, table, i + 1, |table|, r, key);
  }

  lemma {:induction false} OnceBefore(table: seq<Instr>, n: nat, i: nat)
    requires i < n <= |table| && OnceEach(table, n) && !table[i].Test?
    ensures table[i].key !in NamesOf(table, i)
  {
    if i < n - 1 {
      OnceBefore(table, n - 1, i);
    }
  }

  lemma {:induction false} UntouchedFrom(table: seq<Instr>, i: nat, n: nat, key: string)
    requires i < n <= |table| && InSequence(table, n) && !table[i].Test? && key in Touches(table[i].expr)
    ensures UnsetFrom(table, i + 1, n, key)
    decreases n
  {
    if i + 1 < n {
      UntouchedFrom(table, i, n - 1, key);
      NamedIn(table, n - 1, i);
    }
  }

  /** Where nothing an entry looked at is set later, its fallback can be read off the environment at the end. */
  lemma {:induction false} SameAtEnd(a: Around, table: seq<Instr>, r: Run, i: nat)
    requires i < |table| && OnceEach(table, |table|) && !table[i].Test? && ExecAll(a, table, r).e.None? && table[i].key !in r.d
    requires forall key :: key in Touches(table[i].expr) && key != table[i].key ==> UnsetFrom(table, i, |table|, key)
    ensures Eval(a, Exec(a, table, i, r).d, table[i].key, table[i].expr)
      == Fallback(a, ExecAll(a, table, r).d, table[i].key, table[i].expr)
  {
    var d, e, own := Exec(a, table, i, r).d, ExecAll(a, table, r).d, table[i].key;
    ExecGoes(a, table, i, |table|, r);
    OnceBefore(table, |table|, i);
    UnsetAll(table, i, own);
    KeptFrom(a, table, 0, i, r, own);
    forall key | key in Touches(table[i].expr)
      ensures (key in d <==> key in e - {own}) && (key in d ==> d[key] == (e - {own})[key])
    {
      if key != own {
        KeptFrom(a, table, i, |table|, r, key);
      }
    }
    EvalSameOn(a, d, e - {own}, own, table[i].expr);
  }

  /** Where nothing an entry looks at was set earlier, its fallback can be read off the environment at the start. */
  lemma {:induction false} SameAtStart(a: Around, table: seq<Instr>, r: Run, i: nat)
    requires i < |table| && OnceEach(table, |table|) && !table[i].Test? && ExecAll(a, table, r).e.None?
    requires Touches(table[i].expr) !! NamesOf(table, i)
    ensures Eval(a, Exec(a, table, i, r).d, table[i].key, table[i].expr) == Eval(a, r.d, table[i].key, table[i].expr)
  {
    var d := Exec(a, table, i, r).d;
    ExecGoes(a, table, i, |table|, r);
    OnceBefore(table, |table|, i);
    UnsetAll(table, i, table[i].key);
    KeptFrom(a, table, 0, i, r, table[i].key);
    forall key | key in Touches(table[i].expr)
      ensures (key in d <==> key in r.d) && (key in d ==> d[key] == r.d[key])
    {
      UnsetAll(table, i, key);
      KeptFrom(a, table, 0, i, r, key);
    }
    EvalSameOn(a, d, r.d, table[i].key, table[i].expr);
  }

  /** The entry for a name, if there is one. */
  function EntryOf(table: seq<Instr>, n: nat, key: string): Option<nat>
    requires n <= |table|
    ensures EntryOf(table, n, key).Some? ==>
      var i := EntryOf(table, n, key).value; i < n && !table[i].Test? && table[i].key == key
    ensures EntryOf(table, n, key).None? ==> key !in NamesOf(table, n)
  {
    if n == 0 then None
    else if !table[n - 1].Test? && table[n - 1].key == key then Some(n - 1)
    else EntryOf(table, n - 1, key)
  }

  /** What a table offers for a missing name, given the environment it ends in. */
  function TableOffer(a: Around, table: seq<Instr>, d: Vars, key: string): Option<Value> {
    match EntryOf(table, |table|, key)
    case None => None
    case Some(i) => Fallback(a, d, key, table[i].expr)
  }

  /** A table of different names in sequence sets each missing name to its fallback in the environment at the end. */
  lemma {:induction false} TableSets(a: Around, table: seq<Instr>, r: Run, key: string)
    requires OnceEach(table, |table|) && InSequence(table, |table|) && ExecAll(a, table, r).e.None?
    ensures var d := ExecAll(a, table, r).d; Settled(r.d, d, key, TableOffer(a, table, d, key))
  {
    match EntryOf(table, |table|, key)
    case None =>
      UnsetAll(table, |table|, key);
      KeptFrom(a, table, 0, |table|, r, key);
    case Some(i) =>
      EntrySets(a, table, r, i);
      if key !in r.d {
        forall k | k in Touches(table[i].expr) && k != key
          ensures UnsetFrom(table, i, |table|, k)
        {
          UntouchedFrom(table, i, |table|, k);
          UnsetHere(table, i, |table|, k);
        }
        SameAtEnd(a, table, r, i);
      }
  }

  lemma {:induction false} UnsetHere(table: seq<Instr>, i: nat, n: nat, key: string)
    requires i < n <= |table| && UnsetFrom(table, i + 1, n, key) && (table[i].Test? || table[i].key != key)
    ensures UnsetFrom(table, i, n, key)
    decreases n
  {
    if i + 1 < n {
      UnsetHere(table, i, n - 1, key);
    }
  }

  // ---------- tables one after the other ----------

  lemma {:induction false} ExecPart(a: Around, t: seq<Instr>, u: seq<Instr>, n: nat, r: Run)
    requires n <= |t|
    ensures Exec(a, t + u, n, r) == Exec(a, t, n, r)
  {
    if n > 0 {
      ExecPart(a, t, u, n - 1, r);
    }
  }

  lemma {:induction false} ExecBoth(a: Around, t: seq<Instr>, u: seq<Instr>, n: nat, r: Run)
    requires n <= |u|
    ensures Exec(a, t + u, |t| + n, r) == Exec(a, u, n, ExecAll(a, t, r))
  {
    if n == 0 {
      ExecPart(a, t, u, |t|, r);
    } else {
      ExecBoth(a, t, u, n - 1, r);
      assert (t + u)[|t| + n - 1] == u[n - 1];
    }
  }

  /** A table of different names in sequence, the variables it may set and those it looks at. */
  ghost predicate Naming(t: seq<Instr>, names: set<string>, touched: set<string>) {
    NamesOf(t, |t|) == names && TouchedBy(t, |t|) == touched && OnceEach(t, |t|) && InSequence(t, |t|)
  }

  lemma {:induction false} NamingPart(t: seq<Instr>, u: seq<Instr>, n: nat)
    requires n <= |t|
    ensures NamesOf(t + u, n) == NamesOf(t, n) && TouchedBy(t + u, n) == TouchedBy(t, n)
    ensures OnceEach(t + u, n) == OnceEach(t, n) && InSequence(t + u, n) == InSequence(t, n)
  {
    if n > 0 {
      NamingPart(t, u, n - 1);
    }
  }

  lemma {:induction false} NamingMore(t: seq<Instr>, u: seq<Instr>, n: nat)
    requires n <= |u| && OnceEach(t, |t|) && OnceEach(u, n) && InSequence(t, |t|) && InSequence(u, n)
    requires NamesOf(t, |t|) + TouchedBy(t, |t|) !! NamesOf(u, n)
    ensures NamesOf(t + u, |t| + n) == NamesOf(t, |t|) + NamesOf(u, n)
    ensures TouchedBy(t + u, |t| + n) == TouchedBy(t, |t|) + TouchedBy(u, n)
    ensures OnceEach(t + u, |t| + n) && InSequence(t + u, |t| + n)
  {
    if n == 0 {
      NamingPart(t, u, |t|);
    } else {
      NamingMore(t, u, n - 1);
      assert (t + u)[|t| + n - 1] == u[n - 1];
    }
  }

  lemma {:induction false} NamingBoth(t: seq<Instr>, u: seq<Instr>, names: set<string>, touched: set<string>,
                                      names2: set<string>, touched2: set<string>)
    requires Naming(t, names, touched) && Naming(u, names2, touched2) && names + touched !! names2
    ensures Naming(t + u, names + names2, touched + touched2)
  {
    NamingMore(t, u, |u|);
  }

  // ---------- the tables of the stages ----------

  lemma {:induction false} RuntimeNaming(w: World)
    ensures Naming(RuntimeTable(w), {"ipalib", "site_packages", "script", "bin", "home", "fips_mode"}, {})
  {
    var t := RuntimeTable(w);
    assert NamesOf(t, 1) == {"ipalib"} && TouchedBy(t, 1) == {} && OnceEach(t, 1) && InSequence(t, 1);
    assert NamesOf(t, 2) == {"ipalib", "site_packages"} && TouchedBy(t, 2) == {} && OnceEach(t, 2) && InSequence(t, 2);
    assert NamesOf(t, 3) == {"ipalib", "site_packages", "script"} && TouchedBy(t, 3) == {};
    assert OnceEach(t, 3) && InSequence(t, 3);
    assert NamesOf(t, 4) == {"ipalib", "site_packages", "script", "bin"} && TouchedBy(t, 4) == {};
    assert OnceEach(t, 4) && InSequence(t, 4);
    assert NamesOf(t, 5) == {"ipalib", "site_packages", "script", "bin", "home"} && TouchedBy(t, 5) == {};
    assert OnceEach(t, 5) && InSequence(t, 5);
  }

  lemma {:induction false} TreeNaming(w: World)
    ensures Naming(TreeTable(w), {"in_tree", "mode", "dot_ipa", "context"}, {"in_tree", "home"})
  {
    var t := TreeTable(w);
    assert NamesOf(t, 1) == {"in_tree"} && TouchedBy(t, 1) == {} && OnceEach(t, 1) && InSequence(t, 1);
    assert NamesOf(t, 2) == {"in_tree", "mode"} && TouchedBy(t, 2) == {"in_tree"} && OnceEach(t, 2) && InSequence(t, 2);
    assert NamesOf(t, 3) == {"in_tree", "mode", "dot_ipa"} && TouchedBy(t, 3) == {"in_tree", "home"};
    assert OnceEach(t, 3) && InSequence(t, 3);
  }

  lemma {:induction false} ConfdirNaming(w: World)
    ensures Naming(ConfdirTable(w), {"env_confdir", "confdir"}, {"env_confdir", "in_tree", "dot_ipa"})
  {
    var t := ConfdirTable(w);
    assert NamesOf(t, 1) == {"env_confdir"} && TouchedBy(t, 1) == {} && OnceEach(t, 1) && InSequence(t, 1);
    assert NamesOf(t, 2) == {"env_confdir"} && TouchedBy(t, 2) == {} && OnceEach(t, 2) && InSequence(t, 2);
  }

  lemma {:induction false} ConfsNaming()
    ensures Naming(CONFS_TABLE, {"conf", "conf_default", "nss_dir"}, {"confdir", "context"})
  {
    var t := CONFS_TABLE;
    assert NamesOf(t, 1) == {"conf"} && TouchedBy(t, 1) == {"confdir", "context"} && OnceEach(t, 1) && InSequence(t, 1);
    assert NamesOf(t, 2) == {"conf", "conf_default"} && TouchedBy(t, 2) == {"confdir", "context"};
    assert OnceEach(t, 2) && InSequence(t, 2);
  }

  lemma {:induction false} PathsNaming(w: World)
    ensures Naming(PathsTable(w), {"cache_dir", "tls_ca_cert", "plugins_on_demand"}, {"confdir", "context"})
  {
    var t := PathsTable(w);
    assert NamesOf(t, 1) == {"cache_dir"} && TouchedBy(t, 1) == {} && OnceEach(t, 1) && InSequence(t, 1);
    assert NamesOf(t, 2) == {"cache_dir", "tls_ca_cert"} && TouchedBy(t, 2) == {"confdir"};
    assert OnceEach(t, 2) && InSequence(t, 2);
    assert NamesOf(t, 3) == {"cache_dir", "tls_ca_cert"} && TouchedBy(t, 3) == {"confdir"};
    assert OnceEach(t, 3) && InSequence(t, 3);
  }

  lemma {:induction false} ServerNaming()
    ensures Naming(SERVER_TABLE, {"in_server", "logdir", "log"}, {"context", "in_tree", "in_server", "dot_ipa", "logdir"})
  {
    var t := SERVER_TABLE;
    assert NamesOf(t, 1) == {"in_server"} && TouchedBy(t, 1) == {"context"} && OnceEach(t, 1) && InSequence(t, 1);
    assert NamesOf(t, 2) == {"in_server", "logdir"} && TouchedBy(t, 2) == {"context", "in_tree", "in_server", "dot_ipa"};
    assert OnceEach(t, 2) && InSequence(t, 2);
  }

  lemma {:induction false} DomainNaming()
    ensures Naming(DOMAIN_TABLE, {"realm", "domain", "basedn"}, {"in_server", "context", "config_loaded", "realm", "domain"})
  {
    var t := DOMAIN_TABLE;
    assert NamesOf(t, 1) == {"realm"} && TouchedBy(t, 1) == {"in_server", "context", "config_loaded"};
    assert OnceEach(t, 1) && InSequence(t, 1);
    assert NamesOf(t, 2) == {"realm", "domain"} && TouchedBy(t, 2) == {"in_server", "context", "config_loaded", "realm"};
    assert OnceEach(t, 2) && InSequence(t, 2);
  }

  lemma {:induction false} TlsNaming()
    ensures Naming(TLS_TABLE, {"tls_version_min", "tls_version_max"}, {})
  {
    var t := TLS_TABLE;
    assert NamesOf(t, 1) == {"tls_version_min"} && TouchedBy(t, 1) == {} && OnceEach(t, 1) && InSequence(t, 1);
    assert NamesOf(t, 2) == {"tls_version_min"} && TouchedBy(t, 2) == {} && OnceEach(t, 2) && InSequence(t, 2);
    assert NamesOf(t, 3) == {"tls_version_min", "tls_version_max"} && TouchedBy(t, 3) == {};
    assert OnceEach(t, 3) && InSequence(t, 3);
  }

  const MODE: set<string> := {"mode"}

  function ConfTable(w: World): seq<Instr> { ConfdirTable(w) + CONFS_TABLE }

  /** What `_bootstrap` fills in, as one table. */
  function FilledTable(w: World): seq<Instr> { TreeTable(w) + ConfTable(w) + PathsTable(w) }

  lemma {:induction false} ConfNaming(w: World)
    ensures Naming(ConfTable(w), CONF_KEYS, {"env_confdir", "in_tree", "dot_ipa", "confdir", "context"})
  {
    ConfdirNaming(w);
    ConfsNaming();
    NamingBoth(ConfdirTable(w), CONFS_TABLE, {"env_confdir", "confdir"}, {"env_confdir", "in_tree", "dot_ipa"},
               {"conf", "conf_default", "nss_dir"}, {"confdir", "context"});
  }

  const FILLED_TOUCHED: set<string> := {"in_tree", "home", "env_confdir", "dot_ipa", "confdir", "context"}

  lemma {:induction false} TreeConfNaming(w: World)
    ensures Naming(TreeTable(w) + ConfTable(w), TREE_KEYS + MODE + CONF_KEYS, FILLED_TOUCHED)
  {
    TreeNaming(w);
    ConfNaming(w);
    NamingBoth(TreeTable(w), ConfTable(w), {"in_tree", "mode", "dot_ipa", "context"}, {"in_tree", "home"},
               CONF_KEYS, {"env_confdir", "in_tree", "dot_ipa", "confdir", "context"});
  }

  lemma {:induction false} FilledNaming(w: World)
    ensures Naming(FilledTable(w), FILLED_KEYS + MODE, FILLED_TOUCHED)
  {
    TreeConfNaming(w);
    PathsNaming(w);
    NamingBoth(TreeTable(w) + ConfTable(w), PathsTable(w), TREE_KEYS + MODE + CONF_KEYS, FILLED_TOUCHED,
               PATH_KEYS, {"confdir", "context"});
  }

  lemma {:induction false} FillIsTable(a: Around, r: Run)
    ensures FillRun(a, r) == ExecAll(a, FilledTable(a.world), r)
  {
    var t, u, v := TreeTable(a.world), ConfTable(a.world), PathsTable(a.world);
    ExecBoth(a, t + u, v, |v|, r);
    ExecBoth(a, t, u, |u|, r);
    ExecBoth(a, ConfdirTable(a.world), CONFS_TABLE, |CONFS_TABLE|, ExecAll(a, t, r));
  }

  const DOMAIN_NAMES: set<string> := {"realm", "domain", "basedn"}

  /** What `_finalize_core` fills in before it derives URIs. */
  const NAMES_TABLE := SERVER_TABLE + DOMAIN_TABLE

  const NAMES_TOUCHED: set<string> :=
    {"context", "in_tree", "in_server", "dot_ipa", "logdir", "config_loaded", "realm", "domain"}

  lemma {:induction false} NamesTouchedApart()
    ensures NAMES_TOUCHED !! URI_NAMES && CORE_KEYS + DOMAIN_NAMES !! URI_NAMES
  {
  }

  lemma {:induction false} NamesNaming()
    ensures Naming(NAMES_TABLE, CORE_KEYS + DOMAIN_NAMES, NAMES_TOUCHED)
  {
    ServerNaming();
    DomainNaming();
    NamingBoth(SERVER_TABLE, DOMAIN_TABLE, CORE_KEYS, {"context", "in_tree", "in_server", "dot_ipa", "logdir"},
               DOMAIN_NAMES, {"in_server", "context", "config_loaded", "realm", "domain"});
  }

  // ---------- URIs ----------

  const URI_NAMES: set<string> := {"xmlrpc_uri", "ldap_uri", "jsonrpc_uri", "server"}

  lemma {:induction false} UriNaming()
    ensures NamesOf(URI_TABLE, 4) == URI_NAMES && OnceEach(URI_TABLE, 4)
    ensures NamesOf(URI_TABLE, 0) == {} && NamesOf(URI_TABLE, 1) == {"xmlrpc_uri"}
  {
    var t := URI_TABLE;
    assert NamesOf(t, 1) == {"xmlrpc_uri"} && OnceEach(t, 1);
    assert NamesOf(t, 2) == {"xmlrpc_uri", "ldap_uri"} && OnceEach(t, 2);
    assert NamesOf(t, 3) == {"xmlrpc_uri", "ldap_uri", "jsonrpc_uri"} && OnceEach(t, 3);
  }

  function ServerOffer(d: Vars, prefix: string, suffix: string): Option<Value> {
    if "server" in d then Some(Str(prefix + Shown(d["server"]) + suffix)) else None
  }

  /** What is derived from the URI under another name, set or default. */
  function ParsedOffer(a: Around, d: Vars, from: string, json: bool): Option<Value> {
    var uri := UriOf(a, d, from);
    if Truthy(uri) && uri.Str? then Some(Str(Parsed(a.world, json, uri.text))) else None
  }

  /** What is offered for a missing URI: from a server known before, or from the URIs known afterwards. */
  function UriOffer(a: Around, before: Vars, after: Vars, key: string): Option<Value> {
    if key == "xmlrpc_uri" then ServerOffer(before, "https://", "/ipa/xml")
    else if key == "ldap_uri" then ServerOffer(before, "ldap://", "")
    else if key == "jsonrpc_uri" then ParsedOffer(a, after, "xmlrpc_uri", true)
    else if key == "server" then ParsedOffer(a, after, "jsonrpc_uri", false)
    else None
  }

  lemma {:induction false} LateUris(a: Around, r: Run, i: nat)
    requires ExecAll(a, URI_TABLE, r).e.None? && (i == 2 || i == 3)
    ensures var d := ExecAll(a, URI_TABLE, r).d; Settled(r.d, d, URI_TABLE[i].key, UriOffer(a, r.d, d, URI_TABLE[i].key))
  {
    var t := URI_TABLE;
    UriNaming();
    EntrySets(a, t, r, i);
    if t[i].key !in r.d {
      assert UnsetFrom(t, 4, 4, "xmlrpc_uri") && UnsetFrom(t, 4, 4, "jsonrpc_uri");
      assert UnsetFrom(t, 3, 4, "xmlrpc_uri") && UnsetFrom(t, 3, 4, "jsonrpc_uri");
      assert UnsetFrom(t, 2, 4, "xmlrpc_uri") by {
        UnsetHere(t, 2, 4, "xmlrpc_uri");
      }
      SameAtEnd(a, t, r, i);
    }
  }

  lemma {:induction false} UriSets(a: Around, r: Run, key: string)
    requires ExecAll(a, URI_TABLE, r).e.None?
    ensures var d := ExecAll(a, URI_TABLE, r).d; Settled(r.d, d, key, UriOffer(a, r.d, d, key))
  {
    var t := URI_TABLE;
    UriNaming();
    if key == "xmlrpc_uri" {
      EntrySets(a, t, r, 0);
    } else if key == "ldap_uri" {
      EntrySets(a, t, r, 1);
      SameAtStart(a, t, r, 1);
    } else if key == "jsonrpc_uri" {
      LateUris(a, r, 2);
    } else if key == "server" {
      LateUris(a, r, 3);
    } else {
      UnsetAll(t, 4, key);
      KeptFrom(a, t, 0, 4, r, key);
    }
  }

  lemma {:induction false} NotFaulty(a: Around, table: seq<Instr>, r: Run, i: nat)
    requires i < |table| && table[i].Ask? && ExecAll(a, table, r).e.None?
    ensures !Faulty(a, Exec(a, table, i, r).d, table[i].key, table[i].expr)
  {
    ExecGoes(a, table, i + 1, |table|, r);
    DoSets(a, table[i], Exec(a, table, i, r));
  }

  /** A missing URI is derived exactly if the one it is derived from is there. */
  lemma {:induction false} ParsedIff(a: Around, r: Run, i: nat)
    requires ExecAll(a, URI_TABLE, r).e.None? && (i == 2 || i == 3) && URI_TABLE[i].key !in r.d
    ensures var d, from := ExecAll(a, URI_TABLE, r).d, URI_TABLE[i].expr.from;
      ParsedOffer(a, d, from, URI_TABLE[i].expr.json).Some? <==> Truthy(UriOf(a, d, from))
  {
    var t := URI_TABLE;
    var from, key := t[i].expr.from, t[i].key;
    UriNaming();
    NotFaulty(a, t, r, i);
    ExecGoes(a, t, i, 4, r);
    OnceBefore(t, 4, i);
    UnsetAll(t, i, key);
    KeptFrom(a, t, 0, i, r, key);
    assert UnsetFrom(t, 4, 4, from);
    assert UnsetFrom(t, 3, 4, from);
    if i == 2 {
      UnsetHere(t, 2, 4, from);
    }
    KeptFrom(a, t, i, 4, r, from);
  }

  lemma {:induction false} ServerText(server: string)
    ensures var text := "https://" + server + "/ipa/xml"; Converted("xmlrpc_uri", Str(text)) == Str(text)
  {
    var text := "https://" + server + "/ipa/xml";
    assert text[0] == 'h' && text[|text| - 1] == 'l' && |text| > 8;
    assert StripLeft(text) == text && StripRight(text) == text;
  }

  /** What `_derive_uris` settles, and from what. */
  lemma {:induction false} UrisDerived(a: Around, r: Run)
    requires ExecAll(a, URI_TABLE, r).e.None?
    ensures var d := ExecAll(a, URI_TABLE, r).d;
      && ("jsonrpc_uri" in d <==> "jsonrpc_uri" in r.d || Truthy(UriOf(a, d, "xmlrpc_uri")))
      && ("server" in d <==> "server" in r.d || Truthy(UriOf(a, d, "jsonrpc_uri")))
  {
    UriSets(a, r, "jsonrpc_uri");
    UriSets(a, r, "server");
    if "jsonrpc_uri" !in r.d {
      ParsedIff(a, r, 2);
    }
    if "server" !in r.d {
      ParsedIff(a, r, 3);
    }
  }

  /** With only a server, all the URIs get a value. */
  lemma {:induction false} ServerGivesUris(a: Around, r: Run)
    requires ExecAll(a, URI_TABLE, r).e.None? && "server" in r.d && "xmlrpc_uri" !in r.d
    ensures var d := ExecAll(a, URI_TABLE, r).d;
      && {"xmlrpc_uri", "ldap_uri", "jsonrpc_uri", "server"} <= d.Keys
      && d["xmlrpc_uri"] == Str("https://" + Shown(r.d["server"]) + "/ipa/xml")
      && ("jsonrpc_uri" !in r.d ==>
            d["jsonrpc_uri"] == Converted("jsonrpc_uri", Str(Parsed(a.world, true, d["xmlrpc_uri"].text))))
  {
    UriSets(a, r, "xmlrpc_uri");
    UriSets(a, r, "ldap_uri");
    UriSets(a, r, "jsonrpc_uri");
    UriSets(a, r, "server");
    ServerText(Shown(r.d["server"]));
  }

  /** With only an XML-RPC URI, the JSON-RPC URI gets a value, and the server does unless that value is empty. */
  lemma {:induction false} XmlUriGivesServer(a: Around, r: Run)
    requires ExecAll(a, URI_TABLE, r).e.None? && "xmlrpc_uri" in r.d && Truthy(r.d["xmlrpc_uri"])
    requires "jsonrpc_uri" !in r.d && "server" !in r.d
    ensures var d := ExecAll(a, URI_TABLE, r).d;
      && r.d["xmlrpc_uri"].Str? && "jsonrpc_uri" in d
      && d["jsonrpc_uri"] == Converted("jsonrpc_uri", Str(Parsed(a.world, true, r.d["xmlrpc_uri"].text)))
      && ("server" in d <==> Truthy(d["jsonrpc_uri"]))
      && ("server" in d ==> d["jsonrpc_uri"].Str?)
      && ("server" in d ==> d["server"] == Converted("server", Str(Parsed(a.world, false, d["jsonrpc_uri"].text))))
  {
    UriSets(a, r, "xmlrpc_uri");
    UriSets(a, r, "jsonrpc_uri");
    UriSets(a, r, "server");
    UrisDerived(a, r);
  }
}
