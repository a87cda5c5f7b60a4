/** The class `Env` of ipalib/config.py: its methods carry out the stages, step by step. */
module EnvObject {
  import opened Common
  import opened EnvValue
  import opened EnvRun
  import opened EnvLaws
  import opened EnvTables
  import opened EnvUnion

  datatype Stage = Bootstrap | FinalizeCore | Finalize

  // ---------- stopped runs ----------

  lemma {:induction false} ProposeStops(r: Run, items: seq<Item>, i: nat, n: nat)
    requires i <= n <= |items| && ProposeAll(r, items, i).e.Some?
    ensures ProposeAll(r, items, n) == ProposeAll(r, items, i)
  {
    if i < n {
      ProposeStops(r, items, i, n - 1);
    }
  }

  lemma {:induction false} ExecStops(a: Around, table: seq<Instr>, i: nat, n: nat, r: Run)
    requires i <= n <= |table| && Exec(a, table, i, r).e.Some?
    ensures Exec(a, table, n, r) == Exec(a, table, i, r)
  {
    if i < n {
      ExecStops(a, table, i, n - 1, r);
    }
  }

  /** A stopped run stays as it is. */
  lemma {:induction false} Stopped(a: Around, table: seq<Instr>, r: Run)
    requires r.e.Some?
    ensures ExecAll(a, table, r) == r
  {
    ExecStops(a, table, 0, |table|, r);
  }

  lemma {:induction false} MergeStopped(r: Run, items: seq<Item>)
    requires r.e.Some?
    ensures ProposeAll(r, items, |items|) == r
  {
    ProposeStops(r, items, 0, |items|);
  }

  lemma {:induction false} FillStopped(a: Around, r: Run)
    requires r.e.Some?
    ensures FillRun(a, r) == r
  {
    Stopped(a, TreeTable(a.world), r);
    Stopped(a, ConfdirTable(a.world), r);
    Stopped(a, CONFS_TABLE, r);
    Stopped(a, PathsTable(a.world), r);
  }

  lemma {:induction false} DerivedStopped(a: Around, forced: bool, r: Run)
    requires r.e.Some?
    ensures DerivedRun(a, forced, r) == r
  {
    Stopped(a, SERVER_TABLE, r);
    Stopped(a, DOMAIN_TABLE, r);
    Stopped(a, URI_TABLE, r);
  }

  lemma {:induction false} FileStopped(w: World, key: string, r: Run)
    requires r.e.Some?
    ensures NamedFileRun(w, key, r) == r
  {
    MergeStopped(r, FileItems(w, Get(r.d, key)));
  }

  lemma {:induction false} BeforeStopped(a: Around, r: Run)
    requires r.e.Some?
    ensures ForceRun(a, r) == r && FilesRun(a.world, r) == r && BeforeRun(a, r) == r
  {
    Stopped(a, FORCED_TABLE, r);
    Stopped(a, URI_TABLE, r);
    FileStopped(a.world, "conf", r);
    FileStopped(a.world, "conf_default", r);
    DerivedStopped(a, IsForced(r.d), r);
  }

  lemma {:induction false} CoreStopped(a: Around, r: Run)
    requires r.e.Some?
    ensures CoreRun(a, r) == r
  {
    BeforeStopped(a, r);
    MergeStopped(r, a.defaults);
    Stopped(a, TLS_TABLE, r);
  }

  /** A table to be carried out, from a given moment on. */
  datatype Task = Task(a: Around, table: seq<Instr>, start: Run) {
    ghost function After(i: nat): Run
      requires i <= |table|
    {
      Exec(a, table, i, start)
    }

    ghost function End(): Run { After(|table|) }
  }

  /** One more entry of a table is done; a failed one is the last. */
  lemma {:induction false} Stepped(k: Task, i: nat, s: Run)
    requires i < |k.table| && s == Do(k.a, k.table[i], k.After(i))
    ensures s == k.After(i + 1) && (s.e.Some? ==> s == k.End())
  {
    if s.e.Some? {
      ExecStops(k.a, k.table, i + 1, |k.table|, k.start);
    }
  }

  /** What `_finalize` does after the last merge. */
  function Sealed(r: Run): Run {
    if r.e.Some? then r else if r.locked then r.(e := Some(AlreadyCalled)) else r.(locked := true)
  }

  class Env {
    var d: Vars
    var done: set<Stage>
    var locked: bool

    /** The run this environment stands for, when a call ended with `e`. */
    ghost function At(e: Option<Error>): Run
      reads this
    {
      Run(d, locked, e)
    }

    constructor ()
      ensures At(None) == EMPTY && done == {}
    {
      d, done, locked := map[], {}, false;
    }

    method SetItem(key: string, value: Value) returns (e: Option<Error>)
      modifies this`d
      ensures At(e) == Place(old(At(None)), key, value)
      ensures e.None? ==> key !in old(d) && !old(locked) && d == old(d)[key := Converted(key, value)]
      ensures e.None? ==> KeptAs(key, value, d[key])
      ensures e.Some? ==> d == old(d)
    {
      if locked {
        return Some(Locked);
      }
      if !NameOk(key) {
        return Some(BadName);
      }
      if key in d {
        return Some(AlreadySet);
      }
      if value.Object? {
        return Some(BadValue(key));
      }
      d := d[key := Converted(key, value)];
      ConvertedKept(key, value);
      return None;
    }

    /** Set a variable that is still missing. */
    method Fill(key: string, value: Value) returns (e: Option<Error>, taken: bool)
      modifies this`d
      ensures At(e) == Propose(old(At(None)), key, value)
      ensures taken == (e.None? && key !in old(d)) && |d| == |old(d)| + (if taken then 1 else 0)
      ensures e.None? ==> key in d && d[key] == if key in old(d) then old(d)[key] else Converted(key, value)
      ensures e.Some? ==> d == old(d)
    {
      if key !in d {
        e := SetItem(key, value);
        taken := e.None?;
      } else {
          e, taken := None, false;
      }
    }

    /** Merge a layer; the count is the number of variables actually set. */
    method Merge(items: seq<Item>) returns (e: Option<Error>, count: nat)
      modifies this`d
      ensures At(e) == ProposeAll(old(At(None)), items, |items|)
      ensures |d| == |old(d)| + count
    {
      var i := 0;
      count := 0;
      while i < |items|
        invariant 0 <= i <= |items| && At(None) == ProposeAll(old(At(None)), items, i)
        invariant |d| == |old(d)| + count
      {
        var fail, taken := Fill(items[i].0, items[i].1);
        if fail.Some? {
          ProposeStops(old(At(None)), items, i + 1, |items|);
          return fail, count;
        }
        count := if taken then count + 1 else count;
        i := i + 1;
      }
      return None, count;
    }

    method MergeFromFile(world: World, file: Value) returns (e: Option<Error>)
      modifies this`d
      ensures At(e) == FileRun(world, file, old(At(None)))
    {
      if !file.Str? {
        ProposeStops(StopOn(At(None), Some(Crash)), [], 0, 0);
        return Some(Crash);
      }
      if file.text !in world.files || world.files[file.text].None? {
        return None;
      }
      var items := TextItems(world.files[file.text].value);
      var count, taken;
      e, count := Merge(items);
      if e.None? && items != [] {
        e, taken := Fill("config_loaded", Bool(true));
      }
    }

    // ----- the entries of a stage -----

    method PutNext(ghost k: Task, ghost i: nat, key: string, value: Value) returns (e: Option<Error>)
      requires i < |k.table| && At(None) == k.After(i) && k.table[i] == Put(key, Given(value))
      modifies this`d
      ensures At(e) == k.After(i + 1) && (e.Some? ==> At(e) == k.End())
      ensures e.None? ==> key !in old(d) && d == old(d)[key := Converted(key, value)]
    {
      e := SetItem(key, value);
      Stepped(k, i, At(e));
    }

    method AskNext(ghost k: Task, ghost i: nat, key: string, ghost expr: Expr, value: Value)
      returns (e: Option<Error>)
      requires i < |k.table| && At(None) == k.After(i) && k.table[i] == Ask(key, expr)
      requires !Faulty(k.a, d, key, expr) && Eval(k.a, d, key, expr) == Some(value)
      modifies this`d
      ensures At(e) == k.After(i + 1) && (e.Some? ==> At(e) == k.End())
      ensures e.None? && key !in old(d) ==> d == old(d)[key := Converted(key, value)]
    {
      var taken;
      e, taken := Fill(key, value);
      Stepped(k, i, At(e));
    }

    /** Set a missing variable to a path below another one. */
    method JoinNext(ghost k: Task, ghost i: nat, key: string, base: string, part: string)
      returns (e: Option<Error>)
      requires i < |k.table| && At(None) == k.After(i) && k.table[i] == Ask(key, Path(base, part))
      modifies this`d
      ensures At(e) == k.After(i + 1) && (e.Some? ==> At(e) == k.End())
      ensures e.None? && key !in old(d) ==> d == old(d)[key := Converted(key, Below(old(d), base, part))]
    {
      if key !in d && base in d && d[base] != Null && !d[base].Str? {
        Stepped(k, i, At(Some(Crash)));
        return Some(Crash);
      }
      e := AskNext(k, i, key, Path(base, part), Below(d, base, part));
    }

    /** Set a missing variable to a path named after the context. */
    method JoinContextNext(ghost k: Task, ghost i: nat, key: string, base: string, suffix: string)
      returns (e: Option<Error>)
      requires i < |k.table| && At(None) == k.After(i) && k.table[i] == Ask(key, ContextPath(base, suffix))
      modifies this`d
      ensures At(e) == k.After(i + 1) && (e.Some? ==> At(e) == k.End())
    {
      if key !in d && ("context" !in d || (base in d && d[base] != Null && !d[base].Str?)) {
        Stepped(k, i, At(Some(Crash)));
        return Some(Crash);
      }
      e := AskNext(k, i, key, ContextPath(base, suffix), BelowContext(d, base, suffix));
    }

    /** Set a missing variable to whether the context is the named one. */
    method IsContextNext(ghost k: Task, ghost i: nat, key: string, name: string) returns (e: Option<Error>)
      requires i < |k.table| && At(None) == k.After(i) && k.table[i] == Ask(key, ContextIs(name))
      modifies this`d
      ensures At(e) == k.After(i + 1) && (e.Some? ==> At(e) == k.End())
    {
      if key !in d && "context" !in d {
        Stepped(k, i, At(Some(Crash)));
        return Some(Crash);
      }
      e := AskNext(k, i, key, ContextIs(name), Bool(Get(d, "context") == Str(name)));
    }

    // ----- _bootstrap -----

    method SetRuntime(a: Around) returns (e: Option<Error>)
      modifies this`d
      ensures At(e) == ExecAll(a, RuntimeTable(a.world), old(At(None)))
    {
      ghost var k := Task(a, RuntimeTable(a.world), At(None));
      e := PutNext(k, 0, "ipalib", Str(a.world.ipalib));
      if e.Some? { return; }
      e := PutNext(k, 1, "site_packages", Str(a.world.sitePackages));
      if e.Some? { return; }
      e := PutNext(k, 2, "script", Str(a.world.script));
      if e.Some? { return; }
      e := PutNext(k, 3, "bin", Str(a.world.bin));
      if e.Some? { return; }
      e := PutNext(k, 4, "home", HomeOf(a.world));
      if e.Some? { return; }
      e := PutNext(k, 5, "fips_mode", Bool(a.world.fips));
    }

    method FillContext(a: Around) returns (e: Option<Error>)
      modifies this`d
      ensures At(e) == ExecAll(a, TreeTable(a.world), old(At(None)))
    {
      ghost var k := Task(a, TreeTable(a.world), At(None));
      e := AskNext(k, 0, "in_tree", Given(Bool(a.world.inTree)), Bool(a.world.inTree));
      if e.Some? { return; }
      if Truthy(Get(d, "in_tree")) {
        e := AskNext(k, 1, "mode", IfTree(Str("developer")), Str("developer"));
        if e.Some? { return; }
      } else {
        Stepped(k, 1, At(None));
      }
      e := JoinNext(k, 2, "dot_ipa", "home", ".ipa");
      if e.Some? { return; }
      e := AskNext(k, 3, "context", Given(Str("default")), Str("default"));
    }

    method FillConfdir(a: Around) returns (e: Option<Error>)
      modifies this`d
      ensures At(e) == ExecAll(a, ConfdirTable(a.world), old(At(None)))
    {
      ghost var k := Task(a, ConfdirTable(a.world), At(None));
      e := PutNext(k, 0, "env_confdir", VariableOf(a.world));
      if e.Some? { return; }
      var dir := d["env_confdir"];
      if dir != Null {
        if "confdir" in d {
          e := Some(EnvironmentError);
        } else if !dir.Str? {
          e := Some(Crash);
        } else if !a.world.confdirVarOk {
          e := Some(EnvironmentError);
        }
      }
      Stepped(k, 1, At(e));
      if e.Some? { return; }
      var confdir := if dir != Null then dir else if Truthy(Get(d, "in_tree")) then Get(d, "dot_ipa") else Str("/etc/ipa");
      e := AskNext(k, 2, "confdir", Confdir, confdir);
    }

    method FillConfs(a: Around) returns (e: Option<Error>)
      modifies this`d
      ensures At(e) == ExecAll(a, CONFS_TABLE, old(At(None)))
    {
      ghost var k := Task(a, CONFS_TABLE, At(None));
      e := JoinContextNext(k, 0, "conf", "confdir", ".conf");
      if e.Some? { return; }
      e := JoinNext(k, 1, "conf_default", "confdir", "default.conf");
      if e.Some? { return; }
      e := JoinNext(k, 2, "nss_dir", "confdir", "nssdb");
    }

    method FillPaths(a: Around) returns (e: Option<Error>)
      modifies this`d
      ensures At(e) == ExecAll(a, PathsTable(a.world), old(At(None)))
    {
      ghost var k := Task(a, PathsTable(a.world), At(None));
      var cache := Str(Join(a.world.cachePath, "ipa"));
      e := AskNext(k, 0, "cache_dir", Given(cache), cache);
      if e.Some? { return; }
      e := JoinNext(k, 1, "tls_ca_cert", "confdir", "ca.crt");
      if e.Some? { return; }
      var cert := Get(d, "tls_ca_cert");
      if !cert.Str? {
        e := Some(Crash);
      } else if cert.text == "" || cert.text[0] != '/' {
        e := Some(EnvironmentError);
      }
      Stepped(k, 2, At(e));
      if e.Some? { return; }
      e := IsContextNext(k, 3, "plugins_on_demand", "cli");
    }

    method FillMissing(a: Around) returns (e: Option<Error>)
      modifies this`d
      ensures At(e) == FillRun(a, old(At(None)))
    {
      e := FillContext(a);
      if e.Some? {
        Stopped(a, ConfdirTable(a.world), At(e));
        Stopped(a, CONFS_TABLE, At(e));
        Stopped(a, PathsTable(a.world), At(e));
        return;
      }
      e := FillConfdir(a);
      if e.Some? {
        Stopped(a, CONFS_TABLE, At(e));
        Stopped(a, PathsTable(a.world), At(e));
        return;
      }
      e := FillConfs(a);
      if e.Some? {
        Stopped(a, PathsTable(a.world), At(e));
        return;
      }
      e := FillPaths(a);
    }

    method Bootstrap(world: World, overrides: seq<Item>) returns (e: Option<Error>)
      modifies this`d, this`done
      ensures done == old(done) + {Stage.Bootstrap}
      ensures Stage.Bootstrap in old(done) ==> At(e) == old(At(Some(AlreadyCalled)))
      ensures Stage.Bootstrap !in old(done) ==> At(e) == BootRun(Around(world, []), overrides, old(At(None)))
    {
      if Stage.Bootstrap in done {
        return Some(AlreadyCalled);
      }
      done := done + {Stage.Bootstrap};
      var a, count := Around(world, []), 0;
      e := SetRuntime(a);
      if e.Some? {
        MergeStopped(At(e), overrides);
        FillStopped(a, At(e));
        return;
      }
      e, count := Merge(overrides);
      if e.Some? {
        FillStopped(a, At(e));
        return;
      }
      e := FillMissing(a);
    }

    // ----- _finalize_core -----

    method DeriveUris(a: Around) returns (e: Option<Error>)
      modifies this`d
      ensures At(e) == ExecAll(a, URI_TABLE, old(At(None)))
    {
      ghost var k := Task(a, URI_TABLE, At(None));
      if "server" in d {
        var xml := Str("https://" + Shown(d["server"]) + "/ipa/xml");
        e := AskNext(k, 0, "xmlrpc_uri", ServerUri("https://", "/ipa/xml"), xml);
        if e.Some? { return; }
        assert "server" in d;
        e := AskNext(k, 1, "ldap_uri", ServerUri("ldap://", ""), Str("ldap://" + Shown(d["server"]) + ""));
        if e.Some? { return; }
      } else {
        Stepped(k, 0, At(None));
        Stepped(k, 1, At(None));
      }
      e := DeriveNext(k, 2, a, "jsonrpc_uri", "xmlrpc_uri", true);
      if e.Some? { return; }
      e := DeriveNext(k, 3, a, "server", "jsonrpc_uri", false);
    }

    /** Derive a missing variable from the URI under another name, set or default. */
    method DeriveNext(ghost k: Task, ghost i: nat, a: Around, key: string, from: string, json: bool)
      returns (e: Option<Error>)
      requires a == k.a && i < |k.table| && At(None) == k.After(i) && k.table[i] == Ask(key, ParsedUri(from, json))
      modifies this`d
      ensures At(e) == k.After(i + 1) && (e.Some? ==> At(e) == k.End())
    {
      e := None;
      if key !in d {
        var uri := if from in d then d[from] else LookUp(a.defaults, from);
        if Truthy(uri) {
          if uri.Str? {
            e := SetItem(key, Str(Parsed(a.world, json, uri.text)));
          } else {
            e := Some(Crash);
          }
        }
      }
      Stepped(k, i, At(e));
    }

    method ForceServer(a: Around) returns (e: Option<Error>, derived: bool)
      modifies this`d
      ensures At(e) == ForceRun(a, old(At(None))) && derived == IsForced(old(d))
    {
      e, derived := None, "forced_server" in d && "server" !in d;
      if derived {
        ghost var k := Task(a, FORCED_TABLE, At(None));
        e := SetItem("server", d["forced_server"]);
        Stepped(k, 0, At(e));
        if e.Some? {
          Stopped(a, URI_TABLE, At(e));
          return;
        }
        e := DeriveUris(a);
      }
    }

    method MergeNamedFile(world: World, key: string) returns (e: Option<Error>)
      modifies this`d
      ensures At(e) == NamedFileRun(world, key, old(At(None)))
    {
      if key !in d {
        MergeStopped(At(Some(Crash)), []);
        return Some(Crash);
      }
      e := MergeFromFile(world, d[key]);
    }

    method MergeFiles(world: World) returns (e: Option<Error>)
      modifies this`d
      ensures At(e) == FilesRun(world, old(At(None)))
    {
      e := None;
      if !Dummy(d) {
        e := MergeNamedFile(world, "conf");
        if e.Some? {
          FileStopped(world, "conf_default", At(e));
          return;
        }
        e := MergeNamedFile(world, "conf_default");
      }
    }

    method FillServer(a: Around) returns (e: Option<Error>)
      modifies this`d
      ensures At(e) == ExecAll(a, SERVER_TABLE, old(At(None)))
    {
      ghost var k := Task(a, SERVER_TABLE, At(None));
      e := IsContextNext(k, 0, "in_server", "server");
      if e.Some? { return; }
      if "logdir" !in d && ("in_tree" !in d || (LogsAtHome(d) && Unjoinable(d, "logdir", "dot_ipa"))) {
        Stepped(k, 1, At(Some(Crash)));
        return Some(Crash);
      }
      e := AskNext(k, 1, "logdir", LogDir, LogDirOf(d));
      if e.Some? { return; }
      e := JoinContextNext(k, 2, "log", "logdir", ".log");
    }

    /** Reserved names for an uninstallation without configuration, and the base DN of the domain. */
    method FillDomain(a: Around) returns (e: Option<Error>)
      modifies this`d
      ensures At(e) == ExecAll(a, DOMAIN_TABLE, old(At(None)))
    {
      ghost var k := Task(a, DOMAIN_TABLE, At(None));
      if Truthy(Get(d, "in_server")) && "context" !in d {
        Stepped(k, 0, At(Some(Crash)));
        return Some(Crash);
      }
      if Unconfigured(d) {
        e := AskNext(k, 0, "realm", Realm, Str("UNCONFIGURED.INVALID"));
        if e.Some? { return; }
      } else {
        Stepped(k, 0, At(None));
      }
      e := FillDomainNext(k);
      if e.Some? { return; }
      e := FillBaseDnNext(k);
    }

    method FillDomainNext(ghost k: Task) returns (e: Option<Error>)
      requires k.table == DOMAIN_TABLE && At(None) == k.After(1)
      modifies this`d
      ensures At(e) == k.After(2) && (e.Some? ==> At(e) == k.End())
    {
      e := None;
      if Unconfigured(d) && "realm" in d {
        if "domain" !in d && !d["realm"].Str? {
          Stepped(k, 1, At(Some(Crash)));
          return Some(Crash);
        }
        e := AskNext(k, 1, "domain", Domain, DomainOf(d["realm"]));
      } else if Unconfigured(d) && "domain" !in d {
        Stepped(k, 1, At(Some(Crash)));
        return Some(Crash);
      } else {
        Stepped(k, 1, At(None));
      }
    }

    method FillBaseDnNext(ghost k: Task) returns (e: Option<Error>)
      requires k.table == DOMAIN_TABLE && At(None) == k.After(2)
      modifies this`d
      ensures At(e) == k.End()
    {
      e := None;
      if "basedn" !in d && "domain" in d {
        if d["domain"].Str? {
          e := AskNext(k, 2, "basedn", BaseDn, Dn(DomainDn(d["domain"].text)));
          return;
        }
        e := Some(Crash);
      }
      Stepped(k, 2, At(e));
    }

    method CheckTls(a: Around) returns (e: Option<Error>)
      modifies this`d
      ensures At(e) == ExecAll(a, TLS_TABLE, old(At(None)))
    {
      ghost var k := Task(a, TLS_TABLE, At(None));
      e := AskNext(k, 0, "tls_version_min", Given(Null), Null);
      if e.Some? { return; }
      var low := Get(d, "tls_version_min");
      if low != Null && TlsRank(low) < 0 {
        e := Some(EnvironmentError);
      }
      Stepped(k, 1, At(e));
      if e.Some? { return; }
      e := AskNext(k, 2, "tls_version_max", Given(Null), Null);
      if e.Some? { return; }
      var high := Get(d, "tls_version_max");
      if high != Null && TlsRank(high) < 0 {
        e := Some(EnvironmentError);
      } else if low != Null && high != Null && TlsRank(high) < TlsRank(low) {
        e := Some(EnvironmentError);
      }
      Stepped(k, 3, At(e));
    }

    method FillDerived(a: Around, derived: bool) returns (e: Option<Error>)
      modifies this`d
      ensures At(e) == DerivedRun(a, derived, old(At(None)))
    {
      e := FillServer(a);
      if e.Some? {
        Stopped(a, DOMAIN_TABLE, At(e));
        Stopped(a, URI_TABLE, At(e));
        return;
      }
      e := FillDomain(a);
      if e.Some? {
        Stopped(a, URI_TABLE, At(e));
        return;
      }
      if !derived {
        e := DeriveUris(a);
      }
    }

    /** Everything before the defaults are merged. */
    method BeforeDefaults(a: Around) returns (e: Option<Error>)
      modifies this`d
      ensures At(e) == BeforeRun(a, old(At(None)))
    {
      var derived;
      e, derived := ForceServer(a);
      if e.Some? {
        BeforeStopped(a, At(e));
        DerivedStopped(a, derived, At(e));
        return;
      }
      e := MergeFiles(a.world);
      if e.Some? {
        DerivedStopped(a, derived, At(e));
        return;
      }
      e := FillDerived(a, derived);
    }

    method CoreSteps(a: Around) returns (e: Option<Error>)
      modifies this`d
      ensures At(e) == CoreRun(a, old(At(None)))
    {
      e := BeforeDefaults(a);
      if e.Some? {
        MergeStopped(At(e), a.defaults);
        Stopped(a, TLS_TABLE, At(e));
        return;
      }
      var count;
      e, count := Merge(a.defaults);
      if e.Some? {
        Stopped(a, TLS_TABLE, At(e));
        return;
      }
      e := CheckTls(a);
    }

    method FinalizeCore(world: World, defaults: seq<Item>) returns (e: Option<Error>)
      modifies this`d, this`done
      ensures Stage.FinalizeCore in old(done) ==> At(e) == old(At(Some(AlreadyCalled))) && done == old(done)
      ensures Stage.FinalizeCore !in old(done) ==>
        && done == old(done) + {Stage.FinalizeCore, Stage.Bootstrap}
        && At(e) == CoreRun(Around(world, defaults), BootedRun(world, old(done), old(At(None))))
    {
      if Stage.FinalizeCore in done {
        return Some(AlreadyCalled);
      }
      done := done + {Stage.FinalizeCore};
      if Stage.Bootstrap !in done {
        e := Bootstrap(world, []);
        if e.Some? {
          CoreStopped(Around(world, defaults), At(e));
          return;
        }
      }
      e := CoreSteps(Around(world, defaults));
    }

    // ----- _finalize -----

    method Lock() returns (e: Option<Error>)
      modifies this`locked
      ensures At(e) == Sealed(old(At(None)))
    {
      e := if locked then Some(AlreadyCalled) else None;
      locked := true;
    }

    method Finalize(world: World, lastChance: seq<Item>) returns (e: Option<Error>)
      modifies this
      ensures Stage.Finalize in old(done) ==> At(e) == old(At(Some(AlreadyCalled))) && done == old(done)
      ensures Stage.Finalize !in old(done) ==>
        && done == old(done) + {Stage.Finalize}
             + (if Stage.FinalizeCore in old(done) then {} else {Stage.FinalizeCore, Stage.Bootstrap})
        && At(e) == Sealed(ProposeAll(CoredRun(world, old(done), old(At(None))), lastChance, |lastChance|))
    {
      if Stage.Finalize in done {
        return Some(AlreadyCalled);
      }
      done := done + {Stage.Finalize};
      if Stage.FinalizeCore !in done {
        e := FinalizeCore(world, []);
        if e.Some? {
          MergeStopped(At(e), lastChance);
          return;
        }
      }
      var count;
      e, count := Merge(lastChance);
      if e.None? {
        e := Lock();
      }
    }
  }

  /** `_bootstrap` without overrides, unless it was called. */
  function BootedRun(world: World, done: set<Stage>, r: Run): Run {
    if Stage.Bootstrap in done then r else BootRun(Around(world, []), [], r)
  }

  /** `_finalize_core` without defaults, unless it was called. */
  function CoredRun(world: World, done: set<Stage>, r: Run): Run {
    if Stage.FinalizeCore in done then r else CoreRun(Around(world, []), BootedRun(world, done, r))
  }

  // ---------- whole runs ----------

  /** What stays between any two moments: variables never change, and a lock freezes them for good. */
  ghost predicate Kept(a: Run, b: Run) {
    Grows(a.d, b.d) && (a.locked ==> b.locked && b.d == a.d) && (Clean(a.d) ==> Clean(b.d))
  }

  lemma {:induction false} GrownIsKept(a: Run, b: Run)
    requires Grown(a, b)
    ensures Kept(a, b) && Kept(a, Sealed(b))
  {
  }

  ghost predicate StagesInOrder(done: set<Stage>) {
    && (Stage.Finalize in done ==> Stage.FinalizeCore in done)
    && (Stage.FinalizeCore in done ==> Stage.Bootstrap in done)
  }

  lemma {:induction false} BootKept(a: Around, overrides: seq<Item>, r: Run)
    ensures Grown(r, BootRun(a, overrides, r))
  {
    BootStage(a, overrides, r);
  }

  lemma {:induction false} CoreKept(a: Around, done: set<Stage>, r: Run)
    ensures Grown(r, CoreRun(a, BootedRun(a.world, done, r)))
  {
    var booted := BootedRun(a.world, done, r);
    BootKept(Around(a.world, []), [], r);
    CoreStage(a, booted);
    GrownAll(r, booted, CoreRun(a, booted));
  }

  lemma {:induction false} LastKept(world: World, done: set<Stage>, r: Run, items: seq<Item>)
    ensures Grown(r, ProposeAll(CoredRun(world, done, r), items, |items|))
  {
    var core := CoredRun(world, done, r);
    CoreKept(Around(world, []), done, r);
    ItemsStage(core, items, |items|);
    GrownAll(r, core, ProposeAll(core, items, |items|));
  }

  datatype Call =
    | SetOne(key: string, value: Value)
    | MergeLayer(items: seq<Item>)
    | MergeFile(file: Value)
    | BootstrapWith(overrides: seq<Item>)
    | FinalizeCoreWith(defaults: seq<Item>)
    | FinalizeWith(lastChance: seq<Item>)
    | LockIt

  method Invoke(env: Env, world: World, call: Call)
    modifies env
    ensures Kept(old(env.At(None)), env.At(None)) && (StagesInOrder(old(env.done)) ==> StagesInOrder(env.done))
  {
    var e, count;
    ghost var r, done := env.At(None), env.done;
    match call {
      case SetOne(key, value) =>
        e := env.SetItem(key, value);
        PlaceStage(r, key, value);
        GrownIsKept(r, env.At(e));
      case MergeLayer(items) =>
        e, count := env.Merge(items);
        ItemsStage(r, items, |items|);
        GrownIsKept(r, env.At(e));
      case MergeFile(file) =>
        e := env.MergeFromFile(world, file);
        FileStage(world, file, r);
        GrownIsKept(r, env.At(e));
      case BootstrapWith(overrides) =>
        e := env.Bootstrap(world, overrides);
        BootKept(Around(world, []), overrides, r);
        GrownIsKept(r, BootRun(Around(world, []), overrides, r));
      case FinalizeCoreWith(defaults) =>
        e := env.FinalizeCore(world, defaults);
        CoreKept(Around(world, defaults), done, r);
        GrownIsKept(r, CoreRun(Around(world, defaults), BootedRun(world, done, r)));
      case FinalizeWith(lastChance) =>
        e := env.Finalize(world, lastChance);
        LastKept(world, done, r, lastChance);
        GrownIsKept(r, ProposeAll(CoredRun(world, done, r), lastChance, |lastChance|));
      case LockIt =>
        e := env.Lock();
    }
  }

  /** Over every run, failed calls included, variables stay as first set, a lock freezes them, stages go in order. */
  method Perform(env: Env, world: World, calls: seq<Call>)
    requires Clean(env.d) && StagesInOrder(env.done)
    modifies env
    ensures Kept(old(env.At(None)), env.At(None)) && Clean(env.d) && StagesInOrder(env.done)
  {
    for i := 0 to |calls|
      invariant Kept(old(env.At(None)), env.At(None)) && Clean(env.d) && StagesInOrder(env.done)
    {
      Invoke(env, world, calls[i]);
    }
  }

  // ---------- the standard run ----------

  predicate NoUris(table: seq<Instr>) {
    forall i :: 0 <= i < |table| ==> table[i].Test? || !table[i].expr.ParsedUri?
  }

  lemma {:induction false} ExecSame(a: Around, b: Around, table: seq<Instr>, n: nat, r: Run)
    requires a.world == b.world && n <= |table| && NoUris(table)
    ensures Exec(a, table, n, r) == Exec(b, table, n, r)
  {
    if n > 0 {
      ExecSame(a, b, table, n - 1, r);
      EvalSame(a, b, Exec(a, table, n - 1, r).d, table[n - 1]);
    }
  }

  lemma {:induction false} EvalSame(a: Around, b: Around, d: Vars, instr: Instr)
    requires a.world == b.world && (instr.Test? || !instr.expr.ParsedUri?)
    ensures instr.Test? ==> Checked(a, d, instr.check) == Checked(b, d, instr.check)
    ensures !instr.Test? ==> Eval(a, d, instr.key, instr.expr) == Eval(b, d, instr.key, instr.expr)
    ensures !instr.Test? ==> Faulty(a, d, instr.key, instr.expr) == Faulty(b, d, instr.key, instr.expr)
  {
  }

  /** `_bootstrap` does not depend on the defaults. */
  lemma {:induction false} BootSame(a: Around, b: Around, overrides: seq<Item>, r: Run)
    requires a.world == b.world
    ensures BootRun(a, overrides, r) == BootRun(b, overrides, r)
  {
    var w := a.world;
    ExecSame(a, b, RuntimeTable(w), 6, r);
    var r1 := ProposeAll(ExecAll(a, RuntimeTable(w), r), overrides, |overrides|);
    ExecSame(a, b, TreeTable(w), 4, r1);
    var r2 := ExecAll(a, TreeTable(w), r1);
    ExecSame(a, b, ConfdirTable(w), 3, r2);
    var r3 := ExecAll(a, ConfdirTable(w), r2);
    ExecSame(a, b, CONFS_TABLE, 3, r3);
    ExecSame(a, b, PathsTable(w), 4, ExecAll(a, CONFS_TABLE, r3));
  }

  lemma {:induction false} StartFacts(inp: Inputs)
    ensures Boot(inp) == BootRun(Around(inp.a.world, []), inp.overrides, EMPTY) && !Boot(inp).locked && !Layers(inp).locked
    ensures Boot(inp).e.Some? ==> Layers(inp) == Boot(inp)
    ensures CoreRun(inp.a, Boot(inp)).e.Some? ==> Layers(inp) == CoreRun(inp.a, Boot(inp))
  {
    BootSame(Around(inp.a.world, []), inp.a, inp.overrides, EMPTY);
    AfterBoot(inp);
    AfterAll(inp);
    AfterGrown(inp, 0, 3);
    AfterGrown(inp, 3, 10);
    AfterGrown(inp, 9, 10);
  }

  /** The variables are the left-biased union of the layers. */
  ghost predicate IsUnion(inp: Inputs, d: Vars) {
    forall key :: Settled(map[], d, key, FirstOffer(inp, 10, key))
  }

  lemma {:induction false} LayersAreUnion(inp: Inputs)
    requires Layers(inp).e.None?
    ensures IsUnion(inp, Layers(inp).d)
  {
    forall key
      ensures Settled(map[], Layers(inp).d, key, FirstOffer(inp, 10, key))
    {
      UnionOfLayers(inp, key);
    }
  }

  /** The standard run ends with the union of its layers, locked exactly if no stage failed. */
  method Start(inp: Inputs) returns (env: Env, e: Option<Error>)
    ensures fresh(env) && e == Layers(inp).e && env.d == Layers(inp).d && env.locked == e.None?
    ensures e.None? ==> env.done == {Stage.Bootstrap, Stage.FinalizeCore, Stage.Finalize}
    ensures e.None? ==> IsUnion(inp, env.d)
  {
    if Layers(inp).e.None? {
      LayersAreUnion(inp);
    }
    StartFacts(inp);
    env := new Env();
    e := env.Bootstrap(inp.a.world, inp.overrides);
    if e.None? {
      e := Finish(env, inp);
    }
  }

  /** The stages after `_bootstrap`. */
  method Finish(env: Env, inp: Inputs) returns (e: Option<Error>)
    requires env.At(None) == Boot(inp) && env.done == {Stage.Bootstrap}
    modifies env
    ensures env.At(e) == Sealed(Layers(inp))
    ensures e.None? ==> env.done == {Stage.Bootstrap, Stage.FinalizeCore, Stage.Finalize}
  {
    StartFacts(inp);
    e := env.FinalizeCore(inp.a.world, inp.a.defaults);
    assert env.At(e) == CoreRun(inp.a, Boot(inp));
    if e.None? {
      e := env.Finalize(inp.a.world, inp.lastChance);
    }
  }
}
