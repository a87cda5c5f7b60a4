/**
 The variables of the standard run of ipalib/config.py, spelled out: what `_bootstrap` and `_finalize_core` fill in where
 nothing else is given, and what a run that goes through has checked.
 */
module EnvFinal {
  import opened Common
  import opened EnvValue
  import opened EnvRun
  import opened EnvLaws
  import opened EnvTables
  import opened EnvUnion
  import opened EnvValues

  // ---------- paths, names and versions ----------

  /** A directory that a relative path is put below with a slash between them. */
  predicate Directory(dir: string) { dir != "" && dir[|dir| - 1] != '/' }

  predicate Relative(part: string) { part == "" || part[0] != '/' }

  lemma {:induction false} BelowIs(d: Vars, base: string, dir: string, part: string)
    ensures Get(d, base) == Str(dir) && Directory(dir) && Relative(part) ==> Below(d, base, part) == Str(dir + "/" + part)
    ensures Get(d, base) == Null ==> Below(d, base, part) == Null
  {
  }

  /** One `dc` component per label of a domain. */
  lemma {:induction false} DomainDnIs(domain: string, part: string)
    requires forall i :: 0 <= i < |part| ==> part[i] != '.'
    ensures DomainDn(part) == "dc=" + part && DomainDn(domain + ("." + part)) == DomainDn(domain) + (",dc=" + part)
    decreases |part|
  {
    var n, s := |part| - 1, domain + ("." + part);
    if part == "" {
      assert s == domain + ".";
      assert s[|s| - 1] == '.' && s[..|s| - 1] == domain;
    } else {
      DomainDnIs(domain, part[..n]);
      assert part == part[..n] + [part[n]];
      assert s[|s| - 1] == part[n] && s[..|s| - 1] == domain + ("." + part[..n]);
    }
  }

  /** Capital letters become small ones, and nothing else changes. */
  lemma {:induction false} LowerCaseIs(s: string, i: nat, k: nat)
    requires i < |s|
    ensures |LowerCase(s)| == |s|
    ensures k < 26 && s[i] as int == 'A' as int + k ==> LowerCase(s)[i] as int == 'a' as int + k
    ensures !('A' <= s[i] <= 'Z') ==> LowerCase(s)[i] == s[i]
  {
  }

  /** A server outside a tree logs to the system, anything else to the user's directory. */
  lemma {:induction false} LogDirIs(d: Vars, dir: string)
    ensures Truthy(Get(d, "in_server")) && !Truthy(Get(d, "in_tree")) ==> LogDirOf(d) == Str("/var/log/ipa")
    ensures !Truthy(Get(d, "in_server")) || Truthy(Get(d, "in_tree")) ==>
      (Get(d, "dot_ipa") == Str(dir) && Directory(dir) ==> LogDirOf(d) == Str(dir + "/" + "log"))
  {
    BelowIs(d, "dot_ipa", dir, "log");
  }

  const TLS_VERSIONS := ["ssl2", "ssl3", "tls1.0", "tls1.1", "tls1.2", "tls1.3"]

  /** The version stands at place `i` of the list. */
  ghost predicate TlsAt(v: Value, i: nat) { i < |TLS_VERSIONS| && v == Str(TLS_VERSIONS[i]) }

  ghost predicate KnownTls(v: Value) { v == Null || exists i: nat :: TlsAt(v, i) }

  ghost predicate TlsBoundsOk(low: Value, high: Value) {
    KnownTls(low) && KnownTls(high) && forall i: nat, j: nat :: TlsAt(low, i) && TlsAt(high, j) ==> i <= j
  }

  lemma {:induction false} RankIs(v: Value, i: nat)
    ensures TlsAt(v, i) <==> i == TlsRank(v)
  {
  }

  lemma {:induction false} KnownIff(v: Value)
    ensures KnownTls(v) <==> !UnknownTls(v)
  {
    if TlsRank(v) >= 0 {
      RankIs(v, TlsRank(v));
    }
    if i: nat :| TlsAt(v, i) {
      RankIs(v, i);
    }
  }

  lemma {:induction false} BoundsIff(low: Value, high: Value)
    ensures TlsBoundsOk(low, high) <==>
      !UnknownTls(low) && !UnknownTls(high) && (low != Null && high != Null ==> TlsRank(low) <= TlsRank(high))
  {
    KnownIff(low);
    KnownIff(high);
    forall i: nat, j: nat
      ensures TlsAt(low, i) <==> i == TlsRank(low)
      ensures TlsAt(high, j) <==> j == TlsRank(high)
    {
      RankIs(low, i);
      RankIs(high, j);
    }
  }

  // ---------- what `_bootstrap` fills in ----------

  ghost predicate NotGiven(inp: Inputs, key: string) { FirstGiven(inp.overrides, key).None? }

  lemma {:induction false} FilledEntry(inp: Inputs, i: nat, key: string, expr: Expr)
    requires Layers(inp).e.None? && i < |FilledTable(inp.a.world)| && NotGiven(inp, key)
    requires FilledTable(inp.a.world)[i] == Ask(key, expr) && Eval(inp.a, Layers(inp).d - {key}, key, expr).Some?
    ensures key in Layers(inp).d
    ensures Layers(inp).d[key] == Converted(key, Eval(inp.a, Layers(inp).d - {key}, key, expr).value)
  {
    FilledNaming(inp.a.world);
    IsEntry(inp.a, FilledTable(inp.a.world), i, Layers(inp).d);
    FilledIs(inp, key);
  }

  lemma {:induction false} FilledRows(w: World)
    ensures var t := FilledTable(w);
      && |t| == 14
      && t[0] == Ask("in_tree", Given(Bool(w.inTree))) && t[1] == Ask("mode", IfTree(Str("developer")))
      && t[2] == Ask("dot_ipa", Path("home", ".ipa")) && t[3] == Ask("context", Given(Str("default")))
      && t[6] == Ask("confdir", Confdir) && t[7] == Ask("conf", ContextPath("confdir", ".conf"))
      && t[8] == Ask("conf_default", Path("confdir", "default.conf")) && t[9] == Ask("nss_dir", Path("confdir", "nssdb"))
      && t[10] == Ask("cache_dir", Given(Str(Join(w.cachePath, "ipa"))))
      && t[11] == Ask("tls_ca_cert", Path("confdir", "ca.crt")) && t[13] == Ask("plugins_on_demand", ContextIs("cli"))
  {
  }

  /** A path that nothing is given for. */
  lemma {:induction false} PathEntry(inp: Inputs, i: nat, key: string, base: string, part: string, dir: string)
    requires Layers(inp).e.None? && i < |FilledTable(inp.a.world)| && NotGiven(inp, key) && key != base
    requires FilledTable(inp.a.world)[i] == Ask(key, Path(base, part)) && Relative(part)
    requires Get(Layers(inp).d, base) == Str(dir) && Directory(dir)
    ensures Get(Layers(inp).d, key) == Converted(key, Str(dir + "/" + part))
  {
    FilledEntry(inp, i, key, Path(base, part));
    BelowIs(Layers(inp).d - {key}, base, dir, part);
  }

  /** The constants of `_bootstrap` are kept as they are. */
  lemma {:induction false} ConstantsKept()
    ensures Converted("context", Str("default")) == Str("default")
    ensures Converted("mode", Str("developer")) == Str("developer")
  {
  }

  /** Where nothing is given: the tree, the context, and the mode in a tree. */
  lemma {:induction false} TreeIs(inp: Inputs)
    requires Layers(inp).e.None?
    ensures NotGiven(inp, "in_tree") ==> Get(Layers(inp).d, "in_tree") == Bool(inp.a.world.inTree)
    ensures NotGiven(inp, "context") ==> Get(Layers(inp).d, "context") == Str("default")
    ensures NotGiven(inp, "mode") && Truthy(Get(Layers(inp).d, "in_tree")) ==> Get(Layers(inp).d, "mode") == Str("developer")
  {
    FilledRows(inp.a.world);
    ConstantsKept();
    if NotGiven(inp, "in_tree") {
      FilledEntry(inp, 0, "in_tree", Given(Bool(inp.a.world.inTree)));
    }
    if NotGiven(inp, "context") {
      FilledEntry(inp, 3, "context", Given(Str("default")));
    }
    if NotGiven(inp, "mode") && Truthy(Get(Layers(inp).d, "in_tree")) {
      FilledEntry(inp, 1, "mode", IfTree(Str("developer")));
    }
  }

  /** The user's directory is below the home directory. */
  lemma {:induction false} UserDirectoryIs(inp: Inputs, home: string)
    requires Layers(inp).e.None? && NotGiven(inp, "dot_ipa") && Get(Layers(inp).d, "home") == Str(home) && Directory(home)
    ensures Get(Layers(inp).d, "dot_ipa") == Converted("dot_ipa", Str(home + "/" + ".ipa"))
  {
    FilledRows(inp.a.world);
    PathEntry(inp, 2, "dot_ipa", "home", ".ipa", home);
  }

  lemma {:induction false} ConfdirOffer(a: Around, d: Vars)
    ensures Eval(a, d - {"confdir"}, "confdir", Confdir) ==
      Some(if Get(d, "env_confdir") != Null then Get(d, "env_confdir")
           else if Truthy(Get(d, "in_tree")) then Get(d, "dot_ipa") else Str("/etc/ipa"))
  {
  }

  /** The configuration directory: from IPA_CONFDIR if that is set, the user's directory in a tree, or /etc/ipa. */
  lemma {:induction false} ConfdirIs(inp: Inputs)
    requires Layers(inp).e.None? && NotGiven(inp, "confdir")
    ensures var d := Layers(inp).d;
      Get(d, "confdir") == Converted("confdir",
        if Get(d, "env_confdir") != Null then Get(d, "env_confdir")
        else if Truthy(Get(d, "in_tree")) then Get(d, "dot_ipa") else Str("/etc/ipa"))
  {
    ConfdirOffer(inp.a, Layers(inp).d);
    FilledRows(inp.a.world);
    FilledEntry(inp, 6, "confdir", Confdir);
  }

  /** The files below the configuration directory. */
  lemma {:induction false} PathsAre(inp: Inputs, dir: string)
    requires Layers(inp).e.None? && Get(Layers(inp).d, "confdir") == Str(dir) && Directory(dir)
    ensures NotGiven(inp, "conf_default") ==>
      Get(Layers(inp).d, "conf_default") == Converted("conf_default", Str(dir + "/" + "default.conf"))
    ensures NotGiven(inp, "nss_dir") ==> Get(Layers(inp).d, "nss_dir") == Converted("nss_dir", Str(dir + "/" + "nssdb"))
    ensures NotGiven(inp, "tls_ca_cert") ==>
      Get(Layers(inp).d, "tls_ca_cert") == Converted("tls_ca_cert", Str(dir + "/" + "ca.crt"))
  {
    FilledRows(inp.a.world);
    if NotGiven(inp, "conf_default") {
      PathEntry(inp, 8, "conf_default", "confdir", "default.conf", dir);
    }
    if NotGiven(inp, "nss_dir") {
      PathEntry(inp, 9, "nss_dir", "confdir", "nssdb", dir);
    }
    if NotGiven(inp, "tls_ca_cert") {
      PathEntry(inp, 11, "tls_ca_cert", "confdir", "ca.crt", dir);
    }
  }

  /** The context file is named after the context. */
  lemma {:induction false} ContextFileIs(inp: Inputs, dir: string)
    requires Layers(inp).e.None? && Get(Layers(inp).d, "confdir") == Str(dir) && Directory(dir) && NotGiven(inp, "conf")
    ensures var name := Shown(Get(Layers(inp).d, "context")) + ".conf";
      Relative(name) ==> Get(Layers(inp).d, "conf") == Converted("conf", Str(dir + "/" + name))
  {
    FilledRows(inp.a.world);
    FilledEntry(inp, 7, "conf", ContextPath("confdir", ".conf"));
    BelowIs(Layers(inp).d - {"conf"}, "confdir", dir, Shown(Get(Layers(inp).d, "context")) + ".conf");
  }

  /** Plugins are loaded on demand exactly in the context of the command line. */
  lemma {:induction false} OnDemandIff(inp: Inputs)
    requires Layers(inp).e.None? && NotGiven(inp, "plugins_on_demand")
    ensures Get(Layers(inp).d, "plugins_on_demand") == Bool(Get(Layers(inp).d, "context") == Str("cli"))
  {
    FilledRows(inp.a.world);
    FilledEntry(inp, 13, "plugins_on_demand", ContextIs("cli"));
  }

  // ---------- what has been checked ----------

  /** A check that stands in a table that went through was passed. */
  lemma {:induction false} CheckPassed(a: Around, table: seq<Instr>, r: Run, i: nat)
    requires i < |table| && table[i].Test? && ExecAll(a, table, r).e.None?
    ensures Exec(a, table, i, r).e.None? && Checked(a, Exec(a, table, i, r).d, table[i].check).None?
  {
    ExecGoes(a, table, i + 1, |table|, r);
    ExecGoes(a, table, i, i + 1, r);
  }

  /** The bounds on TLS are refused exactly if one is unknown or they are in the wrong order. */
  lemma {:induction false} TlsGoesIff(a: Around, r: Run)
    requires r.e.None? && !r.locked
    ensures var e := ExecAll(a, TLS_TABLE, r).e;
      && (e.None? <==> TlsBoundsOk(Get(r.d, "tls_version_min"), Get(r.d, "tls_version_max")))
      && (e.Some? ==> e.value == EnvironmentError)
  {
    var low, high := Get(r.d, "tls_version_min"), Get(r.d, "tls_version_max");
    var r1 := Exec(a, TLS_TABLE, 1, r);
    assert r1 == Propose(Exec(a, TLS_TABLE, 0, r), "tls_version_min", Null);
    assert NameOk("tls_version_min") && NameOk("tls_version_max");
    assert Get(r1.d, "tls_version_min") == low && Get(r1.d, "tls_version_max") == high && r1.e.None?;
    BoundsIff(low, high);
    TlsTail(a, r, r1);
  }

  lemma {:induction false} TlsTail(a: Around, r: Run, r1: Run)
    requires r1 == Exec(a, TLS_TABLE, 1, r) && r1.e.None? && !r1.locked
    ensures var low, high := Get(r1.d, "tls_version_min"), Get(r1.d, "tls_version_max");
      var good := !UnknownTls(low) && !UnknownTls(high) && (low != Null && high != Null ==> TlsRank(low) <= TlsRank(high));
      ExecAll(a, TLS_TABLE, r).e == if good then None else Some(EnvironmentError)
  {
    var r2 := Exec(a, TLS_TABLE, 2, r);
    assert r2 == StopOn(r1, Checked(a, r1.d, TlsLow));
    var r3 := Exec(a, TLS_TABLE, 3, r);
    assert r3 == if r2.e.Some? then r2 else Propose(r2, "tls_version_max", Null);
    assert NameOk("tls_version_max");
    var r4 := Exec(a, TLS_TABLE, 4, r);
    assert r4 == if r3.e.Some? then r3 else StopOn(r3, Checked(a, r3.d, TlsHigh));
  }

  lemma {:induction false} FilledAll(inp: Inputs)
    requires Layers(inp).e.None?
    ensures After(inp, 3) == ExecAll(inp.a, FilledTable(inp.a.world), After(inp, 2)) && After(inp, 3).e.None?
    ensures BOOTSTRAP_KEYS <= After(inp, 3).d.Keys && Grows(After(inp, 3).d, Layers(inp).d)
  {
    FilledLooks(inp);
    MissingIff(inp, 3, "confdir");
    AfterFilled(inp);
  }

  lemma {:induction false} AfterFilled(inp: Inputs)
    ensures After(inp, 3) == ExecAll(inp.a, FilledTable(inp.a.world), After(inp, 2))
  {
    assert LAYERS[2] == Filled;
    FilledLayer(inp, After(inp, 2));
  }

  lemma {:induction false} FilledLayer(inp: Inputs, r: Run)
    ensures LayerRun(inp, Filled, r) == ExecAll(inp.a, FilledTable(inp.a.world), r)
  {
    FillIsTable(inp.a, r);
  }

  lemma {:induction false} FilledChecks(w: World)
    ensures var t := FilledTable(w);
      && |t| == 14 && t[4] == Put("env_confdir", Given(VariableOf(w))) && t[5] == Test(ConfdirClash)
      && t[11] == Ask("tls_ca_cert", Path("confdir", "ca.crt")) && t[12] == Test(CertPath)
      && UnsetFrom(t, 0, 5, "confdir")
  {
    assert FilledTable(w)[..5] == TreeTable(w) + [Put("env_confdir", Given(VariableOf(w)))];
    UnsetSteps(FilledTable(w));
  }

  lemma {:induction false} UnsetSteps(t: seq<Instr>)
    requires |t| >= 5 && forall i :: 0 <= i < 5 ==> t[i].Test? || t[i].key != "confdir"
    ensures UnsetFrom(t, 0, 5, "confdir")
  {
    assert UnsetFrom(t, 0, 0, "confdir");
    assert UnsetFrom(t, 0, 1, "confdir");
    assert UnsetFrom(t, 0, 2, "confdir");
    assert UnsetFrom(t, 0, 3, "confdir");
    assert UnsetFrom(t, 0, 4, "confdir");
  }

  /** What an entry of `_bootstrap` has set is in the final environment. */
  lemma {:induction false} SetThen(inp: Inputs, i: nat, key: string)
    requires Layers(inp).e.None? && i < |FilledTable(inp.a.world)| && key in FILLED_KEYS
    requires !FilledTable(inp.a.world)[i].Test? && FilledTable(inp.a.world)[i].key == key
    ensures Get(Exec(inp.a, FilledTable(inp.a.world), i + 1, After(inp, 2)).d, key) == Get(Layers(inp).d, key)
  {
    var t := FilledTable(inp.a.world);
    FilledAll(inp);
    FilledNaming(inp.a.world);
    UnsetAfter(t, i, |t|);
    KeptFrom(inp.a, t, i + 1, |t|, After(inp, 2), key);
  }

  /** The certificate path of a run that goes through is absolute. */
  lemma {:induction false} CertPathChecked(inp: Inputs)
    requires Layers(inp).e.None?
    ensures Get(Layers(inp).d, "tls_ca_cert").Str? && "/" <= Get(Layers(inp).d, "tls_ca_cert").text
  {
    FilledAll(inp);
    FilledChecks(inp.a.world);
    CheckPassed(inp.a, FilledTable(inp.a.world), After(inp, 2), 12);
    SetThen(inp, 11, "tls_ca_cert");
  }

  lemma {:induction false} GivenIsSet(inp: Inputs, key: string)
    requires Layers(inp).e.None? && key !in RUNTIME_KEYS && !NotGiven(inp, key)
    ensures key in After(inp, 2).d
  {
    MissingIff(inp, 2, key);
    RuntimeSilent(inp, key);
    assert LAYERS[1] == Overrides;
  }

  /** The variables when IPA_CONFDIR is checked. */
  lemma {:induction false} WhenChecked(inp: Inputs) returns (d: Vars)
    requires Layers(inp).e.None?
    ensures ConfdirError(inp.a.world, d).None? && Get(d, "env_confdir") == Get(Layers(inp).d, "env_confdir")
    ensures "confdir" in After(inp, 2).d ==> "confdir" in d
  {
    FilledAll(inp);
    FilledChecks(inp.a.world);
    CheckPassed(inp.a, FilledTable(inp.a.world), After(inp, 2), 5);
    SetThen(inp, 4, "env_confdir");
    KeptFrom(inp.a, FilledTable(inp.a.world), 0, 5, After(inp, 2), "confdir");
    d := Exec(inp.a, FilledTable(inp.a.world), 5, After(inp, 2)).d;
  }

  /** And IPA_CONFDIR, if it was set, was a good directory and no other was given. */
  lemma {:induction false} ConfdirChecked(inp: Inputs)
    requires Layers(inp).e.None? && Get(Layers(inp).d, "env_confdir") != Null
    ensures NotGiven(inp, "confdir") && inp.a.world.confdirVarOk
  {
    var d := WhenChecked(inp);
    if !NotGiven(inp, "confdir") {
      GivenIsSet(inp, "confdir");
    }
  }
}
