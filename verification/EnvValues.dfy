/** What the standard run of ipalib/config.py sets each variable to, and by which layer. */
module EnvValues {
  import opened Common
  import opened EnvValue
  import opened EnvRun
  import opened EnvLaws
  import opened EnvTables
  import opened EnvUnion

  /** The first layer that offers something for a name has its way, whatever the later ones offer. */
  lemma {:induction false} OfferStands(inp: Inputs, i: nat, key: string)
    requires Layers(inp).e.None? && i < |LAYERS| && FirstOffer(inp, i, key).None? && Offer(inp, i, key).Some?
    ensures key in Layers(inp).d && Layers(inp).d[key] == Converted(key, Offer(inp, i, key).value)
  {
    AfterAll(inp);
    AfterGrown(inp, i + 1, 10);
    UnionOfSome(inp, i + 1, key);
  }

  /** A variable is missing after some layers exactly if none of them offers anything for it. */
  lemma {:induction false} MissingIff(inp: Inputs, n: nat, key: string)
    requires Layers(inp).e.None? && n <= |LAYERS|
    ensures After(inp, n).e.None? && Grows(After(inp, n).d, Layers(inp).d)
    ensures key !in After(inp, n).d <==> FirstOffer(inp, n, key).None?
  {
    AfterAll(inp);
    AfterGrown(inp, n, 10);
    UnionOfSome(inp, n, key);
  }

  lemma {:induction false} NextSilent(inp: Inputs, n: nat, key: string)
    requires n < |LAYERS| && FirstOffer(inp, n, key).None? && Offer(inp, n, key).None?
    ensures FirstOffer(inp, n + 1, key).None?
  {
  }

  lemma {:induction false} FileLayers(inp: Inputs, key: string)
    ensures Offer(inp, 4, key) == FileOffer(inp, After(inp, 4).d, "conf", key)
    ensures Offer(inp, 5, key) == FileOffer(inp, After(inp, 5).d, "conf_default", key)
  {
    assert LAYERS[4] == ContextFile && LAYERS[5] == DefaultFile;
  }

  lemma {:induction false} ItemLayers(inp: Inputs, before: Vars, after: Vars, key: string)
    ensures LayerOffer(inp, Defaults, before, after, key) == FirstGiven(inp.a.defaults, key)
    ensures LayerOffer(inp, Tls, before, after, key) == TableOffer(inp.a, TLS_TABLE, after, key)
    ensures LayerOffer(inp, LastChance, before, after, key) == FirstGiven(inp.lastChance, key)
  {
  }

  lemma {:induction false} LastLayers(inp: Inputs, key: string)
    ensures Offer(inp, 7, key) == FirstGiven(inp.a.defaults, key)
    ensures Offer(inp, 8, key) == TableOffer(inp.a, TLS_TABLE, After(inp, 9).d, key)
    ensures Offer(inp, 9, key) == FirstGiven(inp.lastChance, key)
  {
    ItemLayers(inp, After(inp, 7).d, After(inp, 8).d, key);
    ItemLayers(inp, After(inp, 8).d, After(inp, 9).d, key);
    ItemLayers(inp, After(inp, 9).d, After(inp, 10).d, key);
  }

  // ---------- the layers of _bootstrap ----------

  lemma {:induction false} NoEntry(a: Around, table: seq<Instr>, names: set<string>, touched: set<string>, d: Vars, key: string)
    requires Naming(table, names, touched) && key !in names
    ensures TableOffer(a, table, d, key).None?
  {
    var entry := EntryOf(table, |table|, key);
    if entry.Some? {
      NamedIn(table, |table|, entry.value);
    }
  }

  lemma {:induction false} IsEntry(a: Around, table: seq<Instr>, i: nat, d: Vars)
    requires i < |table| && OnceEach(table, |table|) && !table[i].Test?
    ensures TableOffer(a, table, d, table[i].key) == Fallback(a, d, table[i].key, table[i].expr)
  {
    NamedIn(table, |table|, i);
    var j := EntryOf(table, |table|, table[i].key).value;
    if i < j {
      OnceBefore(table, |table|, j);
      NamedIn(table, j, i);
    } else if j < i {
      OnceBefore(table, |table|, i);
      NamedIn(table, i, j);
    }
  }

  /** The run-time variables have the values of the process, whatever else is given. */
  lemma {:induction false} RuntimeIs(inp: Inputs, i: nat)
    requires Layers(inp).e.None? && i < |RuntimeTable(inp.a.world)|
    ensures var entry := RuntimeTable(inp.a.world)[i];
      entry.key in Layers(inp).d && Layers(inp).d[entry.key] == Converted(entry.key, entry.expr.value)
  {
    var t := RuntimeTable(inp.a.world);
    RuntimeNaming(inp.a.world);
    IsEntry(inp.a, t, i, After(inp, 1).d);
    assert LAYERS[0] == Runtime;
    OfferStands(inp, 0, t[i].key);
  }

  lemma {:induction false} RuntimeSilent(inp: Inputs, key: string)
    requires key !in RUNTIME_KEYS
    ensures Offer(inp, 0, key).None? && FirstOffer(inp, 1, key).None?
  {
    RuntimeNaming(inp.a.world);
    NoEntry(inp.a, RuntimeTable(inp.a.world), RUNTIME_KEYS, {}, After(inp, 1).d, key);
    assert LAYERS[0] == Runtime;
    assert FirstOffer(inp, 0, key).None?;
  }

  /** An override is the value of its variable unless it names a run-time variable. */
  lemma {:induction false} OverrideSets(inp: Inputs, key: string)
    requires Layers(inp).e.None? && key !in RUNTIME_KEYS && FirstGiven(inp.overrides, key).Some?
    ensures key in Layers(inp).d && Layers(inp).d[key] == Converted(key, FirstGiven(inp.overrides, key).value)
  {
    RuntimeSilent(inp, key);
    assert LAYERS[1] == Overrides;
    OfferStands(inp, 1, key);
  }

  /** What the fallbacks of `_bootstrap` look at is set by then, and stays. */
  lemma {:induction false} FilledLooks(inp: Inputs)
    requires Layers(inp).e.None?
    ensures After(inp, 3) == Boot(inp) && BOOTSTRAP_KEYS <= Boot(inp).d.Keys && Grows(Boot(inp).d, Layers(inp).d)
    ensures SameOn(Boot(inp).d, Layers(inp).d, FILLED_TOUCHED)
  {
    AfterBoot(inp);
    AfterAll(inp);
    AfterGrown(inp, 3, 10);
    BootStage(inp.a, inp.overrides, EMPTY);
    assert FILLED_TOUCHED <= BOOTSTRAP_KEYS;
  }

  lemma {:induction false} OfferTwo(inp: Inputs, key: string)
    ensures Offer(inp, 2, key) == TableOffer(inp.a, FilledTable(inp.a.world), After(inp, 3).d, key)
  {
    assert LAYERS[2] == Filled;
  }

  lemma {:induction false} FilledSameOn(a: Around, d: Vars, e: Vars, key: string)
    requires SameOn(d, e, FILLED_TOUCHED)
    ensures TableOffer(a, FilledTable(a.world), d, key) == TableOffer(a, FilledTable(a.world), e, key)
  {
    FilledNaming(a.world);
    OfferSameOn(a, FilledTable(a.world), d, e, key);
  }

  /** What `_bootstrap` fills in, in terms of the final environment. */
  lemma {:induction false} FilledOffer(inp: Inputs, key: string)
    requires Layers(inp).e.None?
    ensures Offer(inp, 2, key) == TableOffer(inp.a, FilledTable(inp.a.world), Layers(inp).d, key)
  {
    FilledLooks(inp);
    OfferTwo(inp, key);
    FilledSameOn(inp.a, Boot(inp).d, Layers(inp).d, key);
  }

  lemma {:induction false} FilledSilent(inp: Inputs, key: string)
    requires Layers(inp).e.None? && key !in FILLED_KEYS && (key == "mode" ==> !Truthy(Get(Layers(inp).d, "in_tree")))
    ensures Offer(inp, 2, key).None?
  {
    var t := FilledTable(inp.a.world);
    FilledOffer(inp, key);
    FilledNaming(inp.a.world);
    if key == "mode" {
      assert t[1] == Ask("mode", IfTree(Str("developer")));
      IsEntry(inp.a, t, 1, Layers(inp).d);
    } else {
      NoEntry(inp.a, t, FILLED_KEYS + MODE, FILLED_TOUCHED, Layers(inp).d, key);
    }
  }

  lemma {:induction false} KeysApart()
    ensures FILLED_KEYS + MODE !! RUNTIME_KEYS
    ensures {"forced_server", "server"} !! RUNTIME_KEYS + FILLED_KEYS + MODE
  {
  }

  lemma {:induction false} FilledApart(a: Around, d: Vars, key: string)
    requires TableOffer(a, FilledTable(a.world), d, key).Some?
    ensures key in FILLED_KEYS + MODE
  {
    FilledNaming(a.world);
    if key !in FILLED_KEYS + MODE {
      NoEntry(a, FilledTable(a.world), FILLED_KEYS + MODE, FILLED_TOUCHED, d, key);
    }
  }

  lemma {:induction false} OverridesSilent(inp: Inputs, key: string)
    requires key !in RUNTIME_KEYS && FirstGiven(inp.overrides, key).None?
    ensures FirstOffer(inp, 2, key).None?
  {
    RuntimeSilent(inp, key);
    assert LAYERS[1] == Overrides;
  }

  /** A variable of `_bootstrap` that is not overridden has the value its fallback takes in the final environment. */
  lemma {:induction false} FilledIs(inp: Inputs, key: string)
    requires Layers(inp).e.None? && FirstGiven(inp.overrides, key).None?
    requires TableOffer(inp.a, FilledTable(inp.a.world), Layers(inp).d, key).Some?
    ensures var d := Layers(inp).d;
      key in d && d[key] == Converted(key, TableOffer(inp.a, FilledTable(inp.a.world), d, key).value)
  {
    FilledApart(inp.a, Layers(inp).d, key);
    KeysApart();
    OverridesSilent(inp, key);
    FilledOffer(inp, key);
    OfferStands(inp, 2, key);
  }

  // ---------- what is settled after _bootstrap ----------

  lemma {:induction false} BootOffer(inp: Inputs, key: string)
    requires key !in RUNTIME_KEYS
    ensures FirstOffer(inp, 3, key)
      == if FirstGiven(inp.overrides, key).Some? then FirstGiven(inp.overrides, key) else Offer(inp, 2, key)
  {
    RuntimeSilent(inp, key);
    assert LAYERS[1] == Overrides;
    assert FirstOffer(inp, 2, key) == FirstGiven(inp.overrides, key);
  }

  lemma {:induction false} BootSettled(inp: Inputs, key: string)
    requires Layers(inp).e.None?
    ensures Settled(map[], Boot(inp).d, key, FirstOffer(inp, 3, key))
  {
    AfterBoot(inp);
    MissingIff(inp, 3, key);
    UnionOfSome(inp, 3, key);
  }

  lemma {:induction false} BootHas(inp: Inputs, key: string)
    requires Layers(inp).e.None? && key !in RUNTIME_KEYS && key !in FILLED_KEYS + MODE
    ensures Settled(map[], Boot(inp).d, key, FirstGiven(inp.overrides, key))
  {
    BootSettled(inp, key);
    BootOffer(inp, key);
    FilledSilent(inp, key);
  }

  /** A server is forced exactly if the overrides name one to force and none outright. */
  lemma {:induction false} ServerForcedIff(inp: Inputs)
    requires Layers(inp).e.None?
    ensures ServerForced(inp) <==>
      FirstGiven(inp.overrides, "forced_server").Some? && FirstGiven(inp.overrides, "server").None?
  {
    KeysApart();
    BootHas(inp, "forced_server");
    BootHas(inp, "server");
  }

  lemma {:induction false} ModeOffer(inp: Inputs)
    requires Layers(inp).e.None?
    ensures Offer(inp, 2, "mode").Some? ==> Offer(inp, 2, "mode").value == Str("developer")
  {
    var t := FilledTable(inp.a.world);
    FilledOffer(inp, "mode");
    FilledNaming(inp.a.world);
    assert t[1] == Ask("mode", IfTree(Str("developer")));
    IsEntry(inp.a, t, 1, Layers(inp).d);
  }

  lemma {:induction false} BootMode(inp: Inputs)
    requires Layers(inp).e.None?
    ensures Dummy(Boot(inp).d) <==>
      FirstGiven(inp.overrides, "mode").Some? && Converted("mode", FirstGiven(inp.overrides, "mode").value) == Str("dummy")
  {
    BootSettled(inp, "mode");
    BootOffer(inp, "mode");
    ModeOffer(inp);
    assert Converted("mode", Str("developer")) == Str("developer");
  }

  /** The files are read unless an override sets the dummy mode. */
  lemma {:induction false} FilesReadIff(inp: Inputs)
    requires Layers(inp).e.None?
    ensures !FilesRead(inp) <==>
      FirstGiven(inp.overrides, "mode").Some? && Converted("mode", FirstGiven(inp.overrides, "mode").value) == Str("dummy")
  {
    BootMode(inp);
    AfterBoot(inp);
    MissingIff(inp, 4, "mode");
    assert LAYERS[3] == Forced;
    ForcedSets(inp, Boot(inp), "mode");
  }

  // ---------- the files ----------

  lemma {:induction false} ForcedSilent(inp: Inputs, key: string)
    requires key in URI_NAMES ==> !ServerForced(inp)
    ensures Offer(inp, 3, key).None?
  {
    AfterBoot(inp);
    assert LAYERS[3] == Forced;
  }

  /** The stages before the files have nothing to offer for a name. */
  ghost predicate LeftToFiles(inp: Inputs, key: string) {
    && key !in BOOTSTRAP_KEYS && FirstGiven(inp.overrides, key).None?
    && (key == "mode" ==> !Truthy(Get(Layers(inp).d, "in_tree")))
    && (key in URI_NAMES ==> !ServerForced(inp))
  }

  lemma {:induction false} NothingBeforeFiles(inp: Inputs, key: string)
    requires Layers(inp).e.None? && LeftToFiles(inp, key)
    ensures FirstOffer(inp, 4, key).None?
  {
    OverridesSilent(inp, key);
    FilledSilent(inp, key);
    assert FirstOffer(inp, 3, key).None?;
    ForcedSilent(inp, key);
  }

  /** What a file offers in the standard run. */
  function InFile(inp: Inputs, name: string, key: string): Option<Value> {
    if FilesRead(inp) then FirstGiven(FileOffers(inp.a.world, Get(Layers(inp).d, name)), key) else None
  }

  lemma {:induction false} FileNames(inp: Inputs)
    requires Layers(inp).e.None?
    ensures Get(After(inp, 4).d, "conf") == Get(Layers(inp).d, "conf")
    ensures Get(After(inp, 5).d, "conf_default") == Get(Layers(inp).d, "conf_default")
  {
    FilledLooks(inp);
    MissingIff(inp, 4, "conf");
    MissingIff(inp, 5, "conf_default");
    AfterGrown(inp, 3, 4);
    AfterGrown(inp, 3, 5);
    assert {"conf", "conf_default"} <= BOOTSTRAP_KEYS;
  }

  lemma {:induction false} FileOfferIs(inp: Inputs, key: string)
    requires Layers(inp).e.None?
    ensures Offer(inp, 4, key) == InFile(inp, "conf", key) && Offer(inp, 5, key) == InFile(inp, "conf_default", key)
  {
    FileNames(inp);
    FileLayers(inp, key);
  }

  /** An item of the context file is the value of its variable where the stages before the files leave it to them. */
  lemma {:induction false} ContextFileSets(inp: Inputs, key: string)
    requires Layers(inp).e.None? && LeftToFiles(inp, key) && InFile(inp, "conf", key).Some?
    ensures key in Layers(inp).d && Layers(inp).d[key] == Converted(key, InFile(inp, "conf", key).value)
  {
    NothingBeforeFiles(inp, key);
    FileOfferIs(inp, key);
    OfferStands(inp, 4, key);
  }

  /** So is an item of the default file that the context file does not give. */
  lemma {:induction false} DefaultFileSets(inp: Inputs, key: string)
    requires Layers(inp).e.None? && LeftToFiles(inp, key)
    requires InFile(inp, "conf", key).None? && InFile(inp, "conf_default", key).Some?
    ensures key in Layers(inp).d && Layers(inp).d[key] == Converted(key, InFile(inp, "conf_default", key).value)
  {
    NothingBeforeFiles(inp, key);
    FileOfferIs(inp, key);
    assert FirstOffer(inp, 5, key).None?;
    OfferStands(inp, 5, key);
  }

  // ---------- the forced server ----------

  lemma {:induction false} ForcedGives(a: Around, r: Run)
    requires IsForced(r.d) && ForceRun(a, r).e.None?
    ensures var d := ForceRun(a, r).d;
      && {"forced_server", "server", "xmlrpc_uri", "ldap_uri"} <= d.Keys
      && d["server"] == Converted("server", d["forced_server"])
      && ("xmlrpc_uri" !in r.d ==> d["xmlrpc_uri"] == Str("https://" + Shown(d["server"]) + "/ipa/xml"))
  {
    var r1 := ExecAll(a, FORCED_TABLE, r);
    ForcedGoes(a, r);
    UriSets(a, r1, "forced_server");
    UriSets(a, r1, "server");
    UriSets(a, r1, "xmlrpc_uri");
    UriSets(a, r1, "ldap_uri");
    ServerText(Shown(r1.d["server"]));
  }

  /** A forced server is the server, and the URIs that are not overridden are derived from it. */
  lemma {:induction false} ForcedIs(inp: Inputs)
    requires Layers(inp).e.None? && ServerForced(inp)
    ensures var d := Layers(inp).d;
      && {"forced_server", "server", "xmlrpc_uri", "ldap_uri"} <= d.Keys
      && d["server"] == Converted("server", d["forced_server"])
      && (FirstGiven(inp.overrides, "xmlrpc_uri").None? ==> d["xmlrpc_uri"] == Str("https://" + Shown(d["server"]) + "/ipa/xml"))
  {
    AfterBoot(inp);
    MissingIff(inp, 4, "server");
    assert After(inp, 4) == ForceRun(inp.a, Boot(inp));
    ForcedGives(inp.a, Boot(inp));
    UriKeysApart();
    BootHas(inp, "xmlrpc_uri");
  }

  lemma {:induction false} UriKeysApart()
    ensures URI_NAMES !! RUNTIME_KEYS + FILLED_KEYS + MODE
  {
  }

  // ---------- the derived variables ----------

  /** The fallbacks of `_finalize_core` for the server, the logs and the reserved names. */
  function NamesFor(d: Vars, key: string): Option<Value> {
    if key == "in_server" then Some(Bool(Get(d, "context") == Str("server")))
    else if key == "logdir" then Some(LogDirOf(d))
    else if key == "log" then Some(BelowContext(d, "logdir", ".log"))
    else if key == "realm" then if Unconfigured(d) then Some(Str("UNCONFIGURED.INVALID")) else None
    else if key == "domain" then if Unconfigured(d) && "realm" in d then Some(DomainOf(d["realm"])) else None
    else if key == "basedn" then if "domain" in d then Some(BaseDnOf(d["domain"])) else None
    else None
  }

  lemma {:induction false} CoreFallback(a: Around, d: Vars, key: string)
    requires key in CORE_KEYS
    ensures TableOffer(a, NAMES_TABLE, d, key) == NamesFor(d, key)
  {
    NamesNaming();
    IsEntry(a, NAMES_TABLE, if key == "in_server" then 0 else if key == "logdir" then 1 else 2, d);
  }

  lemma {:induction false} DomainFallback(a: Around, d: Vars, key: string)
    requires key in DOMAIN_NAMES
    ensures TableOffer(a, NAMES_TABLE, d, key) == NamesFor(d, key)
  {
    NamesNaming();
    IsEntry(a, NAMES_TABLE, if key == "realm" then 3 else if key == "domain" then 4 else 5, d);
  }

  lemma {:induction false} NamesFallback(a: Around, d: Vars, key: string)
    ensures TableOffer(a, NAMES_TABLE, d, key) == NamesFor(d, key)
  {
    if key in CORE_KEYS {
      CoreFallback(a, d, key);
    } else if key in DOMAIN_NAMES {
      DomainFallback(a, d, key);
    } else {
      NamesNaming();
      NoEntry(a, NAMES_TABLE, CORE_KEYS + DOMAIN_NAMES, NAMES_TOUCHED, d, key);
    }
  }

  /**
   What `_finalize_core` fills in after the files: the names by the environment it leaves, the URIs unless a server was
   forced.
   */
  function DerivedFor(inp: Inputs, key: string): Option<Value> {
    if key !in URI_NAMES then NamesFor(After(inp, 7).d, key)
    else if ServerForced(inp) then None
    else UriOffer(inp.a, After(inp, 6).d, After(inp, 7).d, key)
  }

  lemma {:induction false} DerivedOfferIs(inp: Inputs, key: string)
    ensures Offer(inp, 6, key) == DerivedFor(inp, key)
  {
    NamesFallback(inp.a, After(inp, 7).d, key);
    assert LAYERS[6] == Derived;
  }

  /** A derived variable that neither `_bootstrap` nor a file sets has that value. */
  lemma {:induction false} DerivedIs(inp: Inputs, key: string)
    requires Layers(inp).e.None? && FirstOffer(inp, 6, key).None? && DerivedFor(inp, key).Some?
    ensures key in Layers(inp).d && Layers(inp).d[key] == Converted(key, DerivedFor(inp, key).value)
  {
    DerivedOfferIs(inp, key);
    OfferStands(inp, 6, key);
  }

  // ---------- the last layers ----------

  /** Nothing up to the derived variables offers anything for a name. */
  ghost predicate LeftToDefaults(inp: Inputs, key: string) {
    && LeftToFiles(inp, key) && DerivedFor(inp, key).None?
    && InFile(inp, "conf", key).None? && InFile(inp, "conf_default", key).None?
  }

  lemma {:induction false} NothingBeforeDefaults(inp: Inputs, key: string)
    requires Layers(inp).e.None? && LeftToDefaults(inp, key)
    ensures FirstOffer(inp, 7, key).None?
  {
    NothingBeforeFiles(inp, key);
    FileOfferIs(inp, key);
    assert FirstOffer(inp, 5, key).None?;
    assert FirstOffer(inp, 6, key).None?;
    DerivedOfferIs(inp, key);
  }

  /** A default is the value of its variable where it is left to the defaults. */
  lemma {:induction false} DefaultSets(inp: Inputs, key: string)
    requires Layers(inp).e.None? && LeftToDefaults(inp, key) && FirstGiven(inp.a.defaults, key).Some?
    ensures key in Layers(inp).d && Layers(inp).d[key] == Converted(key, FirstGiven(inp.a.defaults, key).value)
  {
    NothingBeforeDefaults(inp, key);
    LastLayers(inp, key);
    OfferStands(inp, 7, key);
  }

  lemma {:induction false} DefaultsSilent(inp: Inputs, key: string)
    requires Layers(inp).e.None? && LeftToDefaults(inp, key) && FirstGiven(inp.a.defaults, key).None?
    ensures FirstOffer(inp, 8, key).None?
  {
    NothingBeforeDefaults(inp, key);
    LastLayers(inp, key);
    NextSilent(inp, 7, key);
  }

  lemma {:induction false} TlsFallback(a: Around, d: Vars, key: string)
    ensures TableOffer(a, TLS_TABLE, d, key) == if key in TLS_KEYS then Some(Null) else None
  {
    TlsNaming();
    if key in TLS_KEYS {
      IsEntry(a, TLS_TABLE, if key == "tls_version_min" then 0 else 2, d);
    } else {
      NoEntry(a, TLS_TABLE, TLS_KEYS, {}, d, key);
    }
  }

  /** A TLS bound that nothing gives is null. */
  lemma {:induction false} TlsIs(inp: Inputs, key: string)
    requires Layers(inp).e.None? && LeftToDefaults(inp, key) && FirstGiven(inp.a.defaults, key).None? && key in TLS_KEYS
    ensures key in Layers(inp).d && Layers(inp).d[key] == Null
  {
    DefaultsSilent(inp, key);
    LastLayers(inp, key);
    TlsFallback(inp.a, After(inp, 9).d, key);
    OfferStands(inp, 8, key);
  }

  /** A last-chance variable is the value where nothing else gives one. */
  lemma {:induction false} LastChanceSets(inp: Inputs, key: string)
    requires Layers(inp).e.None? && LeftToDefaults(inp, key) && FirstGiven(inp.a.defaults, key).None?
    requires key !in TLS_KEYS && FirstGiven(inp.lastChance, key).Some?
    ensures key in Layers(inp).d && Layers(inp).d[key] == Converted(key, FirstGiven(inp.lastChance, key).value)
  {
    DefaultsSilent(inp, key);
    LastLayers(inp, key);
    TlsFallback(inp.a, After(inp, 9).d, key);
    NextSilent(inp, 8, key);
    OfferStands(inp, 9, key);
  }
}
