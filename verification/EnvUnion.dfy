/**
 The standard run of ipalib/config.py sets the left-biased union of its ten layers: each variable to what the first layer
 that offers something for it offers.
 */
module EnvUnion {
  import opened Common
  import opened EnvValue
  import opened EnvRun
  import opened EnvLaws
  import opened EnvTables

  // ---------- layers of items ----------

  /** The first value given for a name. */
  function First(items: seq<Item>, n: nat, key: string): Option<Value>
    requires n <= |items|
  {
    if n == 0 then None
    else if First(items, n - 1, key).Some? then First(items, n - 1, key)
    else if items[n - 1].0 == key then Some(items[n - 1].1)
    else None
  }

  function FirstGiven(items: seq<Item>, key: string): Option<Value> { First(items, |items|, key) }

  lemma {:induction false} ProposeSets(r: Run, item: Item, key: string)
    requires Propose(r, item.0, item.1).e.None?
    ensures r.e.None? && Settled(r.d, Propose(r, item.0, item.1).d, key, if item.0 == key then Some(item.1) else None)
  {
  }

  /** Merging sets each missing name to the first value given for it. */
  lemma {:induction false} ItemsSet(r: Run, items: seq<Item>, n: nat, key: string)
    requires n <= |items| && ProposeAll(r, items, n).e.None?
    ensures Settled(r.d, ProposeAll(r, items, n).d, key, First(items, n, key))
  {
    if n > 0 {
      ProposeSets(ProposeAll(r, items, n - 1), items[n - 1], key);
      ItemsSet(r, items, n - 1, key);
    }
  }

  /** What a configuration file offers: its items, and a note that it was loaded if it has any. */
  function FileOffers(w: World, file: Value): seq<Item> {
    var items := FileItems(w, file);
    if items == [] then [] else items + [("config_loaded", Bool(true))]
  }

  lemma {:induction false} ProposePart(r: Run, items: seq<Item>, more: seq<Item>, n: nat)
    requires n <= |items|
    ensures ProposeAll(r, items + more, n) == ProposeAll(r, items, n)
  {
    if n > 0 {
      ProposePart(r, items, more, n - 1);
    }
  }

  lemma {:induction false} FileSets(w: World, name: string, r: Run, key: string)
    requires NamedFileRun(w, name, r).e.None?
    ensures name in r.d && Settled(r.d, NamedFileRun(w, name, r).d, key, FirstGiven(FileOffers(w, Get(r.d, name)), key))
  {
    var file := Get(r.d, name);
    var items, offers := FileItems(w, file), FileOffers(w, file);
    FileGoes(w, name, r);
    if items == [] {
      assert NamedFileRun(w, name, r) == r;
    } else {
      ProposePart(r, items, [("config_loaded", Bool(true))], |items|);
      assert NamedFileRun(w, name, r) == ProposeAll(r, offers, |offers|);
      ItemsSet(r, offers, |offers|, key);
    }
  }

  lemma {:induction false} FileGoes(w: World, name: string, r: Run)
    requires NamedFileRun(w, name, r).e.None?
    ensures r.e.None? && name in r.d && r.d[name].Str?
  {
    var e := if name in r.d then None else Some(Crash);
    var file := Get(r.d, name);
    var r1 := StopOn(StopOn(r, e), if file.Str? then None else Some(Crash));
    var items := FileItems(w, file);
    ItemsStage(r1, items, |items|);
    PlaceStage(ProposeAll(r1, items, |items|), "config_loaded", Bool(true));
  }

  // ---------- the ten layers ----------

  datatype Layer =
    | Runtime
    | Overrides
    | Filled
    | Forced
    | ContextFile
    | DefaultFile
    | Derived
    | Defaults
    | Tls
    | LastChance

  /** In the order in which they are merged. */
  const LAYERS: seq<Layer> := [Runtime, Overrides, Filled, Forced, ContextFile, DefaultFile, Derived, Defaults, Tls, LastChance]

  function Boot(inp: Inputs): Run { BootRun(inp.a, inp.overrides, EMPTY) }

  /** Whether a server is forced, and whether the files are read, is settled after `_bootstrap`. */
  predicate ServerForced(inp: Inputs) { IsForced(Boot(inp).d) }

  predicate FilesRead(inp: Inputs) { !Dummy(ForceRun(inp.a, Boot(inp)).d) }

  /** What a layer does to the environment before it. */
  function LayerRun(inp: Inputs, layer: Layer, r: Run): Run {
    match layer
    case Runtime => ExecAll(inp.a, RuntimeTable(inp.a.world), r)
    case Overrides => ProposeAll(r, inp.overrides, |inp.overrides|)
    case Filled => FillRun(inp.a, r)
    case Forced => ForceRun(inp.a, r)
    case ContextFile => if FilesRead(inp) then NamedFileRun(inp.a.world, "conf", r) else r
    case DefaultFile => if FilesRead(inp) then NamedFileRun(inp.a.world, "conf_default", r) else r
    case Derived => DerivedRun(inp.a, ServerForced(inp), r)
    case Defaults => ProposeAll(r, inp.a.defaults, |inp.a.defaults|)
    case Tls => ExecAll(inp.a, TLS_TABLE, r)
    case LastChance => ProposeAll(r, inp.lastChance, |inp.lastChance|)
  }

  /** The environment after the first `n` layers. */
  function After(inp: Inputs, n: nat): Run
    requires n <= |LAYERS|
  {
    if n == 0 then EMPTY else LayerRun(inp, LAYERS[n - 1], After(inp, n - 1))
  }

  lemma {:induction false} AfterBoot(inp: Inputs)
    ensures After(inp, 3) == Boot(inp)
  {
    assert After(inp, 0) == EMPTY;
    assert After(inp, 1) == ExecAll(inp.a, RuntimeTable(inp.a.world), EMPTY);
    assert After(inp, 2) == ProposeAll(After(inp, 1), inp.overrides, |inp.overrides|);
  }

  lemma {:induction false} AfterFiles(inp: Inputs)
    ensures After(inp, 6) == FilesRun(inp.a.world, ForceRun(inp.a, Boot(inp)))
  {
    AfterBoot(inp);
    assert After(inp, 4) == ForceRun(inp.a, Boot(inp));
    assert After(inp, 5) == if FilesRead(inp) then NamedFileRun(inp.a.world, "conf", After(inp, 4)) else After(inp, 4);
  }

  lemma {:induction false} AfterDerived(inp: Inputs)
    ensures After(inp, 7) == BeforeRun(inp.a, Boot(inp))
  {
    AfterFiles(inp);
  }

  lemma {:induction false} CoreLayers(inp: Inputs, before: Run)
    ensures LayerRun(inp, Tls, LayerRun(inp, Defaults, before))
      == ExecAll(inp.a, TLS_TABLE, ProposeAll(before, inp.a.defaults, |inp.a.defaults|))
  {
  }

  lemma {:induction false} AfterTls(inp: Inputs)
    ensures After(inp, 9) == LayerRun(inp, Tls, LayerRun(inp, Defaults, After(inp, 7)))
  {
    assert After(inp, 8) == LayerRun(inp, Defaults, After(inp, 7));
  }

  /** The layers make up the standard run. */
  lemma {:induction false} AfterAll(inp: Inputs)
    ensures After(inp, 9) == CoreRun(inp.a, Boot(inp)) && After(inp, 10) == Layers(inp)
  {
    AfterDerived(inp);
    AfterTls(inp);
    CoreLayers(inp, BeforeRun(inp.a, Boot(inp)));
  }

  // ---------- what a layer offers ----------

  /** A forced server, and the URIs derived from it. */
  function ForcedOffer(inp: Inputs, before: Vars, after: Vars, key: string): Option<Value> {
    if !IsForced(before) then None
    else if key == "server" then Some(before["forced_server"])
    else UriOffer(inp.a, after, after, key)
  }

  function DerivedOffer(inp: Inputs, before: Vars, after: Vars, key: string): Option<Value> {
    if key !in URI_NAMES then TableOffer(inp.a, NAMES_TABLE, after, key)
    else if ServerForced(inp) then None
    else UriOffer(inp.a, before, after, key)
  }

  function FileOffer(inp: Inputs, before: Vars, name: string, key: string): Option<Value> {
    if FilesRead(inp) then FirstGiven(FileOffers(inp.a.world, Get(before, name)), key) else None
  }

  /** What a layer offers for a name that is missing, given the environments before and after it. */
  function LayerOffer(inp: Inputs, layer: Layer, before: Vars, after: Vars, key: string): Option<Value> {
    match layer
    case Runtime => TableOffer(inp.a, RuntimeTable(inp.a.world), after, key)
    case Overrides => FirstGiven(inp.overrides, key)
    case Filled => TableOffer(inp.a, FilledTable(inp.a.world), after, key)
    case Forced => ForcedOffer(inp, before, after, key)
    case ContextFile => FileOffer(inp, before, "conf", key)
    case DefaultFile => FileOffer(inp, before, "conf_default", key)
    case Derived => DerivedOffer(inp, before, after, key)
    case Defaults => FirstGiven(inp.a.defaults, key)
    case Tls => TableOffer(inp.a, TLS_TABLE, after, key)
    case LastChance => FirstGiven(inp.lastChance, key)
  }

  lemma {:induction false} ForcedGoes(a: Around, r: Run)
    requires IsForced(r.d) && ForceRun(a, r).e.None?
    ensures var r1 := ExecAll(a, FORCED_TABLE, r);
      && r1.e.None? && r1.d == r.d["server" := Converted("server", r.d["forced_server"])]
      && ForceRun(a, r) == ExecAll(a, URI_TABLE, r1)
  {
    var t := FORCED_TABLE;
    var r1 := ExecAll(a, t, r);
    UriStage(a, r1);
    assert Exec(a, t, 0, r) == r;
    assert r1 == Do(a, t[0], r);
    DoSets(a, t[0], r);
  }

  lemma {:induction false} ForcedSets(inp: Inputs, r: Run, key: string)
    requires ForceRun(inp.a, r).e.None?
    ensures var s := ForceRun(inp.a, r); Settled(r.d, s.d, key, ForcedOffer(inp, r.d, s.d, key))
  {
    if IsForced(r.d) {
      var r1, s := ExecAll(inp.a, FORCED_TABLE, r), ForceRun(inp.a, r);
      ForcedGoes(inp.a, r);
      UriSets(inp.a, r1, key);
      UriSets(inp.a, r1, "server");
    }
  }

  lemma {:induction false} NamesRun(a: Around, r: Run)
    ensures ExecAll(a, DOMAIN_TABLE, ExecAll(a, SERVER_TABLE, r)) == ExecAll(a, NAMES_TABLE, r)
  {
    ExecBoth(a, SERVER_TABLE, DOMAIN_TABLE, |DOMAIN_TABLE|, r);
  }

  lemma {:induction false} NamesSet(a: Around, r: Run, key: string)
    requires ExecAll(a, NAMES_TABLE, r).e.None?
    ensures var d := ExecAll(a, NAMES_TABLE, r).d; Settled(r.d, d, key, TableOffer(a, NAMES_TABLE, d, key))
    ensures key !in CORE_KEYS + DOMAIN_NAMES ==> TableOffer(a, NAMES_TABLE, ExecAll(a, NAMES_TABLE, r).d, key).None?
  {
    NamesNaming();
    TableSets(a, NAMES_TABLE, r, key);
  }

  lemma {:induction false} OfferSameOn(a: Around, table: seq<Instr>, d: Vars, e: Vars, key: string)
    requires SameOn(d, e, TouchedBy(table, |table|))
    ensures TableOffer(a, table, d, key) == TableOffer(a, table, e, key)
  {
    var entry := EntryOf(table, |table|, key);
    if entry.Some? {
      NamedIn(table, |table|, entry.value);
      EvalSameOn(a, d - {key}, e - {key}, key, table[entry.value].expr);
    }
  }

  lemma {:induction false} UriKept(a: Around, r: Run, key: string)
    requires ExecAll(a, URI_TABLE, r).e.None? && key !in URI_NAMES
    ensures var d := ExecAll(a, URI_TABLE, r).d; (key in r.d <==> key in d) && (key in r.d ==> r.d[key] == d[key])
  {
    UriSets(a, r, key);
  }

  /** Deriving URIs touches no other variable, and none that the other fallbacks look at. */
  lemma {:induction false} UrisApart(a: Around, r: Run, key: string)
    requires ExecAll(a, URI_TABLE, r).e.None?
    ensures TableOffer(a, NAMES_TABLE, ExecAll(a, URI_TABLE, r).d, key) == TableOffer(a, NAMES_TABLE, r.d, key)
  {
    NamesNaming();
    NamesTouchedApart();
    forall k | k in NAMES_TOUCHED
      ensures (k in r.d <==> k in ExecAll(a, URI_TABLE, r).d) && (k in r.d ==> r.d[k] == ExecAll(a, URI_TABLE, r).d[k])
    {
      UriKept(a, r, k);
    }
    OfferSameOn(a, NAMES_TABLE, r.d, ExecAll(a, URI_TABLE, r).d, key);
  }

  lemma {:induction false} DerivedNamesSet(inp: Inputs, r: Run, key: string)
    requires DerivedRun(inp.a, ServerForced(inp), r).e.None? && key !in URI_NAMES
    ensures var s := DerivedRun(inp.a, ServerForced(inp), r); Settled(r.d, s.d, key, TableOffer(inp.a, NAMES_TABLE, s.d, key))
  {
    var r1 := ExecAll(inp.a, NAMES_TABLE, r);
    NamesRun(inp.a, r);
    UriStage(inp.a, r1);
    NamesSet(inp.a, r, key);
    if !ServerForced(inp) {
      UriKept(inp.a, r1, key);
      UrisApart(inp.a, r1, key);
    }
  }

  lemma {:induction false} DerivedUrisSet(inp: Inputs, r: Run, key: string)
    requires DerivedRun(inp.a, ServerForced(inp), r).e.None? && key in URI_NAMES
    ensures var s := DerivedRun(inp.a, ServerForced(inp), r);
      Settled(r.d, s.d, key, if ServerForced(inp) then None else UriOffer(inp.a, r.d, s.d, key))
  {
    var r1 := ExecAll(inp.a, NAMES_TABLE, r);
    NamesRun(inp.a, r);
    UriStage(inp.a, r1);
    NamesTouchedApart();
    NamesSet(inp.a, r, key);
    NamesSet(inp.a, r, "server");
    if !ServerForced(inp) {
      UriSets(inp.a, r1, key);
    }
  }

  lemma {:induction false} DerivedSets(inp: Inputs, r: Run, key: string)
    requires DerivedRun(inp.a, ServerForced(inp), r).e.None?
    ensures var s := DerivedRun(inp.a, ServerForced(inp), r); Settled(r.d, s.d, key, DerivedOffer(inp, r.d, s.d, key))
  {
    if key in URI_NAMES {
      DerivedUrisSet(inp, r, key);
    } else {
      DerivedNamesSet(inp, r, key);
    }
  }

  // ---------- the union ----------

  lemma {:induction false} FilledSets(a: Around, r: Run, key: string)
    requires FillRun(a, r).e.None?
    ensures Settled(r.d, FillRun(a, r).d, key, TableOffer(a, FilledTable(a.world), FillRun(a, r).d, key))
  {
    FillIsTable(a, r);
    FilledNaming(a.world);
    TableSets(a, FilledTable(a.world), r, key);
  }

  /** Every layer keeps what is set and sets what it offers for the names that are missing, exactly. */
  lemma {:induction false} LayerSets(inp: Inputs, layer: Layer, r: Run, key: string)
    requires LayerRun(inp, layer, r).e.None?
    ensures var s := LayerRun(inp, layer, r); Settled(r.d, s.d, key, LayerOffer(inp, layer, r.d, s.d, key))
  {
    match layer
    case Runtime =>
      RuntimeNaming(inp.a.world);
      TableSets(inp.a, RuntimeTable(inp.a.world), r, key);
    case Overrides => ItemsSet(r, inp.overrides, |inp.overrides|, key);
    case Filled => FilledSets(inp.a, r, key);
    case Forced => ForcedSets(inp, r, key);
    case ContextFile =>
      if FilesRead(inp) {
        FileSets(inp.a.world, "conf", r, key);
      }
    case DefaultFile =>
      if FilesRead(inp) {
        FileSets(inp.a.world, "conf_default", r, key);
      }
    case Derived => DerivedSets(inp, r, key);
    case Defaults => ItemsSet(r, inp.a.defaults, |inp.a.defaults|, key);
    case Tls =>
      TlsNaming();
      TableSets(inp.a, TLS_TABLE, r, key);
    case LastChance => ItemsSet(r, inp.lastChance, |inp.lastChance|, key);
  }

  lemma {:induction false} LayerGrown(inp: Inputs, layer: Layer, r: Run)
    ensures Grown(r, LayerRun(inp, layer, r))
  {
    match layer
    case Runtime => RuntimeStage(inp.a, r);
    case Overrides => ItemsStage(r, inp.overrides, |inp.overrides|);
    case Filled => FillStage(inp.a, r);
    case Forced => ForceStage(inp.a, r);
    case ContextFile => NamedFileStage(inp.a.world, "conf", r);
    case DefaultFile => NamedFileStage(inp.a.world, "conf_default", r);
    case Derived => DerivedStage(inp.a, ServerForced(inp), r);
    case Defaults => ItemsStage(r, inp.a.defaults, |inp.a.defaults|);
    case Tls => TlsStage(inp.a, r);
    case LastChance => ItemsStage(r, inp.lastChance, |inp.lastChance|);
  }

  lemma {:induction false} AfterGrown(inp: Inputs, i: nat, n: nat)
    requires i <= n <= |LAYERS|
    ensures Grown(After(inp, i), After(inp, n))
    decreases n
  {
    if i < n {
      AfterGrown(inp, i, n - 1);
      LayerGrown(inp, LAYERS[n - 1], After(inp, n - 1));
      GrownAll(After(inp, i), After(inp, n - 1), After(inp, n));
    }
  }

  /** What layer `i` offers for a name in the standard run. */
  function Offer(inp: Inputs, i: nat, key: string): Option<Value>
    requires i < |LAYERS|
  {
    LayerOffer(inp, LAYERS[i], After(inp, i).d, After(inp, i + 1).d, key)
  }

  /** The offer of the first layer that has one, among the first `n`. */
  function FirstOffer(inp: Inputs, n: nat, key: string): Option<Value>
    requires n <= |LAYERS|
  {
    if n == 0 then None
    else if FirstOffer(inp, n - 1, key).Some? then FirstOffer(inp, n - 1, key)
    else Offer(inp, n - 1, key)
  }

  lemma {:induction false} UnionOfSome(inp: Inputs, n: nat, key: string)
    requires n <= |LAYERS| && After(inp, n).e.None?
    ensures Settled(map[], After(inp, n).d, key, FirstOffer(inp, n, key))
  {
    if n > 0 {
      AfterGrown(inp, n - 1, n);
      LayerSets(inp, LAYERS[n - 1], After(inp, n - 1), key);
      UnionOfSome(inp, n - 1, key);
    }
  }

  /**
   The variables of the standard run are the left-biased union of its layers in merge order: a name is set exactly if
   some layer offers something for it, and to what the first such layer offers.
   */
  lemma {:induction false} UnionOfLayers(inp: Inputs, key: string)
    requires Layers(inp).e.None?
    ensures key in Layers(inp).d <==> FirstOffer(inp, 10, key).Some?
    ensures key in Layers(inp).d ==> Layers(inp).d[key] == Converted(key, FirstOffer(inp, 10, key).value)
  {
    AfterAll(inp);
    UnionOfSome(inp, 10, key);
  }
}
