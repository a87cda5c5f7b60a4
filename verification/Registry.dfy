/**
 The plugin registry of `API` (ipalib/plugable.py): adding and overriding plugins, the chain of overridden
 predecessors, and the choice of default versions.
 */
module Registry {
  import opened Common

  /** `version` as written, and the numbers `APIVersion` reads from it. */
  datatype Version = Version(text: string, major: int, minor: int)

  /** A plugin class, told apart by `id`; `known` says whether it derives from one of the API's bases. */
  datatype Plugin = Plugin(id: int, name: string, version: Version, known: bool)

  function FullName(p: Plugin): string { p.name + "/" + p.version.text }

  datatype Outcome = Added | Ignored | SubclassError | OverrideError | MissingOverrideError

  datatype Call = Call(plugin: Plugin, override: bool, noFail: bool)

  datatype State = State(plugins: set<Plugin>, byKey: map<string, Plugin>, next: map<Plugin, Plugin>)

  function Lookup<K, V>(m: map<K, V>, key: K): Option<V> {
    if key in m then Some(m[key]) else None
  }

  // ---------- add_plugin ----------

  function Judge(s: State, c: Call): Outcome {
    if !c.plugin.known then SubclassError
    else if FullName(c.plugin) in s.byKey then
      if c.override then Added else if c.noFail then Ignored else OverrideError
    else
      if !c.override then Added else if c.noFail then Ignored else MissingOverrideError
  }

  function Step(s: State, c: Call): State {
    if !Judge(s, c).Added? then s
    else
      var key := FullName(c.plugin);
      if key in s.byKey
      then State(s.plugins - {s.byKey[key]} + {c.plugin}, s.byKey[key := c.plugin], s.next[c.plugin := s.byKey[key]])
      else State(s.plugins + {c.plugin}, s.byKey[key := c.plugin], s.next)
  }

  function Run(s: State, calls: seq<Call>): State
    decreases |calls|
  {
    if calls == [] then s else Run(Step(s, calls[0]), calls[1..])
  }

  const EMPTY := State({}, map[], map[])

  class Api {
    var plugins: set<Plugin>
    var pluginsByKey: map<string, Plugin>
    var nextPlugins: map<Plugin, Plugin>

    constructor ()
      ensures Abs() == EMPTY
    {
      plugins, pluginsByKey, nextPlugins := {}, map[], map[];
    }

    ghost function Abs(): State
      reads this
    {
      State(plugins, pluginsByKey, nextPlugins)
    }

    method AddPlugin(c: Call) returns (outcome: Outcome)
      modifies this
      ensures outcome == Judge(old(Abs()), c) && Abs() == Step(old(Abs()), c)
    {
      if !c.plugin.known {
        return SubclassError;
      }
      var key := FullName(c.plugin);
      if key in pluginsByKey {
        if !c.override {
          return if c.noFail then Ignored else OverrideError;
        }
        var prev := pluginsByKey[key];
        plugins := plugins - {prev};
        nextPlugins := nextPlugins[c.plugin := prev];
      } else if c.override {
        return if c.noFail then Ignored else MissingOverrideError;
      }
      plugins := plugins + {c.plugin};
      pluginsByKey := pluginsByKey[key := c.plugin];
      return Added;
    }

    method GetPluginNext(p: Plugin) returns (r: Option<Plugin>)
      ensures r == Lookup(nextPlugins, p)
    {
      r := if p in nextPlugins then Some(nextPlugins[p]) else None;
    }
  }

  // ---------- the history of a full name ----------

  /** The classes accepted under one full name, oldest first; `ring` holds the classes that lead in a circle. */
  datatype Line = Line(classes: seq<Plugin>, ring: set<Plugin>)

  type History = map<string, Line>

  function Last(line: Line): Plugin
    requires line.classes != []
  {
    line.classes[|line.classes| - 1]
  }

  /** The classes from the first `p` on. */
  function From(classes: seq<Plugin>, p: Plugin): set<Plugin> {
    if classes == [] then {}
    else if classes[0] == p then set q | q in classes
    else From(classes[1..], p)
  }

  function Extended(line: Line, p: Plugin): Line {
    Line(line.classes + [p], if line.ring != {} then line.ring + {p} else From(line.classes, p))
  }

  function Accepted(s: State, h: History, c: Call): History {
    if !Judge(s, c).Added? then h
    else
      var key := FullName(c.plugin);
      h[key := if key in h then Extended(h[key], c.plugin) else Line([c.plugin], {})]
  }

  function HistoryOf(s: State, h: History, calls: seq<Call>): History
    decreases |calls|
  {
    if calls == [] then h else HistoryOf(Step(s, calls[0]), Accepted(s, h, calls[0]), calls[1..])
  }

  /** The classes accepted under a full name in a run, oldest first. */
  function AcceptedAs(calls: seq<Call>, key: string): seq<Plugin> {
    var h := HistoryOf(EMPTY, map[], calls);
    if key in h then h[key].classes else []
  }

  /** The plugin reached after `n` steps of `get_plugin_next`. */
  function Follow(next: map<Plugin, Plugin>, p: Plugin, n: nat): Option<Plugin>
    decreases n
  {
    if n == 0 then Some(p) else if p in next then Follow(next, next[p], n - 1) else None
  }

  ghost predicate Distinct(classes: seq<Plugin>) {
    forall i, j :: 0 <= i < j < |classes| ==> classes[i] != classes[j]
  }

  /** Each class leads to the one it overrode; the first leads nowhere. */
  ghost predicate LinkedDown(next: map<Plugin, Plugin>, classes: seq<Plugin>) {
    && (classes != [] ==> classes[0] !in next)
    && forall i :: 1 <= i < |classes| ==> Lookup(next, classes[i]) == Some(classes[i - 1])
  }

  /** Every class of `ring` leads to a class of `ring`. */
  ghost predicate Ring(next: map<Plugin, Plugin>, ring: set<Plugin>) {
    forall p :: p in ring ==> p in next && next[p] in ring
  }

  ghost predicate Linked(next: map<Plugin, Plugin>, line: Line) {
    || (line.classes != [] && line.ring == {} && Distinct(line.classes) && LinkedDown(next, line.classes))
    || (&& line.classes != [] && Last(line) in line.ring && !Distinct(line.classes) && Ring(next, line.ring)
        && forall p :: p in line.ring ==> p in line.classes)
  }

  /** A link from a class outside the line leaves the line as it was. */
  lemma {:induction false} LinkElsewhere(next: map<Plugin, Plugin>, line: Line, p: Plugin, prev: Plugin)
    requires Linked(next, line) && p !in line.classes
    ensures Linked(next[p := prev], line)
  {
    assert forall i :: 0 <= i < |line.classes| ==> line.classes[i] in line.classes;
  }

  lemma {:induction false} FromIsTail(classes: seq<Plugin>, p: Plugin) returns (k: nat)
    requires p in classes
    ensures k < |classes| && classes[k] == p && From(classes, p) == set q | q in classes[k..]
  {
    if classes[0] == p {
      k := 0;
      assert classes[0..] == classes;
    } else {
      k := FromIsTail(classes[1..], p);
      k := k + 1;
      assert classes[1..][k - 1..] == classes[k..];
    }
  }

  lemma {:induction false} FromAbsent(classes: seq<Plugin>, p: Plugin)
    requires p !in classes
    ensures From(classes, p) == {}
  {
    if classes != [] {
      FromAbsent(classes[1..], p);
    }
  }

  lemma {:induction false} DistinctExtended(classes: seq<Plugin>, p: Plugin)
    requires Distinct(classes) && p !in classes
    ensures Distinct(classes + [p])
  {
    assert forall i :: 0 <= i < |classes| ==> classes[i] in classes;
  }

  /** A new class on a line that goes straight down keeps it so. */
  lemma {:induction false} ExtendDown(next: map<Plugin, Plugin>, line: Line, p: Plugin)
    requires Linked(next, line) && line.ring == {} && p !in line.classes
    ensures Linked(next[p := Last(line)], Extended(line, p))
  {
    FromAbsent(line.classes, p);
    LinkElsewhere(next, line, p, Last(line));
    DistinctExtended(line.classes, p);
  }

  /** A class that returns closes a ring. */
  lemma {:induction false} CloseRing(next: map<Plugin, Plugin>, line: Line, p: Plugin)
    requires Linked(next, line) && line.ring == {} && p in line.classes
    ensures Linked(next[p := Last(line)], Extended(line, p))
  {
    var classes, longer, after := line.classes, line.classes + [p], next[p := Last(line)];
    var k := FromIsTail(classes, p);
    var ring := From(classes, p);
    assert classes[k..][0] == p && classes[k..][|classes| - 1 - k] == Last(line);
    assert p in ring && Last(line) in ring;
    forall q | q in ring
      ensures q in after && after[q] in ring
    {
      var i :| 0 <= i < |classes| - k && classes[k..][i] == q;
      if i > 0 {
        assert Lookup(next, classes[k + i]) == Some(classes[k + i - 1]);
        assert classes[k..][i - 1] == classes[k + i - 1];
      }
    }
    assert longer[|classes|] == p && longer[k] == p;
  }

  lemma {:induction false} StaysRepeated(classes: seq<Plugin>, p: Plugin)
    requires !Distinct(classes)
    ensures !Distinct(classes + [p])
  {
    var i, j :| 0 <= i < j < |classes| && classes[i] == classes[j];
    assert (classes + [p])[i] == (classes + [p])[j];
  }

  lemma {:induction false} RingGrows(next: map<Plugin, Plugin>, ring: set<Plugin>, last: Plugin, p: Plugin)
    requires Ring(next, ring) && last in ring
    ensures Ring(next[p := last], ring + {p})
  {
  }

  lemma {:induction false} ExtendRing(next: map<Plugin, Plugin>, line: Line, p: Plugin)
    requires Linked(next, line) && line.ring != {}
    ensures Linked(next[p := Last(line)], Extended(line, p))
  {
    StaysRepeated(line.classes, p);
    RingGrows(next, line.ring, Last(line), p);
    assert Last(Extended(line, p)) == p;
  }

  lemma {:induction false} Extend(next: map<Plugin, Plugin>, line: Line, p: Plugin)
    requires Linked(next, line)
    ensures Linked(next[p := Last(line)], Extended(line, p))
  {
    if line.ring != {} {
      ExtendRing(next, line, p);
    } else if p in line.classes {
      CloseRing(next, line, p);
    } else {
      ExtendDown(next, line, p);
    }
  }

  // ---------- what every call keeps ----------

  ghost predicate LineOk(s: State, key: string, line: Line) {
    && Linked(s.next, line)
    && (forall p :: p in line.classes ==> FullName(p) == key)
    && key in s.byKey && s.byKey[key] == Last(line)
  }

  ghost predicate Inv(s: State, h: History) {
    && s.byKey.Keys == h.Keys
    && (forall key :: key in h ==> LineOk(s, key, h[key]))
    && (forall p :: p in s.next ==> FullName(p) in h)
  }

  /** The key index maps exactly the live plugins. */
  ghost predicate Indexed(s: State) {
    && (forall key :: key in s.byKey ==> FullName(s.byKey[key]) == key && s.byKey[key] in s.plugins)
    && (forall p :: p in s.plugins ==> FullName(p) in s.byKey && s.byKey[FullName(p)] == p)
  }

  lemma {:induction false} StepKeepsIndexed(s: State, c: Call)
    requires Indexed(s)
    ensures Indexed(Step(s, c))
  {
  }

  lemma {:induction false} OtherLine(s: State, key: string, line: Line, c: Call)
    requires LineOk(s, key, line) && FullName(c.plugin) != key
    ensures LineOk(Step(s, c), key, line)
  {
    var own := FullName(c.plugin);
    if own in s.byKey {
      LinkElsewhere(s.next, line, c.plugin, s.byKey[own]);
    }
  }

  lemma {:induction false} FirstOfLine(s: State, h: History, c: Call)
    requires Inv(s, h) && c.plugin.known && !c.override && FullName(c.plugin) !in h
    ensures LineOk(Step(s, c), FullName(c.plugin), Line([c.plugin], {}))
  {
    var p := c.plugin;
    assert p !in s.next;
    assert LinkedDown(s.next, [p]) && Distinct([p]);
  }

  lemma {:induction false} NextOfLine(s: State, line: Line, c: Call)
    requires c.plugin.known && c.override && LineOk(s, FullName(c.plugin), line)
    ensures LineOk(Step(s, c), FullName(c.plugin), Extended(line, c.plugin))
  {
    Extend(s.next, line, c.plugin);
  }

  lemma {:induction false} OwnLine(s: State, h: History, c: Call)
    requires Inv(s, h) && Judge(s, c).Added?
    ensures LineOk(Step(s, c), FullName(c.plugin), Accepted(s, h, c)[FullName(c.plugin)])
  {
    var key := FullName(c.plugin);
    if key in h {
      assert LineOk(s, key, h[key]);
      NextOfLine(s, h[key], c);
    } else {
      FirstOfLine(s, h, c);
    }
  }

  lemma {:induction false} StepKeepsInv(s: State, h: History, c: Call)
    requires Inv(s, h)
    ensures Inv(Step(s, c), Accepted(s, h, c))
  {
    if Judge(s, c).Added? {
      var t, g := Step(s, c), Accepted(s, h, c);
      OwnLine(s, h, c);
      forall key | key in g
        ensures LineOk(t, key, g[key])
      {
        if key != FullName(c.plugin) {
          OtherLine(s, key, h[key], c);
        }
      }
    }
  }

  lemma {:induction false} RunKeepsInv(s: State, h: History, calls: seq<Call>)
    requires Inv(s, h)
    ensures Inv(Run(s, calls), HistoryOf(s, h, calls))
    decreases |calls|
  {
    if calls != [] {
      StepKeepsInv(s, h, calls[0]);
      RunKeepsInv(Step(s, calls[0]), Accepted(s, h, calls[0]), calls[1..]);
    }
  }

  lemma {:induction false} RunKeepsIndexed(s: State, calls: seq<Call>)
    requires Indexed(s)
    ensures Indexed(Run(s, calls))
    decreases |calls|
  {
    if calls != [] {
      StepKeepsIndexed(s, calls[0]);
      RunKeepsIndexed(Step(s, calls[0]), calls[1..]);
    }
  }

  // ---------- what holds after every run ----------

  /** At most one live plugin per full name, and the key index maps exactly the live ones. */
  lemma {:induction false} OneLivePerName(calls: seq<Call>)
    ensures Indexed(Run(EMPTY, calls))
    ensures var live := Run(EMPTY, calls).plugins;
      forall p, q :: p in live && q in live && FullName(p) == FullName(q) ==> p == q
  {
    RunKeepsIndexed(EMPTY, calls);
  }

  /** The live plugin of a full name is the class accepted last under it; there is one as soon as one was accepted. */
  lemma {:induction false} LiveIsNewest(calls: seq<Call>, key: string)
    ensures var s, classes := Run(EMPTY, calls), AcceptedAs(calls, key);
      && (key in s.byKey <==> classes != [])
      && (key in s.byKey ==> s.byKey[key] == classes[|classes| - 1])
  {
    RunKeepsInv(EMPTY, map[], calls);
    var h := HistoryOf(EMPTY, map[], calls);
    if key in h {
      assert LineOk(Run(EMPTY, calls), key, h[key]);
    }
  }

  lemma {:induction false} OneMoreCall(s: State, h: History, calls: seq<Call>, c: Call)
    ensures Run(s, calls + [c]) == Step(Run(s, calls), c)
    ensures HistoryOf(s, h, calls + [c]) == Accepted(Run(s, calls), HistoryOf(s, h, calls), c)
    decreases |calls|
  {
    if calls == [] {
      assert [c][1..] == [];
      assert calls + [c] == [c];
      assert Run(s, [c]) == Run(Step(s, c), []) && HistoryOf(s, h, [c]) == HistoryOf(Step(s, c), Accepted(s, h, c), []);
    } else {
      assert (calls + [c])[1..] == calls[1..] + [c];
      OneMoreCall(Step(s, calls[0]), Accepted(s, h, calls[0]), calls[1..], c);
    }
  }

  /**
   After every run a class is accepted exactly if it is meant to override and some class of its full name was accepted
   before, or neither; it then becomes the newest of that name, and no other name is affected.
   */
  lemma {:induction false} AcceptedIff(calls: seq<Call>, c: Call, key: string)
    ensures Judge(Run(EMPTY, calls), c).Added? <==>
      c.plugin.known && (c.override <==> AcceptedAs(calls, FullName(c.plugin)) != [])
    ensures var added := key == FullName(c.plugin) && Judge(Run(EMPTY, calls), c).Added?;
      AcceptedAs(calls + [c], key) == AcceptedAs(calls, key) + if added then [c.plugin] else []
  {
    LiveIsNewest(calls, FullName(c.plugin));
    OneMoreCall(EMPTY, map[], calls, c);
  }

  /** Why a class is not accepted. */
  lemma {:induction false} RefusedAs(calls: seq<Call>, c: Call)
    requires !Judge(Run(EMPTY, calls), c).Added?
    ensures Judge(Run(EMPTY, calls), c) ==
      if !c.plugin.known then SubclassError
      else if c.noFail then Ignored
      else if AcceptedAs(calls, FullName(c.plugin)) != [] then OverrideError
      else MissingOverrideError
  {
    AcceptedIff(calls, c, FullName(c.plugin));
    LiveIsNewest(calls, FullName(c.plugin));
  }

  /** Full names tell names and versions apart. */
  lemma {:induction false} FullNameIff(p: Plugin, q: Plugin)
    requires '/' !in p.name && '/' !in q.name
    ensures FullName(p) == FullName(q) <==> p.name == q.name && p.version.text == q.version.text
  {
    var a, b := FullName(p), FullName(q);
    assert a[|p.name|] == '/' && b[|q.name|] == '/';
    if a == b {
      assert a[..|p.name|] == p.name && b[..|q.name|] == q.name;
      assert a[|p.name| + 1..] == p.version.text && b[|q.name| + 1..] == q.version.text;
    }
  }

  lemma {:induction false} FollowLine(next: map<Plugin, Plugin>, classes: seq<Plugin>, k: nat, n: nat)
    requires LinkedDown(next, classes) && k < |classes|
    ensures Follow(next, classes[k], n) == if n <= k then Some(classes[k - n]) else None
    decreases n
  {
    if n > 0 && k > 0 {
      assert Lookup(next, classes[k]) == Some(classes[k - 1]);
      FollowLine(next, classes, k - 1, n - 1);
    }
  }

  lemma {:induction false} FollowRing(next: map<Plugin, Plugin>, ring: set<Plugin>, p: Plugin, n: nat)
    requires Ring(next, ring) && p in ring
    ensures Follow(next, p, n).Some?
    decreases n
  {
    if n > 0 {
      FollowRing(next, ring, next[p], n - 1);
    }
  }

  lemma {:induction false} FollowLast(next: map<Plugin, Plugin>, line: Line, n: nat)
    requires Linked(next, line) && Distinct(line.classes)
    ensures var last := |line.classes| - 1;
      Follow(next, Last(line), n) == if n <= last then Some(line.classes[last - n]) else None
  {
    FollowLine(next, line.classes, |line.classes| - 1, n);
  }

  ghost predicate Ends(next: map<Plugin, Plugin>, p: Plugin) {
    exists n: nat :: Follow(next, p, n).None?
  }

  lemma {:induction false} LineEndsIff(next: map<Plugin, Plugin>, line: Line)
    requires Linked(next, line)
    ensures Ends(next, Last(line)) <==> Distinct(line.classes)
  {
    var last := |line.classes| - 1;
    if line.ring == {} {
      FollowLine(next, line.classes, last, last + 1);
    } else {
      forall n: nat
        ensures Follow(next, Last(line), n).Some?
      {
        FollowRing(next, line.ring, Last(line), n);
      }
    }
  }

  /** From a live plugin whose classes were all different, `get_plugin_next` visits its predecessors, newest first. */
  lemma {:induction false} ChainIsHistory(calls: seq<Call>, key: string, n: nat)
    requires var classes := AcceptedAs(calls, key); classes != [] && Distinct(classes)
    ensures var s, classes := Run(EMPTY, calls), AcceptedAs(calls, key);
      && key in s.byKey
      && Follow(s.next, s.byKey[key], n) == if n < |classes| then Some(classes[|classes| - 1 - n]) else None
  {
    RunKeepsInv(EMPTY, map[], calls);
    var s, h := Run(EMPTY, calls), HistoryOf(EMPTY, map[], calls);
    assert LineOk(s, key, h[key]);
    FollowLast(s.next, h[key], n);
  }

  /** The chain of a live plugin ends exactly when no class was accepted twice under its full name. */
  lemma {:induction false} ChainEndsIff(calls: seq<Call>, key: string)
    requires AcceptedAs(calls, key) != []
    ensures var s := Run(EMPTY, calls);
      key in s.byKey && (Ends(s.next, s.byKey[key]) <==> Distinct(AcceptedAs(calls, key)))
  {
    RunKeepsInv(EMPTY, map[], calls);
    var s, h := Run(EMPTY, calls), HistoryOf(EMPTY, map[], calls);
    assert LineOk(s, key, h[key]);
    LineEndsIff(s.next, h[key]);
  }

  /** Every call brings a class of its own. */
  ghost predicate AllDifferent(calls: seq<Call>) {
    forall i, j :: 0 <= i < j < |calls| ==> calls[i].plugin != calls[j].plugin
  }

  /** No line has a class twice or one that is still to come. */
  ghost predicate FreshFor(h: History, calls: seq<Call>) {
    forall key :: key in h ==>
      Distinct(h[key].classes) && forall i :: 0 <= i < |calls| ==> calls[i].plugin !in h[key].classes
  }

  lemma {:induction false} AcceptedFresh(s: State, h: History, calls: seq<Call>)
    requires calls != [] && AllDifferent(calls) && FreshFor(h, calls)
    ensures FreshFor(Accepted(s, h, calls[0]), calls[1..])
  {
    var key := FullName(calls[0].plugin);
    if key in h {
      DistinctExtended(h[key].classes, calls[0].plugin);
    }
  }

  lemma {:induction false} HistoryFresh(s: State, h: History, calls: seq<Call>)
    requires AllDifferent(calls) && FreshFor(h, calls)
    ensures FreshFor(HistoryOf(s, h, calls), [])
    decreases |calls|
  {
    if calls != [] {
      AcceptedFresh(s, h, calls);
      HistoryFresh(Step(s, calls[0]), Accepted(s, h, calls[0]), calls[1..]);
    }
  }

  /** Where every call brings a class of its own, every chain ends. */
  lemma {:induction false} DifferentClassesEnd(calls: seq<Call>, key: string)
    requires AllDifferent(calls)
    ensures Distinct(AcceptedAs(calls, key))
    ensures var s := Run(EMPTY, calls); key in s.byKey ==> Ends(s.next, s.byKey[key])
  {
    HistoryFresh(EMPTY, map[], calls);
    LiveIsNewest(calls, key);
    if AcceptedAs(calls, key) != [] {
      ChainEndsIff(calls, key);
    }
  }

  /** A class that overrides itself never reaches the end of its chain. */
  lemma {:induction false} SelfOverrideLoops(p: Plugin)
    requires p.known
    ensures var s := Run(EMPTY, [Call(p, false, false), Call(p, true, false)]);
      FullName(p) in s.byKey && !Ends(s.next, s.byKey[FullName(p)])
  {
    var calls := [Call(p, false, false), Call(p, true, false)];
    var one := Step(EMPTY, calls[0]);
    assert calls[1..] == [calls[1]] && [calls[1]][1..] == [];
    assert Run(one, [calls[1]]) == Run(Step(one, calls[1]), []) == Step(one, calls[1]);
    var s := Run(EMPTY, calls);
    assert Ring(s.next, {p});
    forall n: nat
      ensures Follow(s.next, p, n).Some?
    {
      FollowRing(s.next, {p}, p, n);
    }
  }

  // ---------- default versions ----------

  predicate Less(v: Version, w: Version) {
    v.major < w.major || (v.major == w.major && v.minor < w.minor)
  }

  /** How `finalize` chooses: by greatest version, or among the full names of a fixed list. */
  datatype Mode = Validate | Listed(names: set<string>)

  predicate Candidate(mode: Mode, p: Plugin, name: string) {
    p.name == name && (mode.Listed? ==> FullName(p) in mode.names)
  }

  predicate Beaten(mode: Mode, v: Version, w: Version) {
    mode.Validate? && Less(v, w)
  }

  /** The default version of `name` after the plugins of `order`. */
  function DefaultFor(mode: Mode, order: seq<Plugin>, name: string): Option<Version>
    decreases |order|
  {
    if order == [] then None
    else
      var p := order[|order| - 1];
      var before := DefaultFor(mode, order[..|order| - 1], name);
      if !Candidate(mode, p, name) || (before.Some? && Beaten(mode, p.version, before.value)) then before
      else Some(p.version)
  }

  /** The first loop of `finalize` over the live plugins, in whatever order the set yields them. */
  method ChooseDefaults(mode: Mode, order: seq<Plugin>) returns (defaults: map<string, Version>)
    ensures forall name :: DefaultFor(mode, order, name) == Lookup(defaults, name)
  {
    defaults := map[];
    var i := 0;
    while i < |order|
      invariant 0 <= i <= |order|
      invariant forall name :: DefaultFor(mode, order[..i], name) == Lookup(defaults, name)
    {
      var p := order[i];
      assert order[..i + 1][..i] == order[..i];
      ghost var before := defaults;
      match mode {
        case Listed(names) =>
          if FullName(p) in names {
            defaults := defaults[p.name := p.version];
          }
        case Validate =>
          if !(p.name in defaults && Less(p.version, defaults[p.name])) {
            defaults := defaults[p.name := p.version];
          }
      }
      forall name
        ensures DefaultFor(mode, order[..i + 1], name) == Lookup(defaults, name)
      {
        assert DefaultFor(mode, order[..i], name) == Lookup(before, name);
      }
      i := i + 1;
    }
    assert order[..i] == order;
  }

  /** A candidate that no other candidate beats. */
  ghost predicate Top(mode: Mode, live: set<Plugin>, p: Plugin) {
    p in live && Candidate(mode, p, p.name)
    && forall q :: q in live && Candidate(mode, q, p.name) ==> !Beaten(mode, p.version, q.version)
  }

  ghost predicate Enumerates(order: seq<Plugin>, live: set<Plugin>) {
    |order| == |live| && forall p :: p in order <==> p in live
  }

  lemma {:induction false} DefaultIsGreatest(mode: Mode, order: seq<Plugin>, name: string) returns (at: nat)
    ensures DefaultFor(mode, order, name).None? ==> forall p :: p in order ==> !Candidate(mode, p, name)
    ensures DefaultFor(mode, order, name).Some? ==>
      && at < |order| && Candidate(mode, order[at], name)
      && DefaultFor(mode, order, name) == Some(order[at].version)
      && forall p :: p in order && Candidate(mode, p, name) ==> !Beaten(mode, order[at].version, p.version)
    decreases |order|
  {
    at := 0;
    if order != [] {
      var n := |order| - 1;
      at := DefaultIsGreatest(mode, order[..n], name);
      assert order == order[..n] + [order[n]];
      if DefaultFor(mode, order, name) != DefaultFor(mode, order[..n], name) {
        at := n;
      }
    }
  }

  /** The default is the version of a live plugin that no other beats, whatever the order. */
  lemma {:induction false} DefaultIsTop(mode: Mode, order: seq<Plugin>, live: set<Plugin>, name: string)
    returns (p: Option<Plugin>)
    requires Enumerates(order, live)
    ensures match p
      case None => DefaultFor(mode, order, name) == None && forall q :: q in live ==> !Candidate(mode, q, name)
      case Some(q) => Top(mode, live, q) && q.name == name && DefaultFor(mode, order, name) == Some(q.version)
  {
    var at := DefaultIsGreatest(mode, order, name);
    p := if DefaultFor(mode, order, name).None? then None else Some(order[at]);
  }

  /** Without a list, the default has the greatest major number, and of those the greatest minor one. */
  lemma {:induction false} DefaultIsNewest(order: seq<Plugin>, live: set<Plugin>, name: string, q: Plugin)
    requires Enumerates(order, live) && q in live && q.name == name
    ensures DefaultFor(Validate, order, name).Some?
    ensures var v := DefaultFor(Validate, order, name).value;
      q.version.major <= v.major && (q.version.major == v.major ==> q.version.minor <= v.minor)
  {
    var p := DefaultIsTop(Validate, order, live, name);
    assert Candidate(Validate, q, name);
  }

  lemma {:induction false} Enumerate(live: set<Plugin>) returns (order: seq<Plugin>)
    ensures Enumerates(order, live)
  {
    if live == {} {
      order := [];
    } else {
      var p :| p in live;
      var rest := Enumerate(live - {p});
      order := rest + [p];
    }
  }

  /** Some order of the live plugins makes a given unbeaten candidate the default. */
  lemma {:induction false} TopCanWin(mode: Mode, live: set<Plugin>, p: Plugin) returns (order: seq<Plugin>)
    requires Top(mode, live, p)
    ensures Enumerates(order, live) && DefaultFor(mode, order, p.name) == Some(p.version)
  {
    var rest := Enumerate(live - {p});
    order := rest + [p];
    assert order[..|rest|] == rest;
    var at := DefaultIsGreatest(mode, rest, p.name);
  }

  ghost predicate SameForAllOrders(mode: Mode, live: set<Plugin>, name: string) {
    forall a, b :: Enumerates(a, live) && Enumerates(b, live) ==>
      DefaultFor(mode, a, name) == DefaultFor(mode, b, name)
  }

  ghost predicate NoTie(mode: Mode, live: set<Plugin>, name: string) {
    forall p, q :: Top(mode, live, p) && Top(mode, live, q) && p.name == q.name == name ==> p.version == q.version
  }

  /** The default of a name does not depend on the order of the set exactly when its unbeaten candidates agree. */
  lemma {:induction false} OrderIndependentIff(mode: Mode, live: set<Plugin>, name: string)
    ensures SameForAllOrders(mode, live, name) <==> NoTie(mode, live, name)
  {
    if NoTie(mode, live, name) {
      forall a, b | Enumerates(a, live) && Enumerates(b, live)
        ensures DefaultFor(mode, a, name) == DefaultFor(mode, b, name)
      {
        var p := DefaultIsTop(mode, a, live, name);
        var q := DefaultIsTop(mode, b, live, name);
      }
    }
    if SameForAllOrders(mode, live, name) {
      forall p, q | Top(mode, live, p) && Top(mode, live, q) && p.name == q.name == name
        ensures p.version == q.version
      {
        var a := TopCanWin(mode, live, p);
        var b := TopCanWin(mode, live, q);
      }
    }
  }

  /** "1" and "1.0" are one version to `finalize` but two to a lookup by name: the order of the set decides. */
  lemma {:induction false} SpellingsTie()
    ensures var live := {Plugin(0, "user_add", Version("1", 1, 0), true), Plugin(1, "user_add", Version("1.0", 1, 0), true)};
      !SameForAllOrders(Validate, live, "user_add")
  {
    var p, q := Plugin(0, "user_add", Version("1", 1, 0), true), Plugin(1, "user_add", Version("1.0", 1, 0), true);
    assert "1" != "1.0" by {
      assert |"1"| != |"1.0"|;
    }
    assert Top(Validate, {p, q}, p) && Top(Validate, {p, q}, q);
    OrderIndependentIff(Validate, {p, q}, "user_add");
  }

  /** The version a bare name stands for: its default, or "1" where it has none. */
  function BareVersion(mode: Mode, order: seq<Plugin>, name: string): string {
    match DefaultFor(mode, order, name)
    case Some(v) => v.text
    case None => "1"
  }

  ghost predicate AnswersTo(live: set<Plugin>, p: Plugin, name: string, version: string) {
    p in live && p.name == name && p.version.text == version
  }

  /** After every run a bare name leads to at most one live plugin, and to one if it has a default. */
  lemma {:induction false} BareNameIsUnique(calls: seq<Call>, mode: Mode, order: seq<Plugin>, name: string)
    requires Enumerates(order, Run(EMPTY, calls).plugins)
    ensures var live, version := Run(EMPTY, calls).plugins, BareVersion(mode, order, name);
      && (forall p, q :: AnswersTo(live, p, name, version) && AnswersTo(live, q, name, version) ==> p == q)
      && ((exists p :: AnswersTo(live, p, name, version)) <==>
            DefaultFor(mode, order, name).Some? || exists p :: AnswersTo(live, p, name, "1"))
  {
    OneLivePerName(calls);
    var live := Run(EMPTY, calls).plugins;
    var found := DefaultIsTop(mode, order, live, name);
    if found.Some? {
      assert AnswersTo(live, found.value, name, BareVersion(mode, order, name));
    }
  }
}
