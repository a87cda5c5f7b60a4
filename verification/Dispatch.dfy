/**
 The self-filling type dispatch table of `_JSONPrimer` (ipalib/ipajson.py). A class that is not in the
 table is looked up along its method resolution order, then among virtual subclasses, and the answer
 is written back into the table under the class itself.
 */
module Dispatch {
  import opened Common

  /** Classes and handlers by identity. */
  type Class = int
  type Handler = int

  /** `__mro__` and `issubclass`, which also knows subclasses registered with an abstract base class. */
  datatype Hierarchy = Hierarchy(mro: Class -> seq<Class>, isSubclass: (Class, Class) -> bool)

  datatype Entry = Entry(cls: Class, handler: Handler)

  /** The dict, in insertion order. */
  type Table = seq<Entry>

  // ---------- one lookup ----------

  function Find(t: Table, c: Class): Option<Handler> {
    if t == [] then None else if t[0].cls == c then Some(t[0].handler) else Find(t[1..], c)
  }

  function FirstInMro(t: Table, mro: seq<Class>): Option<Handler> {
    if mro == [] then None else if Find(t, mro[0]).Some? then Find(t, mro[0]) else FirstInMro(t, mro[1..])
  }

  function FirstVirtual(h: Hierarchy, t: Table, c: Class): Option<Handler> {
    if t == [] then None
    else if h.isSubclass(c, t[0].cls) then Some(t[0].handler) else FirstVirtual(h, t[1..], c)
  }

  /** The search of `__missing__`. */
  function Search(h: Hierarchy, t: Table, c: Class): Option<Handler> {
    if FirstInMro(t, h.mro(c)).Some? then FirstInMro(t, h.mro(c)) else FirstVirtual(h, t, c)
  }

  /** The handler that `self[c]` yields; `None` is a TypeError. */
  function Lookup(h: Hierarchy, t: Table, c: Class): Option<Handler> {
    if Find(t, c).Some? then Find(t, c) else Search(h, t, c)
  }

  function After(h: Hierarchy, t: Table, c: Class): Table {
    if Find(t, c).Some? || Search(h, t, c).None? then t else t + [Entry(c, Search(h, t, c).value)]
  }

  class Primer {
    const hierarchy: Hierarchy
    var table: Table

    constructor (hierarchy: Hierarchy, initial: Table)
      ensures this.hierarchy == hierarchy && table == initial
    {
      this.hierarchy := hierarchy;
      table := initial;
    }

    method Stored(c: Class) returns (r: Option<Handler>)
      ensures r == Find(table, c)
    {
      var i := 0;
      while i < |table|
        invariant 0 <= i <= |table|
        invariant Find(table, c) == Find(table[i..], c)
      {
        if table[i].cls == c {
          return Some(table[i].handler);
        }
        i := i + 1;
      }
      return None;
    }

    method Missing(c: Class) returns (r: Option<Handler>)
      requires Find(table, c).None?
      modifies this
      ensures r == Search(hierarchy, old(table), c) && table == After(hierarchy, old(table), c)
    {
      var mro := hierarchy.mro(c);
      var i := 0;
      while i < |mro|
        invariant 0 <= i <= |mro| && table == old(table)
        invariant FirstInMro(table, mro) == FirstInMro(table, mro[i..])
      {
        var found := Stored(mro[i]);
        if found.Some? {
          table := table + [Entry(c, found.value)];
          return found;
        }
        i := i + 1;
      }
      i := 0;
      while i < |table|
        invariant 0 <= i <= |table| && table == old(table)
        invariant FirstVirtual(hierarchy, table, c) == FirstVirtual(hierarchy, table[i..], c)
      {
        if hierarchy.isSubclass(c, table[i].cls) {
          var found := table[i].handler;
          table := table + [Entry(c, found)];
          return Some(found);
        }
        i := i + 1;
      }
      return None;
    }

    method Get(c: Class) returns (r: Option<Handler>)
      modifies this
      ensures r == Lookup(hierarchy, old(table), c) && table == After(hierarchy, old(table), c)
    {
      r := Stored(c);
      if r.None? {
        r := Missing(c);
      }
    }
  }

  // ---------- runs ----------

  /** The handlers used over a sequence of conversions, starting from table `t`. */
  function Answers(h: Hierarchy, t: Table, queries: seq<Class>): seq<Option<Handler>>
    decreases |queries|
  {
    if queries == [] then []
    else [Lookup(h, t, queries[0])] + Answers(h, After(h, t, queries[0]), queries[1..])
  }

  function Uncached(h: Hierarchy, initial: Table, queries: seq<Class>): seq<Option<Handler>> {
    if queries == [] then [] else [Lookup(h, initial, queries[0])] + Uncached(h, initial, queries[1..])
  }

  ghost predicate Transparent(h: Hierarchy, initial: Table) {
    forall queries :: Answers(h, initial, queries) == Uncached(h, initial, queries)
  }

  /** `e` comes up in the resolution order of `d` before any class of the initial table. */
  ghost predicate Ahead(initial: Table, mro: seq<Class>, e: Class) {
    mro != [] && Find(initial, mro[0]).None? && (mro[0] == e || Ahead(initial, mro[1..], e))
  }

  /** Serving `d` from a cached `e` would give what serving it from the initial table gives. */
  ghost predicate Agrees(h: Hierarchy, initial: Table, d: Class, e: Class) {
    && (Ahead(initial, h.mro(d), e) && Lookup(h, initial, e).Some? ==> Lookup(h, initial, e) == Lookup(h, initial, d))
    && (Lookup(h, initial, d).None? && h.isSubclass(d, e) ==> Lookup(h, initial, e).None?)
  }

  ghost predicate Stable(h: Hierarchy, initial: Table) {
    forall d, e :: Find(initial, d).None? ==> Agrees(h, initial, d, e)
  }

  /** The table of a running primer: the initial entries, then answers of the initial table. */
  ghost predicate Caches(h: Hierarchy, initial: Table, extra: Table) {
    forall i :: 0 <= i < |extra| ==>
      Find(initial, extra[i].cls).None? && Lookup(h, initial, extra[i].cls) == Some(extra[i].handler)
  }

  lemma {:induction false} FindInSum(a: Table, b: Table, c: Class)
    ensures Find(a + b, c) == if Find(a, c).Some? then Find(a, c) else Find(b, c)
  {
    if a == [] {
      assert a + b == b;
    } else {
      assert (a + b)[1..] == a[1..] + b;
      FindInSum(a[1..], b, c);
    }
  }

  lemma {:induction false} FindCached(h: Hierarchy, initial: Table, extra: Table, c: Class)
    requires Caches(h, initial, extra)
    ensures Find(extra, c).Some? ==> Find(initial, c).None? && Find(extra, c) == Lookup(h, initial, c)
  {
    if extra != [] && extra[0].cls != c {
      FindCached(h, initial, extra[1..], c);
    }
  }

  lemma {:induction false} VirtualInSum(h: Hierarchy, a: Table, b: Table, c: Class)
    ensures FirstVirtual(h, a + b, c) ==
      if FirstVirtual(h, a, c).Some? then FirstVirtual(h, a, c) else FirstVirtual(h, b, c)
  {
    if a == [] {
      assert a + b == b;
    } else {
      assert (a + b)[1..] == a[1..] + b;
      VirtualInSum(h, a[1..], b, c);
    }
  }

  /** Walking the resolution order of `d`: a cached class found on the way agrees with the initial table. */
  lemma {:induction false} MroWalk(h: Hierarchy, initial: Table, extra: Table, d: Class, mro: seq<Class>)
    requires Caches(h, initial, extra)
    requires forall e :: Ahead(initial, mro, e) && Lookup(h, initial, e).Some? ==>
      Lookup(h, initial, e) == Lookup(h, initial, d)
    ensures FirstInMro(initial + extra, mro) == FirstInMro(initial, mro)
      || (FirstInMro(initial + extra, mro).Some? && FirstInMro(initial + extra, mro) == Lookup(h, initial, d))
    ensures FirstInMro(initial + extra, mro).None? ==> FirstInMro(initial, mro).None?
    decreases |mro|
  {
    if mro != [] {
      FindInSum(initial, extra, mro[0]);
      FindCached(h, initial, extra, mro[0]);
      if Find(initial, mro[0]).None? {
        assert Ahead(initial, mro, mro[0]);
        forall e | Ahead(initial, mro[1..], e)
          ensures Ahead(initial, mro, e)
        {
        }
        MroWalk(h, initial, extra, d, mro[1..]);
      }
    }
  }

  lemma {:induction false} VirtualCached(h: Hierarchy, initial: Table, extra: Table, d: Class)
    requires Caches(h, initial, extra) && Lookup(h, initial, d).None?
    requires forall e :: h.isSubclass(d, e) ==> Lookup(h, initial, e).None?
    ensures FirstVirtual(h, extra, d).None?
  {
    if extra != [] {
      VirtualCached(h, initial, extra[1..], d);
    }
  }

  /** In a stable hierarchy a filled table answers like the initial one. */
  lemma {:induction false} CachedLookup(h: Hierarchy, initial: Table, extra: Table, d: Class)
    requires Stable(h, initial) && Caches(h, initial, extra)
    ensures Lookup(h, initial + extra, d) == Lookup(h, initial, d)
  {
    FindInSum(initial, extra, d);
    FindCached(h, initial, extra, d);
    if Find(initial, d).None? && Find(extra, d).None? {
      forall e
        ensures Agrees(h, initial, d, e)
        ensures Ahead(initial, h.mro(d), e) && Lookup(h, initial, e).Some? ==>
          Lookup(h, initial, e) == Lookup(h, initial, d)
      {
      }
      MroWalk(h, initial, extra, d, h.mro(d));
      VirtualInSum(h, initial, extra, d);
      if Lookup(h, initial, d).None? {
        forall e | h.isSubclass(d, e)
          ensures Lookup(h, initial, e).None?
        {
          assert Agrees(h, initial, d, e);
        }
        VirtualCached(h, initial, extra, d);
      }
    }
  }

  lemma {:induction false} StableRun(h: Hierarchy, initial: Table, extra: Table, queries: seq<Class>)
    requires Stable(h, initial) && Caches(h, initial, extra)
    ensures Answers(h, initial + extra, queries) == Uncached(h, initial, queries)
    decreases |queries|
  {
    if queries != [] {
      var t, c := initial + extra, queries[0];
      CachedLookup(h, initial, extra, c);
      FindInSum(initial, extra, c);
      if After(h, t, c) == t {
        StableRun(h, initial, extra, queries[1..]);
      } else {
        var more := extra + [Entry(c, Search(h, t, c).value)];
        assert After(h, t, c) == initial + more;
        StableRun(h, initial, more, queries[1..]);
      }
    }
  }

  /** A cached class ahead of everything else on the way takes over. */
  lemma {:induction false} TakesOver(initial: Table, e: Entry, mro: seq<Class>)
    requires Ahead(initial, mro, e.cls)
    ensures FirstInMro(initial + [e], mro) == Some(e.handler)
    decreases |mro|
  {
    FindInSum(initial, [e], mro[0]);
    if mro[0] != e.cls {
      assert Find([e], mro[0]) == Find([e][1..], mro[0]) == None;
      TakesOver(initial, e, mro[1..]);
    }
  }

  lemma {:induction false} AheadNotInitial(initial: Table, mro: seq<Class>, e: Class)
    requires Ahead(initial, mro, e)
    ensures Find(initial, e).None?
    decreases |mro|
  {
    if mro[0] != e {
      AheadNotInitial(initial, mro[1..], e);
    }
  }

  lemma {:induction false} VirtualOfInitial(h: Hierarchy, initial: Table, d: Class, c: Class)
    requires Find(initial, c).Some? && h.isSubclass(d, c)
    ensures FirstVirtual(h, initial, d).Some?
  {
    if initial[0].cls != c {
      VirtualOfInitial(h, initial[1..], d, c);
    }
  }

  /** Asking for `e` first changes the answer for `d`. */
  lemma {:induction false} Disagreement(h: Hierarchy, initial: Table, d: Class, e: Class)
    requires Find(initial, d).None? && !Agrees(h, initial, d, e)
    ensures Lookup(h, After(h, initial, e), d) != Lookup(h, initial, d)
  {
    if Find(initial, e).Some? {
      if Ahead(initial, h.mro(d), e) {
        AheadNotInitial(initial, h.mro(d), e);
      } else {
        VirtualOfInitial(h, initial, d, e);
      }
    } else {
      var entry := Entry(e, Lookup(h, initial, e).value);
      assert After(h, initial, e) == initial + [entry];
      FindInSum(initial, [entry], d);
      assert Find([entry], d) == if e == d then Some(entry.handler) else Find([entry][1..], d);
      if Ahead(initial, h.mro(d), e) && Lookup(h, initial, e) != Lookup(h, initial, d) {
        TakesOver(initial, entry, h.mro(d));
      } else {
        VirtualInSum(h, initial, [entry], d);
      }
    }
  }

  /** The cache is invisible over every run exactly when the hierarchy is stable. */
  lemma {:induction false} TransparentIff(h: Hierarchy, initial: Table)
    ensures Transparent(h, initial) <==> Stable(h, initial)
  {
    if Stable(h, initial) {
      forall queries
        ensures Answers(h, initial, queries) == Uncached(h, initial, queries)
      {
        assert initial + [] == initial;
        StableRun(h, initial, [], queries);
      }
    } else {
      var d, e :| Find(initial, d).None? && !Agrees(h, initial, d, e);
      Disagreement(h, initial, d, e);
      var queries := [e, d];
      assert queries[1..] == [d];
      var t := After(h, initial, e);
      assert Answers(h, t, [d]) == [Lookup(h, t, d)] + Answers(h, After(h, t, d), [d][1..]);
      assert Answers(h, initial, queries) == [Lookup(h, initial, e)] + Answers(h, t, [d]);
      assert Uncached(h, initial, [d]) == [Lookup(h, initial, d)] + Uncached(h, initial, [d][1..]);
      assert Uncached(h, initial, queries) == [Lookup(h, initial, e)] + Uncached(h, initial, [d]);
      assert Answers(h, initial, queries)[1] != Uncached(h, initial, queries)[1];
    }
  }

  // ---------- a condition on ancestors ----------

  /** The resolution order lists ancestors, and being a subclass carries over to ancestors. */
  ghost predicate Coherent(h: Hierarchy) {
    && (forall d, c :: c in h.mro(d) ==> h.isSubclass(d, c))
    && (forall a, b, c :: h.isSubclass(a, b) && h.isSubclass(b, c) ==> h.isSubclass(a, c))
  }

  /** No class outside the table has two registered ancestors, real or virtual. */
  ghost predicate SingleAncestor(h: Hierarchy, initial: Table) {
    forall d, a, b ::
      (&& Find(initial, d).None? && Find(initial, a).Some? && Find(initial, b).Some?
       && h.isSubclass(d, a) && h.isSubclass(d, b)) ==> a == b
  }

  lemma {:induction false} VirtualAncestor(h: Hierarchy, t: Table, d: Class) returns (c: Class)
    requires FirstVirtual(h, t, d).Some?
    ensures h.isSubclass(d, c) && Find(t, c).Some?
    ensures (forall i, j :: 0 <= i < j < |t| ==> t[i].cls != t[j].cls) ==> FirstVirtual(h, t, d) == Find(t, c)
  {
    if h.isSubclass(d, t[0].cls) {
      c := t[0].cls;
    } else {
      c := VirtualAncestor(h, t[1..], d);
    }
  }

  lemma {:induction false} MroAncestor(t: Table, mro: seq<Class>) returns (c: Class)
    requires FirstInMro(t, mro).Some?
    ensures c in mro && Find(t, c) == FirstInMro(t, mro)
    decreases |mro|
  {
    if Find(t, mro[0]).Some? {
      c := mro[0];
    } else {
      c := MroAncestor(t, mro[1..]);
    }
  }

  ghost predicate DistinctKeys(t: Table) {
    forall i, j :: 0 <= i < j < |t| ==> t[i].cls != t[j].cls
  }

  lemma {:induction false} ServedByAncestor(h: Hierarchy, initial: Table, d: Class) returns (c: Class)
    requires Coherent(h) && DistinctKeys(initial) && Find(initial, d).None? && Lookup(h, initial, d).Some?
    ensures h.isSubclass(d, c) && Find(initial, c) == Lookup(h, initial, d)
  {
    if FirstInMro(initial, h.mro(d)).Some? {
      c := MroAncestor(initial, h.mro(d));
    } else {
      c := VirtualAncestor(h, initial, d);
    }
  }

  lemma {:induction false} AheadInMro(initial: Table, mro: seq<Class>, e: Class)
    requires Ahead(initial, mro, e)
    ensures e in mro
    decreases |mro|
  {
    if mro[0] != e {
      AheadInMro(initial, mro[1..], e);
    }
  }

  /** Single ancestors make the hierarchy stable, hence the cache invisible. */
  lemma {:induction false} SingleAncestorStable(h: Hierarchy, initial: Table)
    requires Coherent(h) && DistinctKeys(initial) && SingleAncestor(h, initial)
    ensures Stable(h, initial) && Transparent(h, initial)
  {
    forall d, e | Find(initial, d).None?
      ensures Agrees(h, initial, d, e)
    {
      if Ahead(initial, h.mro(d), e) {
        AheadInMro(initial, h.mro(d), e);
        AheadNotInitial(initial, h.mro(d), e);
      }
      if h.isSubclass(d, e) && Lookup(h, initial, e).Some? {
        var c := e;
        if Find(initial, e).None? {
          c := ServedByAncestor(h, initial, e);
        }
        assert h.isSubclass(d, c);
        VirtualOfInitial(h, initial, d, c);
        var c' := ServedByAncestor(h, initial, d);
        assert c == c';
      }
    }
    TransparentIff(h, initial);
  }

  /**
   Without it the cache shows, with two registered classes that are unrelated: 3 and 4 are registered, 1 inherits from 4,
   2 from 3 and 4, and 0 from 1 and 2. Alone, 0 is served as a 3; once 1 has been served as a 4, so is 0.
   */
  lemma {:induction false} CacheShows(h: Hierarchy)
    requires h.mro(0) == [0, 1, 2, 3, 4] && h.mro(1) == [1, 4] && h.mro(2) == [2, 3, 4] && h.mro(3) == [3] && h.mro(4) == [4]
    ensures var initial := [Entry(3, 30), Entry(4, 40)];
      Answers(h, initial, [1, 0]) == [Some(40), Some(40)] && Uncached(h, initial, [1, 0]) == [Some(40), Some(30)]
  {
    var initial := [Entry(3, 30), Entry(4, 40)];
    var filled := initial + [Entry(1, 40)];
    ShownEntries();
    ShownOrders();
    assert After(h, initial, 1) == filled;
    assert [1, 0][1..] == [0] && [0][1..] == [];
    assert Answers(h, filled, [0]) == [Some(40)] + Answers(h, After(h, filled, 0), []);
    assert Uncached(h, initial, [0]) == [Some(30)] + Uncached(h, initial, []);
  }

  lemma {:induction false} ShownEntries()
    ensures var initial := [Entry(3, 30), Entry(4, 40)];
      forall c :: Find(initial, c) == if c == 3 then Some(30) else if c == 4 then Some(40) else None
    ensures var filled := [Entry(3, 30), Entry(4, 40)] + [Entry(1, 40)];
      forall c :: Find(filled, c) == if c == 3 then Some(30) else if c == 4 || c == 1 then Some(40) else None
  {
    var initial := [Entry(3, 30), Entry(4, 40)];
    var filled := initial + [Entry(1, 40)];
    assert initial[1..] == [Entry(4, 40)] && [Entry(4, 40)][1..] == [] && [Entry(1, 40)][1..] == [];
    assert forall c :: Find([Entry(4, 40)], c) == if c == 4 then Some(40) else None;
    assert forall c :: Find([Entry(1, 40)], c) == if c == 1 then Some(40) else None;
    forall c
      ensures Find(filled, c) == if c == 3 then Some(30) else if c == 4 || c == 1 then Some(40) else None
    {
      FindInSum(initial, [Entry(1, 40)], c);
    }
  }

  lemma {:induction false} ShownOrders()
    ensures var initial := [Entry(3, 30), Entry(4, 40)];
      FirstInMro(initial, [1, 4]) == Some(40) && FirstInMro(initial, [0, 1, 2, 3, 4]) == Some(30)
    ensures FirstInMro([Entry(3, 30), Entry(4, 40)] + [Entry(1, 40)], [0, 1, 2, 3, 4]) == Some(40)
  {
    var initial := [Entry(3, 30), Entry(4, 40)];
    var filled := initial + [Entry(1, 40)];
    ShownEntries();
    assert [0, 1, 2, 3, 4][1..] == [1, 2, 3, 4] && [1, 2, 3, 4][1..] == [2, 3, 4] && [2, 3, 4][1..] == [3, 4] && [1, 4][1..] == [4];
    assert FirstInMro(initial, [4]) == Some(40) && FirstInMro(initial, [3, 4]) == Some(30);
    assert FirstInMro(initial, [2, 3, 4]) == Some(30) && FirstInMro(initial, [1, 2, 3, 4]) == Some(30);
    assert FirstInMro(filled, [1, 2, 3, 4]) == Some(40);
  }

  // ---------- who serves a class ----------

  ghost predicate Absent(t: Table, c: Class) { forall i :: 0 <= i < |t| ==> t[i].cls != c }

  /** The first entry for a class. */
  ghost predicate EntryAt(t: Table, c: Class, i: nat) { i < |t| && t[i].cls == c && Absent(t[..i], c) }

  lemma {:induction false} FindIs(t: Table, c: Class, i: nat)
    ensures EntryAt(t, c, i) ==> Find(t, c) == Some(t[i].handler)
    ensures Absent(t, c) <==> Find(t, c).None?
  {
    if t != [] {
      if i > 0 {
        FindIs(t[1..], c, i - 1);
        if EntryAt(t, c, i) {
          assert t[..i][0] == t[0] && t[1..][..i - 1] == t[..i][1..];
        }
      } else {
        FindIs(t[1..], c, 0);
      }
      assert forall j :: 0 < j < |t| ==> t[j] == t[1..][j - 1];
    }
  }

  /** A class in the table is served by its own entry. */
  lemma {:induction false} ServedByItself(h: Hierarchy, t: Table, c: Class, i: nat)
    requires EntryAt(t, c, i)
    ensures Lookup(h, t, c) == Some(t[i].handler)
  {
    FindIs(t, c, i);
  }

  lemma {:induction false} FirstInMroIs(t: Table, mro: seq<Class>, k: nat, i: nat)
    requires k < |mro| && EntryAt(t, mro[k], i) && forall j :: 0 <= j < k ==> Absent(t, mro[j])
    ensures FirstInMro(t, mro) == Some(t[i].handler)
  {
    if k > 0 {
      FindIs(t, mro[0], 0);
      FirstInMroIs(t, mro[1..], k - 1, i);
    } else {
      FindIs(t, mro[0], i);
    }
  }

  lemma {:induction false} NoneInMro(t: Table, mro: seq<Class>)
    requires forall j :: 0 <= j < |mro| ==> Absent(t, mro[j])
    ensures FirstInMro(t, mro).None?
  {
    if mro != [] {
      FindIs(t, mro[0], 0);
      NoneInMro(t, mro[1..]);
    }
  }

  /** Any other class is served by the first class of its resolution order that is in the table. */
  lemma {:induction false} ServedInMro(h: Hierarchy, t: Table, c: Class, k: nat, i: nat)
    requires Absent(t, c) && k < |h.mro(c)| && EntryAt(t, h.mro(c)[k], i)
    requires forall j :: 0 <= j < k ==> Absent(t, h.mro(c)[j])
    ensures Lookup(h, t, c) == Some(t[i].handler)
  {
    FindIs(t, c, 0);
    FirstInMroIs(t, h.mro(c), k, i);
  }

  lemma {:induction false} FirstVirtualIs(h: Hierarchy, t: Table, c: Class, i: nat)
    requires forall j :: 0 <= j < i && j < |t| ==> !h.isSubclass(c, t[j].cls)
    ensures i < |t| && h.isSubclass(c, t[i].cls) ==> FirstVirtual(h, t, c) == Some(t[i].handler)
    ensures i == |t| ==> FirstVirtual(h, t, c).None?
  {
    if i > 0 && t != [] {
      FirstVirtualIs(h, t[1..], c, i - 1);
    }
  }

  /** If there is none, by the first entry it is a virtual subclass of; and by nothing if there is none of those either. */
  lemma {:induction false} ServedVirtually(h: Hierarchy, t: Table, c: Class, i: nat)
    requires Absent(t, c) && forall j :: 0 <= j < |h.mro(c)| ==> Absent(t, h.mro(c)[j])
    requires i <= |t| && forall j :: 0 <= j < i ==> !h.isSubclass(c, t[j].cls)
    ensures i < |t| && h.isSubclass(c, t[i].cls) ==> Lookup(h, t, c) == Some(t[i].handler)
    ensures i == |t| ==> Lookup(h, t, c).None?
  {
    FindIs(t, c, 0);
    NoneInMro(t, h.mro(c));
    FirstVirtualIs(h, t, c, i);
  }
}
