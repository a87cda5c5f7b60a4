/**
 `Command._on_finalize` (ipalib/frontend.py): the order in which defaults are computed.
 Parameters are inserted one by one, each in front of the earliest parameter already placed
 that derives its default from it.
 */
module ParamOrder {
  import opened Common
  import opened Params

  predicate DistinctNames(ps: seq<Param>) {
    forall i, j :: 0 <= i < j < |ps| ==> ps[i].name != ps[j].name
  }

  /** `user` derives its default from `source`. */
  predicate Uses(user: Param, source: Param) {
    source.name in Sources(user)
  }

  /** Every declared source stands before the parameters that use it. */
  ghost predicate Respects(order: seq<Param>) {
    forall u, s :: 0 <= u < |order| && 0 <= s < |order| && Uses(order[u], order[s]) ==> s < u
  }

  // ---------- the computed order, as a list of declaration indices ----------

  ghost predicate Below(l: seq<nat>, n: nat) {
    forall i :: 0 <= i < |l| ==> l[i] < n
  }

  ghost predicate Distinct(l: seq<nat>) {
    forall i, j :: 0 <= i < j < |l| ==> l[i] != l[j]
  }

  ghost predicate Covers(l: seq<nat>, n: nat) {
    forall x: nat :: x < n ==> x in l
  }

  /** `l` lists each of 0 .. n-1 exactly once. */
  ghost predicate IsPermutation(l: seq<nat>, n: nat) {
    |l| == n && Below(l, n) && Distinct(l) && Covers(l, n)
  }

  function EarliestUser(decls: seq<Param>, placed: seq<nat>, m: nat): (pos: nat)
    requires m < |decls| && Below(placed, |decls|)
    ensures pos <= |placed|
    ensures pos < |placed| ==> Uses(decls[placed[pos]], decls[m])
    ensures forall i :: 0 <= i < pos ==> !Uses(decls[placed[i]], decls[m])
  {
    if placed == [] then 0
    else if Uses(decls[placed[0]], decls[m]) then 0
    else 1 + EarliestUser(decls, placed[1..], m)
  }

  function InsertAt<T>(s: seq<T>, pos: nat, x: T): (r: seq<T>)
    requires pos <= |s|
    ensures |r| == |s| + 1 && r[pos] == x
    ensures forall i :: 0 <= i < pos ==> r[i] == s[i]
    ensures forall i :: pos < i < |r| ==> r[i] == s[i - 1]
  {
    s[..pos] + [x] + s[pos..]
  }

  lemma {:induction false} InsertDistinct(l: seq<nat>, n: nat, pos: nat)
    requires Below(l, n) && Distinct(l) && pos <= |l|
    ensures Distinct(InsertAt(l, pos, n))
  {
    var r := InsertAt(l, pos, n);
    forall i, j | 0 <= i < j < |r|
      ensures r[i] != r[j]
    {
      var i', j' := if i < pos then i else i - 1, if j < pos then j else j - 1;
      if i != pos && j != pos {
        assert r[i] == l[i'] && r[j] == l[j'];
      }
    }
  }

  lemma {:induction false} InsertCovers(l: seq<nat>, n: nat, pos: nat)
    requires Covers(l, n) && pos <= |l|
    ensures Covers(InsertAt(l, pos, n), n + 1)
  {
    var r := InsertAt(l, pos, n);
    forall x: nat | x < n + 1
      ensures x in r
    {
      if x < n {
        assert x in l;
        var i :| 0 <= i < |l| && l[i] == x;
        assert r[if i < pos then i else i + 1] == x;
      }
    }
  }

  lemma {:induction false} InsertPermutes(l: seq<nat>, n: nat, pos: nat)
    requires IsPermutation(l, n) && pos <= n
    ensures IsPermutation(InsertAt(l, pos, n), n + 1)
  {
    InsertDistinct(l, n, pos);
    InsertCovers(l, n, pos);
  }

  function Placement(decls: seq<Param>, n: nat): (l: seq<nat>)
    requires n <= |decls|
    ensures |l| == n && Below(l, n)
  {
    if n == 0 then []
    else
      var placed := Placement(decls, n - 1);
      InsertAt(placed, EarliestUser(decls, placed, n - 1), n - 1)
  }

  lemma {:induction false} PlacementIsPermutation(decls: seq<Param>, n: nat)
    requires n <= |decls|
    ensures IsPermutation(Placement(decls, n), n)
  {
    if n > 0 {
      PlacementIsPermutation(decls, n - 1);
      var placed := Placement(decls, n - 1);
      InsertPermutes(placed, n - 1, EarliestUser(decls, placed, n - 1));
    }
  }

  function Select(decls: seq<Param>, l: seq<nat>): (ps: seq<Param>)
    requires Below(l, |decls|)
    ensures |ps| == |l| && forall i :: 0 <= i < |l| ==> ps[i] == decls[l[i]]
  {
    seq(|l|, i requires 0 <= i < |l| => decls[l[i]])
  }

  function Ordered(decls: seq<Param>): seq<Param> {
    Select(decls, Placement(decls, |decls|))
  }

  lemma {:induction false} SelectInsert(decls: seq<Param>, l: seq<nat>, pos: nat, m: nat)
    requires Below(l, m) && m < |decls| && pos <= |l|
    ensures Select(decls, InsertAt(l, pos, m)) == InsertAt(Select(decls, l), pos, decls[m])
  {
  }

  /** `params.index(j)`, or the length when `j` has not been placed. */
  method FindByName(params: seq<Param>, name: string) returns (pos: nat)
    ensures pos <= |params|
    ensures pos < |params| ==> params[pos].name == name
    ensures forall i :: 0 <= i < pos ==> params[i].name != name
  {
    pos := 0;
    while pos < |params| && params[pos].name != name
      invariant pos <= |params|
      invariant forall i :: 0 <= i < pos ==> params[i].name != name
    {
      pos := pos + 1;
    }
  }

  lemma {:induction false} SameName(decls: seq<Param>, i: nat, j: nat)
    requires DistinctNames(decls) && i < |decls| && j < |decls| && decls[i].name == decls[j].name
    ensures i == j
  {
  }

  /** The inner loop: the smallest index of a placed parameter that uses `decls[n]`. */
  method FindPosition(decls: seq<Param>, params: seq<Param>, n: nat, ghost placed: seq<nat>) returns (pos: nat)
    requires DistinctNames(decls) && n < |decls|
    requires Below(placed, |decls|) && params == Select(decls, placed)
    ensures pos == EarliestUser(decls, placed, n)
  {
    pos := |params|;
    var k: nat := 0;
    while k < |decls|
      invariant k <= |decls| && pos <= |params|
      invariant pos < |params| ==> Uses(decls[placed[pos]], decls[n])
      invariant forall i :: 0 <= i < |placed| && placed[i] < k && Uses(decls[placed[i]], decls[n]) ==> pos <= i
    {
      if decls[n].name in Sources(decls[k]) {
        var at := FindByName(params, decls[k].name);
        if at < |params| {
          SameName(decls, placed[at], k);
        }
        forall i | 0 <= i < |placed| && placed[i] == k
          ensures at <= i
        {
          assert params[i].name == decls[k].name;
        }
        if at < pos {
          pos := at;
        }
      }
      k := k + 1;
    }
  }

  method OrderByDefault(decls: seq<Param>) returns (params: seq<Param>)
    requires DistinctNames(decls)
    ensures params == Ordered(decls)
  {
    params := [];
    var n: nat := 0;
    while n < |decls|
      invariant n <= |decls|
      invariant params == Select(decls, Placement(decls, n))
    {
      var pos := FindPosition(decls, params, n, Placement(decls, n));
      SelectInsert(decls, Placement(decls, n), pos, n);
      params := InsertAt(params, pos, decls[n]);
      n := n + 1;
    }
  }

  // ---------- the same order, described without building a list ----------

  function Max(a: nat, b: nat): nat { if a < b then b else a }

  /**
   Parameter `x` ends up before parameter `y` (declaration indices). A later declaration jumps over
   an earlier one exactly when some user of it, declared earlier still, is that one or precedes it.
   */
  ghost predicate Precedes(decls: seq<Param>, x: nat, y: nat)
    requires x < |decls| && y < |decls| && x != y
    decreases Max(x, y)
  {
    if x < y then !JumpsOver(decls, y, x) else JumpsOver(decls, x, y)
  }

  ghost predicate JumpsOver(decls: seq<Param>, late: nat, early: nat)
    requires early < late < |decls|
    decreases late, 0
  {
    exists w: nat :: w < late && Uses(decls[w], decls[late]) && (w == early || Precedes(decls, w, early))
  }

  function PosOf(l: seq<nat>, x: nat): (i: nat)
    ensures i <= |l| && (i < |l| ==> l[i] == x)
  {
    if l == [] || l[0] == x then 0 else 1 + PosOf(l[1..], x)
  }

  lemma {:induction false} PosUnique(l: seq<nat>, x: nat, i: nat)
    requires Distinct(l) && i < |l| && l[i] == x
    ensures PosOf(l, x) == i
  {
    if i > 0 {
      PosUnique(l[1..], x, i - 1);
    }
  }

  lemma {:induction false} PosExists(l: seq<nat>, n: nat, x: nat)
    requires Covers(l, n) && Distinct(l) && x < n
    ensures PosOf(l, x) < |l|
  {
    assert x in l;
    var i :| 0 <= i < |l| && l[i] == x;
    PosUnique(l, x, i);
  }

  lemma {:induction false} InsertShifts(l: seq<nat>, n: nat, pos: nat, x: nat)
    requires IsPermutation(l, n) && pos <= n && x < n
    ensures PosOf(InsertAt(l, pos, n), x) == PosOf(l, x) + if PosOf(l, x) < pos then 0 else 1
    ensures PosOf(InsertAt(l, pos, n), n) == pos
  {
    var r := InsertAt(l, pos, n);
    InsertDistinct(l, n, pos);
    PosExists(l, n, x);
    var i := PosOf(l, x);
    PosUnique(r, x, i + if i < pos then 0 else 1);
    PosUnique(r, n, pos);
  }

  ghost predicate Before(decls: seq<Param>, n: nat, x: nat, y: nat)
    requires n <= |decls|
  {
    PosOf(Placement(decls, n), x) < PosOf(Placement(decls, n), y)
  }

  /** Placing one more parameter keeps the relative order of those already placed. */
  lemma {:induction false} PlacedStayInOrder(decls: seq<Param>, m: nat, x: nat, y: nat)
    requires m < |decls| && x < m && y < m
    ensures Before(decls, m + 1, x, y) <==> Before(decls, m, x, y)
  {
    var l := Placement(decls, m);
    PlacementIsPermutation(decls, m);
    InsertShifts(l, m, EarliestUser(decls, l, m), x);
    InsertShifts(l, m, EarliestUser(decls, l, m), y);
  }

  /** Some user of the newcomer stands at or before `early`. */
  ghost predicate UserAtOrBefore(decls: seq<Param>, late: nat, early: nat)
    requires early < late < |decls|
  {
    exists w: nat :: w < late && Uses(decls[w], decls[late]) && (w == early || Before(decls, late, w, early))
  }

  lemma {:induction false} EarliestIsUser(decls: seq<Param>, l: seq<nat>, late: nat, early: nat) returns (w: nat)
    requires late < |decls| && IsPermutation(l, late) && early < late
    requires EarliestUser(decls, l, late) <= PosOf(l, early)
    ensures w < late && Uses(decls[w], decls[late]) && (w == early || PosOf(l, w) < PosOf(l, early))
  {
    PosExists(l, late, early);
    var pos := EarliestUser(decls, l, late);
    w := l[pos];
    PosUnique(l, w, pos);
  }

  lemma {:induction false} UserIsNotEarlier(decls: seq<Param>, l: seq<nat>, late: nat, w: nat)
    requires late < |decls| && IsPermutation(l, late) && w < late && Uses(decls[w], decls[late])
    ensures EarliestUser(decls, l, late) <= PosOf(l, w)
  {
    PosExists(l, late, w);
  }

  lemma {:induction false} EarliestUserStands(decls: seq<Param>, late: nat, early: nat)
    requires early < late < |decls|
    ensures UserAtOrBefore(decls, late, early) <==>
      EarliestUser(decls, Placement(decls, late), late) <= PosOf(Placement(decls, late), early)
  {
    var l := Placement(decls, late);
    PlacementIsPermutation(decls, late);
    if UserAtOrBefore(decls, late, early) {
      var w: nat :| w < late && Uses(decls[w], decls[late]) && (w == early || Before(decls, late, w, early));
      UserIsNotEarlier(decls, l, late, w);
    }
    if EarliestUser(decls, l, late) <= PosOf(l, early) {
      var w := EarliestIsUser(decls, l, late, early);
    }
  }

  /** The newcomer lands before an earlier parameter exactly when one of its users stands at or before it. */
  lemma {:induction false} NewcomerLands(decls: seq<Param>, late: nat, early: nat)
    requires early < late < |decls|
    ensures Before(decls, late + 1, late, early) <==> UserAtOrBefore(decls, late, early)
    ensures Before(decls, late + 1, early, late) <==> !UserAtOrBefore(decls, late, early)
  {
    var l := Placement(decls, late);
    PlacementIsPermutation(decls, late);
    EarliestUserStands(decls, late, early);
    InsertShifts(l, late, EarliestUser(decls, l, late), early);
  }

  /** The first `n` parameters, as placed, stand in the order `Precedes` says. */
  ghost predicate Realised(decls: seq<Param>, n: nat)
    requires n <= |decls|
  {
    forall x: nat, y: nat :: x < n && y < n && x != y ==> (Before(decls, n, x, y) <==> Precedes(decls, x, y))
  }

  lemma {:induction false} NewcomerRealised(decls: seq<Param>, late: nat, early: nat)
    requires early < late < |decls| && Realised(decls, late)
    ensures Before(decls, late + 1, late, early) <==> Precedes(decls, late, early)
    ensures Before(decls, late + 1, early, late) <==> Precedes(decls, early, late)
  {
    NewcomerLands(decls, late, early);
  }

  lemma {:induction false} OneMorePair(decls: seq<Param>, m: nat, x: nat, y: nat)
    requires m < |decls| && Realised(decls, m) && x < m + 1 && y < m + 1 && x != y
    ensures Before(decls, m + 1, x, y) <==> Precedes(decls, x, y)
  {
    if x < m && y < m {
      PlacedStayInOrder(decls, m, x, y);
    } else {
      NewcomerRealised(decls, m, if x < m then x else y);
    }
  }

  lemma {:induction false} OneMoreRealised(decls: seq<Param>, m: nat)
    requires m < |decls| && Realised(decls, m)
    ensures Realised(decls, m + 1)
  {
    forall x: nat, y: nat | x < m + 1 && y < m + 1 && x != y
      ensures Before(decls, m + 1, x, y) <==> Precedes(decls, x, y)
    {
      OneMorePair(decls, m, x, y);
    }
  }

  /** The list built by insertion realises `Precedes`. */
  lemma {:induction false} PlacementRealisesPrecedes(decls: seq<Param>, n: nat)
    requires n <= |decls|
    ensures Realised(decls, n)
  {
    if n > 0 {
      PlacementRealisesPrecedes(decls, n - 1);
      OneMoreRealised(decls, n - 1);
    }
  }

  // ---------- what the order guarantees ----------

  lemma {:induction false} InsertMultiset<T>(s: seq<T>, pos: nat, x: T)
    requires pos <= |s|
    ensures multiset(InsertAt(s, pos, x)) == multiset(s) + multiset{x}
  {
    assert s == s[..pos] + s[pos..];
  }

  lemma {:induction false} InsertNext(decls: seq<Param>, l: seq<nat>, pos: nat, m: nat)
    requires Below(l, m) && m < |decls| && pos <= |l|
    requires multiset(Select(decls, l)) == multiset(decls[..m])
    ensures multiset(Select(decls, InsertAt(l, pos, m))) == multiset(decls[..m + 1])
  {
    SelectInsert(decls, l, pos, m);
    InsertMultiset(Select(decls, l), pos, decls[m]);
    assert decls[..m + 1] == decls[..m] + [decls[m]];
  }

  /** The order loses and invents no parameter. */
  lemma {:induction false} OrderIsPermutation(decls: seq<Param>, n: nat)
    requires n <= |decls|
    ensures multiset(Select(decls, Placement(decls, n))) == multiset(decls[..n])
  {
    if n > 0 {
      OrderIsPermutation(decls, n - 1);
      var l := Placement(decls, n - 1);
      InsertNext(decls, l, EarliestUser(decls, l, n - 1), n - 1);
    }
  }

  /** `u` is declared after its source `s` and its user `w`, and `w` already stands at or before `s`. */
  ghost predicate LateMiddle(decls: seq<Param>, s: nat, u: nat, w: nat) {
    && s < u < |decls| && w < u
    && Uses(decls[u], decls[s]) && Uses(decls[w], decls[u])
    && (w == s || Precedes(decls, w, s))
  }

  ghost predicate UsesItself(decls: seq<Param>) {
    exists u :: 0 <= u < |decls| && Uses(decls[u], decls[u])
  }

  /** A user that jumps over one of its sources is a late middle, and conversely. */
  lemma {:induction false} SourceBeforeUser(decls: seq<Param>, s: nat, u: nat)
    requires s < |decls| && u < |decls| && s != u && Uses(decls[u], decls[s])
    ensures Precedes(decls, s, u) <==> !exists w: nat :: LateMiddle(decls, s, u, w)
  {
    if s < u {
      if JumpsOver(decls, u, s) {
        var w: nat :| w < u && Uses(decls[w], decls[u]) && (w == s || Precedes(decls, w, s));
        assert LateMiddle(decls, s, u, w);
      }
    } else {
      assert JumpsOver(decls, s, u);
    }
  }

  /** Exactly when every source precedes its users in `params_by_default`. */
  lemma {:induction false} OrderRespectsIff(decls: seq<Param>)
    requires DistinctNames(decls)
    ensures Respects(Ordered(decls)) <==>
      !UsesItself(decls) && forall s: nat, u: nat, w: nat :: !LateMiddle(decls, s, u, w)
  {
    var l := Placement(decls, |decls|);
    PlacementIsPermutation(decls, |decls|);
    var order := Ordered(decls);
    if Respects(order) {
      forall u | 0 <= u < |decls|
        ensures !Uses(decls[u], decls[u])
      {
        PosExists(l, |decls|, u);
        assert Uses(order[PosOf(l, u)], order[PosOf(l, u)]) <==> Uses(decls[u], decls[u]);
      }
      forall s: nat, u: nat, w: nat
        ensures !LateMiddle(decls, s, u, w)
      {
        if LateMiddle(decls, s, u, w) {
          PosExists(l, |decls|, s);
          PosExists(l, |decls|, u);
          var i, j := PosOf(l, s), PosOf(l, u);
          assert Uses(order[j], order[i]);
          PlacementRealisesPrecedes(decls, |decls|);
          SourceBeforeUser(decls, s, u);
        }
      }
    } else {
      var j, i :| 0 <= j < |order| && 0 <= i < |order| && Uses(order[j], order[i]) && !(i < j);
      var s, u := l[i], l[j];
      PosUnique(l, s, i);
      PosUnique(l, u, j);
      if s != u {
        PlacementRealisesPrecedes(decls, |decls|);
        SourceBeforeUser(decls, s, u);
      }
    }
  }

  /** A sufficient condition read off the declarations: no parameter follows both a source and a user of it. */
  lemma {:induction false} MiddlesDeclaredInTime(decls: seq<Param>)
    requires DistinctNames(decls) && !UsesItself(decls)
    requires forall s, u, w :: 0 <= s < u < |decls| && 0 <= w < u && Uses(decls[u], decls[s]) ==> !Uses(decls[w], decls[u])
    ensures Respects(Ordered(decls))
  {
    OrderRespectsIff(decls);
  }

  /** Covered by it: parameters with `default_from` are never themselves sources. */
  lemma {:induction false} NoChains(decls: seq<Param>)
    requires DistinctNames(decls)
    requires forall u, w :: 0 <= u < |decls| && 0 <= w < |decls| && Uses(decls[w], decls[u]) ==> Sources(decls[u]) == []
    ensures Respects(Ordered(decls))
  {
    MiddlesDeclaredInTime(decls);
  }

  /** Covered by it: the declaration order already respects the dependencies. */
  lemma {:induction false} AlreadyOrdered(decls: seq<Param>)
    requires DistinctNames(decls) && Respects(decls)
    ensures Respects(Ordered(decls))
  {
    MiddlesDeclaredInTime(decls);
  }

  function Plain(name: string, keys: seq<string>): Param {
    Param(name, false, false, false, false, false, NoneValue,
          if keys == [] then None else Some(DefaultFrom(keys, vals => Some(Tuple(vals)))),
          None, v => Ok(v), v => None)
  }

  /** Declaring a, c, b with "a uses b" and "b uses c" puts b in front of its source c. */
  lemma {:induction false} ChainOutOfOrder()
    ensures var decls := [Plain("a", ["b"]), Plain("c", []), Plain("b", ["c"])];
      Placement(decls, 3) == [2, 0, 1] && !Respects(Ordered(decls))
  {
    var decls := [Plain("a", ["b"]), Plain("c", []), Plain("b", ["c"])];
    var d0, d1, d2 := decls[0], decls[1], decls[2];
    assert Sources(d0) == ["b"] && Sources(d1) == [] && Sources(d2) == ["c"];
    assert Placement(decls, 0) == [];
    assert Placement(decls, 1) == [0];
    assert Placement(decls, 2) == [0, 1];
    assert Placement(decls, 3) == [2, 0, 1];
    var order := Ordered(decls);
    assert order[0] == d2 && order[2] == d1;
    assert Uses(order[0], order[2]);
  }
}
