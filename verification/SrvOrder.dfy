/**
 Ordering of SRV records (client/ipa-getkeytab.c), after "The format of the SRV RR", Priority and
 Weight, of RFC 2782: groups of equal priority, inside a group repeated weighted selection by swapping.
 What the C library's sort returns (any sorted permutation) and the random draws are parameters.
 Sums of weights are exact here.
 */
module SrvOrder {

  datatype SrvRec = SrvRec(host: string, port: nat, priority: nat, weight: nat)

  ghost predicate ByPriority(s: seq<SrvRec>) {
    forall i, j :: 0 <= i < j < |s| ==> s[i].priority <= s[j].priority
  }

  ghost predicate ByWeight(s: seq<SrvRec>) {
    forall i, j :: 0 <= i < j < |s| ==> s[i].weight <= s[j].weight
  }

  // ---------- weighted selection ----------

  /** A record of weight 0 is given a small chance. */
  function Share(r: SrvRec): real { if r.weight == 0 then 0.01 else r.weight as real }

  function Total(s: seq<SrvRec>): real {
    if s == [] then 0.0 else Share(s[0]) + Total(s[1..])
  }

  /** The first index at which the running weight reaches `r`; the length if it never does. */
  function Pick(s: seq<SrvRec>, r: real): (j: nat)
    ensures j <= |s|
  {
    if s == [] then 0 else if Share(s[0]) >= r then 0 else 1 + Pick(s[1..], r - Share(s[0]))
  }

  function SwapFirst(s: seq<SrvRec>, j: nat): (t: seq<SrvRec>)
    requires s != [] && j <= |s|
    ensures |t| == |s|
  {
    if j == |s| then s else s[0 := s[j]][j := s[0]]
  }

  /** The order of a group: `draws[0]` selects the first slot, the rest of what remains after the swap follows. */
  function Weighted(s: seq<SrvRec>, draws: seq<real>): (w: seq<SrvRec>)
    requires |draws| >= |s|
    ensures |w| == |s|
    decreases |s|
  {
    if |s| <= 1 then s
    else
      var s' := SwapFirst(s, Pick(s, draws[0]));
      [s'[0]] + Weighted(s'[1..], draws[1..])
  }

  lemma {:induction false} TotalPositive(s: seq<SrvRec>)
    ensures Total(s) >= 0.0
  {
    if s != [] {
      TotalPositive(s[1..]);
    }
  }

  /** Which draws select record `j`: an interval as long as its share, so the chance is proportional to the weight. */
  lemma {:induction false} PickIff(s: seq<SrvRec>, r: real, j: nat)
    requires j < |s|
    ensures Pick(s, r) == j <==> (j == 0 || Total(s[..j]) < r) && r <= Total(s[..j]) + Share(s[j])
    decreases |s|
  {
    if j == 0 {
      assert s[..0] == [];
    } else {
      PickIff(s[1..], r - Share(s[0]), j - 1);
      assert s[..j][1..] == s[1..][..j - 1];
      TotalPositive(s[1..][..j - 1]);
      if j == 1 {
        assert s[1..][..0] == [];
      }
    }
  }

  function Weights(s: seq<SrvRec>): nat {
    if s == [] then 0 else s[0].weight + Weights(s[1..])
  }

  function Weightless(s: seq<SrvRec>): nat {
    if s == [] then 0 else (if s[0].weight == 0 then 1 else 0) + Weightless(s[1..])
  }

  lemma {:induction false} TotalIs(s: seq<SrvRec>)
    ensures Total(s) == Weights(s) as real + Weightless(s) as real / 100.0
  {
    if s != [] {
      TotalIs(s[1..]);
    }
  }

  /** Which draws select record `j`, in weights: those above the weights before it, up to its own; 0 counts a hundredth. */
  lemma {:induction false} ChanceIs(s: seq<SrvRec>, r: real, j: nat)
    requires j < |s| && r > 0.0
    ensures var low := Weights(s[..j]) as real + Weightless(s[..j]) as real / 100.0;
      Pick(s, r) == j <==> low < r <= if s[j].weight == 0 then low + 1.0 / 100.0 else low + s[j].weight as real
  {
    PickIff(s, r, j);
    TotalIs(s[..j]);
    if j == 0 {
      assert s[..0] == [];
    }
  }

  /** The scan stops inside the group exactly when the draw does not exceed the total. */
  lemma {:induction false} PickInsideIff(s: seq<SrvRec>, r: real)
    requires s != []
    ensures Pick(s, r) < |s| <==> r <= Total(s)
  {
    if |s| == 1 {
      assert s[1..] == [];
    } else {
      PickInsideIff(s[1..], r - Share(s[0]));
      TotalPositive(s[1..]);
    }
  }

  lemma {:induction false} SwapKeeps(s: seq<SrvRec>, j: nat)
    requires s != [] && j <= |s|
    ensures multiset(SwapFirst(s, j)) == multiset(s)
  {
  }

  lemma {:induction false} ConsKeeps(t: seq<SrvRec>, rest: seq<SrvRec>)
    requires t != [] && multiset(rest) == multiset(t[1..])
    ensures multiset([t[0]] + rest) == multiset(t)
  {
    assert t == [t[0]] + t[1..];
  }

  lemma {:induction false} WeightedPermutes(s: seq<SrvRec>, draws: seq<real>)
    requires |draws| >= |s|
    ensures multiset(Weighted(s, draws)) == multiset(s)
    decreases |s|
  {
    if |s| > 1 {
      var s' := SwapFirst(s, Pick(s, draws[0]));
      SwapKeeps(s, Pick(s, draws[0]));
      WeightedPermutes(s'[1..], draws[1..]);
      ConsKeeps(s', Weighted(s'[1..], draws[1..]));
    }
  }

  /** What is left of a group, in the order of the scan, when slot `k` is drawn. */
  function Remaining(s: seq<SrvRec>, draws: seq<real>, k: nat): (rem: seq<SrvRec>)
    requires |draws| >= |s| && k <= |s|
    ensures |rem| == |s| - k
    decreases |s|
  {
    if k == 0 then s else if |s| <= 1 then s[k..]
    else Remaining(SwapFirst(s, Pick(s, draws[0]))[1..], draws[1..], k - 1)
  }

  /** Slot `k` of the order `w` gets, of the records not placed before it, the one its draw selects. */
  ghost predicate SlotDrawn(s: seq<SrvRec>, draws: seq<real>, w: seq<SrvRec>, k: nat)
    requires |draws| >= |s| == |w| && k < |s|
  {
    var rem := Remaining(s, draws, k);
    && multiset(rem) == multiset(s) - multiset(w[..k])
    && (draws[k] <= Total(rem) ==> Pick(rem, draws[k]) < |rem| && w[k] == rem[Pick(rem, draws[k])])
    && (draws[k] > Total(rem) ==> w[k] == rem[0])
  }

  lemma {:induction false} LeftAfter(s: seq<SrvRec>, t: seq<SrvRec>, w: seq<SrvRec>, rem: seq<SrvRec>)
    requires t != [] && multiset(s) == multiset(t) && multiset(rem) == multiset(t[1..]) - multiset(w)
    ensures multiset(rem) == multiset(s) - multiset([t[0]] + w)
  {
    assert t == [t[0]] + t[1..];
  }

  lemma {:induction false} FirstSlot(s: seq<SrvRec>, draws: seq<real>)
    requires s != [] && |draws| >= |s|
    ensures SlotDrawn(s, draws, Weighted(s, draws), 0)
  {
    PickInsideIff(s, draws[0]);
    assert Weighted(s, draws)[..0] == [];
  }

  /**
   Each slot of a group gets the remaining record that its draw selects; a draw beyond the remaining weight leaves the
   first of them in place.
   */
  lemma {:induction false} SlotGetsPick(s: seq<SrvRec>, draws: seq<real>, k: nat)
    requires |draws| >= |s| && k < |s|
    ensures SlotDrawn(s, draws, Weighted(s, draws), k)
    decreases k
  {
    if k == 0 {
      FirstSlot(s, draws);
    } else {
      var t := SwapFirst(s, Pick(s, draws[0]));
      SlotGetsPick(t[1..], draws[1..], k - 1);
      NextSlot(s, draws, k, t);
    }
  }

  lemma {:induction false} NextSlot(s: seq<SrvRec>, draws: seq<real>, k: nat, t: seq<SrvRec>)
    requires |draws| >= |s| && 0 < k < |s| && t == SwapFirst(s, Pick(s, draws[0]))
    requires SlotDrawn(t[1..], draws[1..], Weighted(t[1..], draws[1..]), k - 1)
    ensures SlotDrawn(s, draws, Weighted(s, draws), k)
  {
    var w := Weighted(t[1..], draws[1..]);
    SwapKeeps(s, Pick(s, draws[0]));
    LeftAfter(s, t, w[..k - 1], Remaining(t[1..], draws[1..], k - 1));
    WeightedTail(s, draws, k, t);
  }

  lemma {:induction false} WeightedTail(s: seq<SrvRec>, draws: seq<real>, k: nat, t: seq<SrvRec>)
    requires |draws| >= |s| && 0 < k < |s| && t == SwapFirst(s, Pick(s, draws[0]))
    ensures var w := Weighted(t[1..], draws[1..]);
      && Weighted(s, draws)[..k] == [t[0]] + w[..k - 1] && Weighted(s, draws)[k] == w[k - 1]
      && Remaining(s, draws, k) == Remaining(t[1..], draws[1..], k - 1)
  {
  }

  // ---------- groups of equal priority ----------

  /** The length of the leading run of equal priority. */
  function GroupLen(s: seq<SrvRec>): (n: nat)
    requires s != []
    ensures 1 <= n <= |s|
  {
    if |s| == 1 || s[1].priority != s[0].priority then 1 else 1 + GroupLen(s[1..])
  }

  /** The run is of equal priority and ends where the priority changes. */
  lemma {:induction false} GroupIsMaximal(s: seq<SrvRec>)
    requires s != []
    ensures forall i :: 0 <= i < GroupLen(s) ==> s[i].priority == s[0].priority
    ensures GroupLen(s) < |s| ==> s[GroupLen(s)].priority != s[0].priority
  {
    if |s| > 1 && s[1].priority == s[0].priority {
      GroupIsMaximal(s[1..]);
      assert forall i :: 0 < i < |s| ==> s[i] == s[1..][i - 1];
    }
  }

  /** `sorts` holds what the C library's sort made of each group of `s`, in turn. */
  ghost predicate GroupSorts(s: seq<SrvRec>, sorts: seq<seq<SrvRec>>)
    decreases |s|
  {
    s != [] ==>
      var n := GroupLen(s);
      sorts != [] && multiset(sorts[0]) == multiset(s[..n]) && ByWeight(sorts[0]) && GroupSorts(s[n..], sorts[1..])
  }

  lemma {:induction false} SameLength(s: seq<SrvRec>, t: seq<SrvRec>)
    requires multiset(s) == multiset(t)
    ensures |s| == |t|
  {
    assert |multiset(s)| == |s| && |multiset(t)| == |t|;
  }

  function Grouped(s: seq<SrvRec>, sorts: seq<seq<SrvRec>>, draws: seq<real>): seq<SrvRec>
    requires GroupSorts(s, sorts) && |draws| >= |s|
    decreases |s|
  {
    if s == [] then []
    else
      var n := GroupLen(s);
      SameLength(sorts[0], s[..n]);
      Weighted(sorts[0], draws) + Grouped(s[n..], sorts[1..], draws[n..])
  }

  lemma {:induction false} JoinPermutes(s: seq<SrvRec>, n: nat, group: seq<SrvRec>, rest: seq<SrvRec>)
    requires n <= |s| && multiset(group) == multiset(s[..n]) && multiset(rest) == multiset(s[n..])
    ensures multiset(group + rest) == multiset(s)
  {
    assert s == s[..n] + s[n..];
  }

  lemma {:induction false} GroupedPermutes(s: seq<SrvRec>, sorts: seq<seq<SrvRec>>, draws: seq<real>)
    requires GroupSorts(s, sorts) && |draws| >= |s|
    ensures multiset(Grouped(s, sorts, draws)) == multiset(s)
    decreases |s|
  {
    if s != [] {
      var n := GroupLen(s);
      SameLength(sorts[0], s[..n]);
      WeightedPermutes(sorts[0], draws);
      GroupedPermutes(s[n..], sorts[1..], draws[n..]);
      JoinPermutes(s, n, Weighted(sorts[0], draws), Grouped(s[n..], sorts[1..], draws[n..]));
    }
  }

  lemma {:induction false} PrioritiesKept(w: seq<SrvRec>, s: seq<SrvRec>, p: nat)
    requires multiset(w) == multiset(s)
    ensures (forall i :: 0 <= i < |s| ==> s[i].priority == p) ==> forall i :: 0 <= i < |w| ==> w[i].priority == p
    ensures (forall i :: 0 <= i < |s| ==> p <= s[i].priority) ==> forall i :: 0 <= i < |w| ==> p <= w[i].priority
  {
    forall i | 0 <= i < |w|
      ensures exists k :: 0 <= k < |s| && s[k] == w[i]
    {
      assert w[i] in multiset(s);
    }
  }

  lemma {:induction false} JoinByPriority(group: seq<SrvRec>, rest: seq<SrvRec>, p: nat)
    requires forall i :: 0 <= i < |group| ==> group[i].priority == p
    requires forall i :: 0 <= i < |rest| ==> p <= rest[i].priority
    requires ByPriority(rest)
    ensures ByPriority(group + rest)
  {
    var s := group + rest;
    forall i, j | 0 <= i < j < |s|
      ensures s[i].priority <= s[j].priority
    {
      if i >= |group| {
        assert s[i] == rest[i - |group|] && s[j] == rest[j - |group|];
      }
    }
  }

  lemma {:induction false} TailByPriority(s: seq<SrvRec>, n: nat)
    requires ByPriority(s) && 0 < n <= |s|
    ensures ByPriority(s[n..]) && forall i :: 0 <= i < |s[n..]| ==> s[0].priority <= s[n..][i].priority
  {
  }

  lemma {:induction false} GroupedSortedStep(s: seq<SrvRec>, group: seq<SrvRec>, rest: seq<SrvRec>)
    requires ByPriority(s) && s != []
    requires multiset(group) == multiset(s[..GroupLen(s)])
    requires multiset(rest) == multiset(s[GroupLen(s)..]) && ByPriority(rest)
    ensures ByPriority(group + rest)
  {
    var n, p := GroupLen(s), s[0].priority;
    GroupIsMaximal(s);
    PrioritiesKept(group, s[..n], p);
    TailByPriority(s, n);
    PrioritiesKept(rest, s[n..], p);
    JoinByPriority(group, rest, p);
  }

  lemma {:induction false} GroupedSorted(s: seq<SrvRec>, sorts: seq<seq<SrvRec>>, draws: seq<real>)
    requires GroupSorts(s, sorts) && |draws| >= |s| && ByPriority(s)
    ensures ByPriority(Grouped(s, sorts, draws))
    decreases |s|
  {
    if s != [] {
      var n := GroupLen(s);
      SameLength(sorts[0], s[..n]);
      WeightedPermutes(sorts[0], draws);
      TailByPriority(s, n);
      GroupedPermutes(s[n..], sorts[1..], draws[n..]);
      GroupedSorted(s[n..], sorts[1..], draws[n..]);
      GroupedSortedStep(s, Weighted(sorts[0], draws), Grouped(s[n..], sorts[1..], draws[n..]));
    }
  }

  /** The records come out permuted and in order of priority, whatever the sort and the draws did. */
  lemma {:induction false} OrderedRecords(records: seq<SrvRec>, sorted: seq<SrvRec>, sorts: seq<seq<SrvRec>>, draws: seq<real>)
    requires multiset(sorted) == multiset(records) && ByPriority(sorted)
    requires GroupSorts(sorted, sorts) && |draws| >= |sorted|
    ensures multiset(Grouped(sorted, sorts, draws)) == multiset(records)
    ensures ByPriority(Grouped(sorted, sorts, draws))
  {
    GroupedPermutes(sorted, sorts, draws);
    GroupedSorted(sorted, sorts, draws);
  }

  // ---------- in place ----------

  /** `qsort` on `a[lo..hi]`, whose result is `sorted`. */
  method SortSlice(a: array<SrvRec>, lo: nat, hi: nat, sorted: seq<SrvRec>)
    requires lo <= hi <= a.Length && |sorted| == hi - lo
    modifies a
    ensures a[lo..hi] == sorted
    ensures a[..lo] == old(a[..lo]) && a[hi..] == old(a[hi..])
  {
    forall i | lo <= i < hi {
      a[i] := sorted[i - lo];
    }
  }

  lemma {:induction false} PickStep(s: seq<SrvRec>, r: real)
    requires s != []
    ensures Pick(s, r) == if Share(s[0]) >= r then 0 else 1 + Pick(s[1..], r - Share(s[0]))
  {
  }

  method Scan(a: array<SrvRec>, i: nat, hi: nat, r: real) returns (j: nat)
    requires i <= hi <= a.Length
    ensures j == i + Pick(a[i..hi], r)
  {
    j := i;
    var running := 0.0;
    ghost var left := r;
    while j < hi
      invariant i <= j <= hi
      invariant left == r - running
      invariant i + Pick(a[i..hi], r) == j + Pick(a[j..hi], left)
    {
      PickStep(a[j..hi], left);
      assert a[j..hi][0] == a[j] && a[j..hi][1..] == a[j + 1..hi];
      running := running + Share(a[j]);
      if running >= r {
        return;
      }
      left := left - Share(a[j]);
      j := j + 1;
    }
  }

  /** One round: scan for the draw, and swap the selected record into slot `i`. */
  method SelectSlot(a: array<SrvRec>, i: nat, hi: nat, r: real)
    requires i < hi <= a.Length
    modifies a
    ensures a[i..hi] == SwapFirst(old(a[i..hi]), Pick(old(a[i..hi]), r))
    ensures a[..i] == old(a[..i]) && a[hi..] == old(a[hi..])
  {
    var j := Scan(a, i, hi, r);
    if j >= hi {
      return;
    }
    a[i], a[j] := a[j], a[i];
  }

  lemma {:induction false} WeightedStep(ready: seq<SrvRec>, s: seq<SrvRec>, draws: seq<real>, s': seq<SrvRec>)
    requires |s| > 1 && |draws| >= |s| && s' == SwapFirst(s, Pick(s, draws[0]))
    ensures ready + Weighted(s, draws) == (ready + [s'[0]]) + Weighted(s'[1..], draws[1..])
  {
  }

  /** The same round inside the group `a[lo..hi]`, of which `a[lo..i]` is settled. */
  method SettleSlot(a: array<SrvRec>, lo: nat, i: nat, hi: nat, r: real)
    requires lo <= i < hi <= a.Length
    modifies a
    ensures var t := SwapFirst(old(a[i..hi]), Pick(old(a[i..hi]), r));
      a[lo..i + 1] == old(a[lo..i]) + [t[0]] && a[i + 1..hi] == t[1..]
    ensures a[..lo] == old(a[..lo]) && a[hi..] == old(a[hi..])
  {
    ghost var before := a[..i];
    SelectSlot(a, i, hi, r);
    assert a[..i][lo..] == a[lo..i] && before[lo..] == old(a[lo..i]);
    assert a[lo..i + 1] == a[lo..i] + [a[i]];
    assert a[i..hi][0] == a[i] && a[i..hi][1..] == a[i + 1..hi];
    assert a[..i][..lo] == a[..lo] && before[..lo] == old(a[..lo]);
  }

  lemma {:induction false} WeightedShort(s: seq<SrvRec>, draws: seq<real>)
    requires |s| <= 1 && |draws| >= |s|
    ensures Weighted(s, draws) == s
  {
  }

  /**
   Part-way through the group `a[lo..hi]`: `a[lo..i]` is settled, the draws left lead to the order `whole`, and the
   records around the group are as they were.
   */
  ghost predicate Selecting(a: array<SrvRec>, lo: nat, i: nat, hi: nat, draws: seq<real>, whole: seq<SrvRec>,
                            left: seq<SrvRec>, right: seq<SrvRec>)
    reads a
  {
    && lo <= i <= hi <= a.Length && |draws| >= hi - i
    && a[lo..i] + Weighted(a[i..hi], draws) == whole
    && a[..lo] == left && a[hi..] == right
  }

  /** One round. */
  method SelectNext(a: array<SrvRec>, lo: nat, i: nat, hi: nat, draws: seq<real>, ghost whole: seq<SrvRec>,
                    ghost left: seq<SrvRec>, ghost right: seq<SrvRec>)
    requires Selecting(a, lo, i, hi, draws, whole, left, right) && i + 1 < hi
    modifies a
    ensures Selecting(a, lo, i + 1, hi, draws[1..], whole, left, right)
  {
    ghost var ready, s := a[lo..i], a[i..hi];
    ghost var t := SwapFirst(s, Pick(s, draws[0]));
    WeightedStep(ready, s, draws, t);
    SettleSlot(a, lo, i, hi, draws[0]);
  }

  lemma {:induction false} Selected(a: array<SrvRec>, lo: nat, i: nat, hi: nat, draws: seq<real>, whole: seq<SrvRec>,
                                    left: seq<SrvRec>, right: seq<SrvRec>)
    requires Selecting(a, lo, i, hi, draws, whole, left, right) && i + 1 >= hi
    ensures a[lo..hi] == whole && a[..lo] == left && a[hi..] == right
  {
    WeightedShort(a[i..hi], draws);
    assert a[lo..hi] == a[lo..i] + a[i..hi];
  }

  lemma {:induction false} SelectingStarts(a: array<SrvRec>, lo: nat, hi: nat, draws: seq<real>)
    requires lo <= hi <= a.Length && |draws| >= hi - lo
    ensures Selecting(a, lo, lo, hi, draws, Weighted(a[lo..hi], draws), a[..lo], a[hi..])
  {
    assert a[lo..lo] == [];
  }

  /** The selection loop over a group. */
  method SelectSlots(a: array<SrvRec>, lo: nat, hi: nat, draws: seq<real>)
    requires lo <= hi <= a.Length && |draws| >= hi - lo
    modifies a
    ensures a[lo..hi] == Weighted(old(a[lo..hi]), draws)
    ensures a[..lo] == old(a[..lo]) && a[hi..] == old(a[hi..])
  {
    ghost var whole, left, right := Weighted(a[lo..hi], draws), a[..lo], a[hi..];
    SelectingStarts(a, lo, hi, draws);
    var i, d := lo, draws;
    while i + 1 < hi
      invariant lo <= i && Selecting(a, lo, i, hi, d, whole, left, right)
    {
      SelectNext(a, lo, i, hi, d, whole, left, right);
      i, d := i + 1, d[1..];
    }
    Selected(a, lo, i, hi, d, whole, left, right);
  }

  /** `sort_prio_weight` on the group `a[lo..hi]`; the draw for a slot is `draws[slot - lo]`. */
  method SortPrioWeight(a: array<SrvRec>, lo: nat, hi: nat, sorted: seq<SrvRec>, draws: seq<real>)
    requires lo <= hi <= a.Length && |sorted| == hi - lo && |draws| >= hi - lo
    modifies a
    ensures a[lo..hi] == Weighted(sorted, draws)
    ensures forall k :: 0 <= k < hi - lo ==> SlotDrawn(sorted, draws, a[lo..hi], k)
    ensures a[..lo] == old(a[..lo]) && a[hi..] == old(a[hi..])
  {
    SortSlice(a, lo, hi, sorted);
    SelectSlots(a, lo, hi, draws);
    forall k | 0 <= k < hi - lo
      ensures SlotDrawn(sorted, draws, Weighted(sorted, draws), k)
    {
      SlotGetsPick(sorted, draws, k);
    }
  }

  /** The end of the run of equal priority that starts at `i`. */
  method GroupEnd(a: array<SrvRec>, i: nat) returns (j: nat)
    requires i < a.Length
    ensures i < j <= a.Length && j == i + GroupLen(a[i..])
  {
    j := i + 1;
    while j < a.Length && a[j].priority == a[i].priority
      invariant i < j <= a.Length
      invariant forall k :: i <= k < j ==> a[k].priority == a[i].priority
    {
      j := j + 1;
    }
    GroupLenIs(a[i..], j - i);
  }

  lemma {:induction false} GroupLenIs(s: seq<SrvRec>, n: nat)
    requires 0 < n <= |s| && forall i :: 0 <= i < n ==> s[i].priority == s[0].priority
    requires n < |s| ==> s[n].priority != s[0].priority
    ensures GroupLen(s) == n
    decreases |s|
  {
    if n > 1 {
      GroupLenIs(s[1..], n - 1);
    }
  }

  /** With `ready` ordered and `s` still to come, the sorts and draws left lead to the order `whole`. */
  ghost predicate OrderingOf(ready: seq<SrvRec>, s: seq<SrvRec>, sorts: seq<seq<SrvRec>>, draws: seq<real>, whole: seq<SrvRec>) {
    GroupSorts(s, sorts) && |draws| >= |s| && ready + Grouped(s, sorts, draws) == whole
  }

  lemma {:induction false} GroupedStep(ready: seq<SrvRec>, s: seq<SrvRec>, sorts: seq<seq<SrvRec>>, draws: seq<real>,
                                       whole: seq<SrvRec>)
    requires s != [] && OrderingOf(ready, s, sorts, draws, whole)
    ensures var n := GroupLen(s);
      && sorts != [] && |sorts[0]| == n
      && OrderingOf(ready + Weighted(sorts[0], draws), s[n..], sorts[1..], draws[n..], whole)
  {
    SameLength(sorts[0], s[..GroupLen(s)]);
  }

  /** Orders the group that starts at `i` and finds the next one. */
  method OrderGroup(a: array<SrvRec>, i: nat, sorted: seq<SrvRec>, draws: seq<real>) returns (j: nat)
    requires i < a.Length && |sorted| == GroupLen(a[i..]) && |draws| >= a.Length - i
    modifies a
    ensures i < j <= a.Length && j - i == |sorted|
    ensures a[..j] == old(a[..i]) + Weighted(sorted, draws)
    ensures a[j..] == old(a[i..])[j - i..]
  {
    j := GroupEnd(a, i);
    ghost var ready, rest := a[..i], a[j..];
    assert a[i..][j - i..] == rest;
    SortPrioWeight(a, i, j, sorted, draws);
    assert a[..i] == ready && a[j..] == rest;
    assert a[..j] == a[..i] + a[i..j];
  }

  /** Part-way through the groups: `a[..i]` is ordered. */
  ghost predicate Ordering(a: array<SrvRec>, i: nat, sorts: seq<seq<SrvRec>>, draws: seq<real>, whole: seq<SrvRec>)
    reads a
  {
    i <= a.Length && OrderingOf(a[..i], a[i..], sorts, draws, whole)
  }

  method OrderNext(a: array<SrvRec>, i: nat, sorts: seq<seq<SrvRec>>, draws: seq<real>, ghost whole: seq<SrvRec>)
    returns (j: nat)
    requires Ordering(a, i, sorts, draws, whole) && i < a.Length
    modifies a
    ensures i < j <= a.Length && j - i <= |draws| && sorts != [] && Ordering(a, j, sorts[1..], draws[j - i..], whole)
  {
    ghost var n := GroupLen(a[i..]);
    GroupedStep(a[..i], a[i..], sorts, draws, whole);
    ghost var ready, rest := a[..i] + Weighted(sorts[0], draws), a[i..][n..];
    j := OrderGroup(a, i, sorts[0], draws);
    OrderingIs(a, j, ready, rest, sorts[1..], draws[n..], whole);
  }

  lemma {:induction false} OrderingIs(a: array<SrvRec>, i: nat, ready: seq<SrvRec>, s: seq<SrvRec>, sorts: seq<seq<SrvRec>>,
                                      draws: seq<real>, whole: seq<SrvRec>)
    requires i <= a.Length && a[..i] == ready && a[i..] == s && OrderingOf(ready, s, sorts, draws, whole)
    ensures Ordering(a, i, sorts, draws, whole)
  {
  }

  /** The loop over the groups of an array already sorted by priority. */
  method OrderGroups(a: array<SrvRec>, sorts: seq<seq<SrvRec>>, draws: seq<real>)
    requires GroupSorts(a[..], sorts) && |draws| >= a.Length
    modifies a
    ensures GroupSorts(old(a[..]), sorts) && a[..] == Grouped(old(a[..]), sorts, draws)
  {
    ghost var whole := Grouped(a[..], sorts, draws);
    var i, ss, d := 0, sorts, draws;
    assert a[0..] == a[..] && a[..0] == [];
    while i < a.Length
      invariant Ordering(a, i, ss, d, whole)
    {
      var j := OrderNext(a, i, ss, d, whole);
      i, ss, d := j, ss[1..], d[j - i..];
    }
    Ordered(a, ss, d, whole);
  }

  lemma {:induction false} Ordered(a: array<SrvRec>, sorts: seq<seq<SrvRec>>, draws: seq<real>, whole: seq<SrvRec>)
    requires Ordering(a, a.Length, sorts, draws, whole)
    ensures a[..] == whole
  {
    assert a[a.Length..] == [] && a[..a.Length] == a[..];
  }

  /** The ordering part of `query_srv`; `sorted` is what the sort by priority made of the array. */
  method OrderRecords(a: array<SrvRec>, sorted: seq<SrvRec>, sorts: seq<seq<SrvRec>>, draws: seq<real>)
    requires multiset(sorted) == multiset(a[..]) && ByPriority(sorted)
    requires GroupSorts(sorted, sorts) && |draws| >= a.Length
    modifies a
    ensures |sorted| == a.Length && a[..] == Grouped(sorted, sorts, draws)
    ensures multiset(a[..]) == multiset(old(a[..])) && ByPriority(a[..])
  {
    OrderedRecords(a[..], sorted, sorts, draws);
    SameLength(sorted, a[..]);
    SortSlice(a, 0, a.Length, sorted);
    assert a[..] == a[0..a.Length];
    OrderGroups(a, sorts, draws);
  }
}
