/**
 `filter_keys` (client/ipa-getkeytab.c): removes, in place and from two parallel arrays, the keys whose
 encryption type the KDC did not accept, and frees them.
 */
module KeyFilter {

  /** A key is told apart by its material; `enctype` is the type it was made for. */
  datatype Key = Key(material: int, enctype: int)

  datatype Pair = Pair(key: Key, returned: int)

  /** The KDC answered 0 for a key made for another type. */
  predicate Rejected(p: Pair) { p.key.enctype != p.returned && p.returned == 0 }

  function Kept(ps: seq<Pair>): seq<Pair> {
    if ps == [] then [] else (if Rejected(ps[0]) then [] else [ps[0]]) + Kept(ps[1..])
  }

  function Freed(ps: seq<Pair>): seq<Key> {
    if ps == [] then [] else (if Rejected(ps[0]) then [ps[0].key] else []) + Freed(ps[1..])
  }

  function Zip(ks: seq<Key>, es: seq<int>): (ps: seq<Pair>)
    requires |ks| == |es|
    ensures |ps| == |ks|
    ensures forall i :: 0 <= i < |ks| ==> ps[i] == Pair(ks[i], es[i])
  {
    seq(|ks|, i requires 0 <= i < |ks| => Pair(ks[i], es[i]))
  }

  class KeysContainer {
    var nkeys: nat
    const ksdata: array<Key>

    constructor (ksdata: array<Key>)
      ensures this.ksdata == ksdata && nkeys == ksdata.Length
    {
      this.ksdata := ksdata;
      nkeys := ksdata.Length;
    }
  }

  lemma {:induction false} GapClosed<T>(s: seq<T>, t: seq<T>, i: nat, n: nat)
    requires i < n <= |s| == |t|
    requires forall k :: 0 <= k < i ==> t[k] == s[k]
    requires forall k :: i <= k < n - 1 ==> t[k] == s[k + 1]
    ensures t[..n - 1] == s[..i] + s[i + 1..n]
  {
  }

  /** Closes the gap at `i`: everything up to `n` moves down by one, in both arrays. */
  method ShiftDown(ks: array<Key>, es: array<int>, i: nat, n: nat)
    requires i < n <= ks.Length && n <= es.Length
    modifies ks, es
    ensures ks[..n - 1] == old(ks[..i]) + old(ks[i + 1..n])
    ensures es[..n - 1] == old(es[..i]) + old(es[i + 1..n])
  {
    ghost var keys, types := ks[..], es[..];
    var j := i;
    while j < n - 1
      invariant i <= j <= n - 1
      invariant forall k :: 0 <= k < i ==> ks[k] == keys[k] && es[k] == types[k]
      invariant forall k :: i <= k < j ==> ks[k] == keys[k + 1] && es[k] == types[k + 1]
      invariant forall k :: j <= k < n ==> ks[k] == keys[k] && es[k] == types[k]
    {
      ks[j] := ks[j + 1];
      es[j] := es[j + 1];
      j := j + 1;
    }
    GapClosed(keys, ks[..], i, n);
    GapClosed(types, es[..], i, n);
  }

  lemma {:induction false} DropAt(ps: seq<Pair>, i: nat)
    requires i < |ps| && Rejected(ps[i])
    ensures Kept(ps[i..]) == Kept(ps[i + 1..])
    ensures Freed(ps[i..]) == [ps[i].key] + Freed(ps[i + 1..])
  {
    assert ps[i..][1..] == ps[i + 1..];
  }

  lemma {:induction false} KeepAt(ps: seq<Pair>, i: nat)
    requires i < |ps| && !Rejected(ps[i])
    ensures ps[..i] + Kept(ps[i..]) == ps[..i + 1] + Kept(ps[i + 1..])
    ensures Freed(ps[i..]) == Freed(ps[i + 1..])
  {
    assert ps[i..][1..] == ps[i + 1..];
    assert Kept(ps[i..]) == [ps[i]] + Kept(ps[i + 1..]);
    assert ps[..i + 1] == ps[..i] + [ps[i]];
  }

  lemma {:induction false} ZipWithout(ks: seq<Key>, es: seq<int>, i: nat)
    requires |ks| == |es| && i < |ks|
    ensures var ps := Zip(ks, es);
      Zip(ks[..i] + ks[i + 1..], es[..i] + es[i + 1..]) == ps[..i] + ps[i + 1..]
  {
  }

  /** Removes the pair at `i`, which the arrays hold as `ps[i]`. */
  method RemoveAt(ks: array<Key>, es: array<int>, i: nat, n: nat, ghost ps: seq<Pair>)
    requires i < n <= ks.Length && n <= es.Length && ps == Zip(ks[..n], es[..n])
    modifies ks, es
    ensures Zip(ks[..n - 1], es[..n - 1]) == ps[..i] + ps[i + 1..]
  {
    ghost var was, wasTypes := ks[..n], es[..n];
    ShiftDown(ks, es, i, n);
    assert was[..i] == old(ks[..i]) && was[i + 1..] == old(ks[i + 1..n]);
    assert wasTypes[..i] == old(es[..i]) && wasTypes[i + 1..] == old(es[i + 1..n]);
    ZipWithout(was, wasTypes, i);
  }

  lemma {:induction false} Removed(ps: seq<Pair>, i: nat)
    requires i < |ps|
    ensures var rest := ps[..i] + ps[i + 1..]; rest[..i] == ps[..i] && rest[i..] == ps[i + 1..]
  {
  }

  method RemoveRejected(ks: array<Key>, es: array<int>, nkeys: nat) returns (n: nat, freed: seq<Key>)
    requires nkeys <= ks.Length && nkeys <= es.Length
    modifies ks, es
    ensures var before := Zip(old(ks[..nkeys]), old(es[..nkeys]));
      && n <= nkeys
      && Zip(ks[..n], es[..n]) == Kept(before)
      && freed == Freed(before)
  {
    n, freed := nkeys, [];
    ghost var before := Zip(ks[..n], es[..n]);
    ghost var ps := before;
    var i := 0;
    while i < n
      invariant 0 <= i <= n <= nkeys
      invariant ps == Zip(ks[..n], es[..n])
      invariant ps[..i] + Kept(ps[i..]) == Kept(before)
      invariant freed + Freed(ps[i..]) == Freed(before)
      decreases n - i
    {
      assert ps[i] == Pair(ks[i], es[i]);
      if ks[i].enctype != es[i] && es[i] == 0 {
        DropAt(ps, i);
        freed := freed + [ks[i]];
        RemoveAt(ks, es, i, n, ps);
        Removed(ps, i);
        ps := ps[..i] + ps[i + 1..];
        n := n - 1;
      } else {
        KeepAt(ps, i);
        i := i + 1;
      }
    }
    assert ps[..i] == ps;
  }

  /**
   Both arrays keep exactly the accepted pairs, in order and aligned; each rejected key is freed, once.
   When none is left the count is not updated.
   */
  method FilterKeys(keys: KeysContainer, es: array<int>) returns (n: nat, freed: seq<Key>)
    requires keys.nkeys <= keys.ksdata.Length && keys.nkeys <= es.Length
    modifies keys, keys.ksdata, es
    ensures var before := Zip(old(keys.ksdata[..keys.nkeys]), old(es[..keys.nkeys]));
      && n <= old(keys.nkeys)
      && Zip(keys.ksdata[..n], es[..n]) == Kept(before)
      && freed == Freed(before)
    ensures keys.nkeys == if n == 0 then old(keys.nkeys) else n
  {
    n, freed := RemoveRejected(keys.ksdata, es, keys.nkeys);
    if n != 0 {
      keys.nkeys := n;
    }
  }

  // ---------- what filtering is ----------

  function KeysOf(ps: seq<Pair>): (ks: seq<Key>)
    ensures |ks| == |ps|
  {
    if ps == [] then [] else [ps[0].key] + KeysOf(ps[1..])
  }

  lemma {:induction false} KeysCons(p: Pair, ps: seq<Pair>)
    ensures KeysOf([p] + ps) == [p.key] + KeysOf(ps)
  {
    assert ([p] + ps)[1..] == ps;
  }

  lemma {:induction false} OneMore(k: Key, ks: seq<Key>)
    ensures multiset([k] + ks) == multiset{k} + multiset(ks)
  {
  }

  lemma {:induction false} PartitionStep(ps: seq<Pair>)
    requires ps != []
    ensures KeysOf(ps) == [ps[0].key] + KeysOf(ps[1..])
    ensures Rejected(ps[0]) ==> Kept(ps) == Kept(ps[1..]) && Freed(ps) == [ps[0].key] + Freed(ps[1..])
    ensures !Rejected(ps[0]) ==> KeysOf(Kept(ps)) == [ps[0].key] + KeysOf(Kept(ps[1..])) && Freed(ps) == Freed(ps[1..])
  {
    if !Rejected(ps[0]) {
      KeysCons(ps[0], Kept(ps[1..]));
    }
  }

  /** Nothing is lost and nothing is freed twice: kept and freed together are what was there. */
  lemma {:induction false} KeptAndFreedPartition(ps: seq<Pair>)
    ensures multiset(KeysOf(Kept(ps))) + multiset(Freed(ps)) == multiset(KeysOf(ps))
  {
    if ps != [] {
      var rest, k := ps[1..], ps[0].key;
      KeptAndFreedPartition(rest);
      PartitionStep(ps);
      OneMore(k, KeysOf(rest));
      OneMore(k, Freed(rest));
      OneMore(k, KeysOf(Kept(rest)));
    }
  }

  /** The positions from `from` on that are not rejected. */
  function Positions(ps: seq<Pair>, from: nat): seq<nat>
    requires from <= |ps|
    decreases |ps| - from
  {
    if from == |ps| then []
    else (if Rejected(ps[from]) then [] else [from]) + Positions(ps, from + 1)
  }

  lemma {:induction false} PositionsAre(ps: seq<Pair>, from: nat, i: nat)
    requires from <= |ps|
    ensures i in Positions(ps, from) <==> from <= i < |ps| && !Rejected(ps[i])
    decreases |ps| - from
  {
    if from < |ps| {
      PositionsAre(ps, from + 1, i);
      var later := Positions(ps, from + 1);
      assert Positions(ps, from) == if Rejected(ps[from]) then later else [from] + later;
    }
  }

  lemma {:induction false} PositionsIncrease(ps: seq<Pair>, from: nat, k: nat, l: nat)
    requires from <= |ps| && k < l < |Positions(ps, from)|
    ensures Positions(ps, from)[k] < Positions(ps, from)[l]
    decreases |ps| - from
  {
    var later := Positions(ps, from + 1);
    if Rejected(ps[from]) {
      PositionsIncrease(ps, from + 1, k, l);
    } else if k > 0 {
      PositionsIncrease(ps, from + 1, k - 1, l - 1);
    } else {
      assert later[l - 1] in later;
      PositionsAre(ps, from + 1, later[l - 1]);
    }
  }

  lemma {:induction false} KeptAt(ps: seq<Pair>, from: nat, k: nat)
    requires from <= |ps|
    ensures |Kept(ps[from..])| == |Positions(ps, from)|
    ensures k < |Positions(ps, from)| ==> Positions(ps, from)[k] < |ps| && Kept(ps[from..])[k] == ps[Positions(ps, from)[k]]
    decreases |ps| - from
  {
    if from < |ps| {
      assert ps[from..][1..] == ps[from + 1..];
      KeptAt(ps, from + 1, if Rejected(ps[from]) || k == 0 then k else k - 1);
    }
  }

  /** The kept pairs are a stable subsequence: they sit at increasing positions, which are exactly those not rejected. */
  lemma {:induction false} KeptAtPositions(ps: seq<Pair>)
    ensures var at := Positions(ps, 0);
      && |Kept(ps)| == |at|
      && (forall k :: 0 <= k < |at| ==> at[k] < |ps| && Kept(ps)[k] == ps[at[k]])
      && (forall k, l :: 0 <= k < l < |at| ==> at[k] < at[l])
      && (forall i: nat :: i in at <==> i < |ps| && !Rejected(ps[i]))
  {
    var at := Positions(ps, 0);
    assert ps[0..] == ps;
    KeptAt(ps, 0, 0);
    forall k | 0 <= k < |at|
      ensures at[k] < |ps| && Kept(ps)[k] == ps[at[k]]
    {
      KeptAt(ps, 0, k);
    }
    forall k, l | 0 <= k < l < |at|
      ensures at[k] < at[l]
    {
      PositionsIncrease(ps, 0, k, l);
    }
    forall i: nat
      ensures i in at <==> i < |ps| && !Rejected(ps[i])
    {
      PositionsAre(ps, 0, i);
    }
  }

  /** A pair stays exactly if the KDC returned the type its key was made for, or any type but 0. */
  lemma {:induction false} KeptIff(ps: seq<Pair>, i: nat)
    requires i < |ps|
    ensures i in Positions(ps, 0) <==> ps[i].returned == ps[i].key.enctype || ps[i].returned != 0
  {
    PositionsAre(ps, 0, i);
  }

  lemma {:induction false} FreedAre(ps: seq<Pair>, k: Key)
    ensures k in Freed(ps) <==> exists i :: 0 <= i < |ps| && ps[i].key == k && ps[i].returned == 0 && k.enctype != 0
  {
    if ps != [] {
      FreedAre(ps[1..], k);
      assert forall i :: 0 < i < |ps| ==> ps[i] == ps[1..][i - 1];
    }
  }
}
