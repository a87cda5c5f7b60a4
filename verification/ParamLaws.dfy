/**
 What the steps of one parameter (ipalib/parameters.py) compute, stated through its callbacks alone: which value a
 supplied one becomes, which errors are raised, and when the dynamic or the static default is used.
 */
module ParamLaws {
  import opened Common
  import opened Params

  lemma {:induction false} NullIff(v: Value)
    ensures IsNull(v) <==> v in {NoneValue, Text(""), Tuple([]), List([])}
  {
  }

  lemma {:induction false} MembersAre(vs: seq<Value>, v: Value)
    ensures Members(Tuple(vs)) == vs && Members(List(vs)) == vs
    ensures !v.Tuple? && !v.List? ==> Members(v) == [v]
  {
  }

  /** What the normalizer returns, or the value itself when there is none or it raises. */
  ghost predicate Normalised(p: Param, v: Value, n: Value) {
    n == if p.normalizer.Some? && p.normalizer.value(v).Some? then p.normalizer.value(v).value else v
  }

  ghost predicate NormalisedAll(p: Param, vs: seq<Value>, ns: seq<Value>) {
    |ns| == |vs| && forall i :: 0 <= i < |vs| ==> Normalised(p, vs[i], ns[i])
  }

  function NonNull(vs: seq<Value>): seq<Value> {
    if vs == [] then [] else (if IsNull(vs[0]) then [] else [vs[0]]) + NonNull(vs[1..])
  }

  /** A text is left alone where conversion is off. */
  ghost predicate LeftAlone(p: Param, v: Value) { p.noConvert && v.Text? }

  ghost predicate ConvertedTo(p: Param, v: Value, w: Value) {
    if LeftAlone(p, v) then w == v else p.convertScalar(v) == Ok(w)
  }

  ghost predicate ConvertedAllTo(p: Param, vs: seq<Value>, ws: seq<Value>) {
    |ws| == |vs| && forall i :: 0 <= i < |vs| ==> ConvertedTo(p, vs[i], ws[i])
  }

  /** The members in the order given, null ones left out; `None` where nothing is left. */
  ghost predicate TupleOf(p: Param, ns: seq<Value>, w: Value) {
    if NonNull(ns) == [] then w == NoneValue else w.Tuple? && ConvertedAllTo(p, NonNull(ns), w.items)
  }

  /** A supplied value, normalised and converted. */
  ghost predicate Becomes(p: Param, v: Value, w: Value) {
    if p.multivalue then exists ns :: NormalisedAll(p, Members(v), ns) && TupleOf(p, ns, w)
    else exists n :: Normalised(p, v, n) && if IsNull(n) then w == NoneValue else ConvertedTo(p, n, w)
  }

  /** The first value that cannot be converted, and its error. */
  ghost predicate FailsAt(p: Param, vs: seq<Value>, i: nat, e: Error) {
    && i < |vs| && !LeftAlone(p, vs[i]) && p.convertScalar(vs[i]) == Err(e)
    && forall j :: 0 <= j < i ==> LeftAlone(p, vs[j]) || p.convertScalar(vs[j]).Ok?
  }

  ghost predicate FailsWith(p: Param, v: Value, e: Error) {
    if p.multivalue then exists ns, i :: NormalisedAll(p, Members(v), ns) && FailsAt(p, NonNull(ns), i, e)
    else exists n :: Normalised(p, v, n) && FailsAt(p, NonNull([n]), 0, e)
  }

  // ---------- normalising and converting ----------

  lemma {:induction false} NormalizeScalarIs(p: Param, v: Value)
    ensures Normalised(p, v, NormalizeScalar(p, v))
  {
  }

  lemma {:induction false} NormalizeAllIs(p: Param, vs: seq<Value>)
    ensures NormalisedAll(p, vs, NormalizeAll(p, vs))
  {
    if vs != [] {
      NormalizeScalarIs(p, vs[0]);
      NormalizeAllIs(p, vs[1..]);
    }
  }

  lemma {:induction false} NormalisedOnce(p: Param, vs: seq<Value>, ns: seq<Value>)
    requires NormalisedAll(p, vs, ns)
    ensures ns == NormalizeAll(p, vs)
  {
    NormalizeAllIs(p, vs);
    assert forall i :: 0 <= i < |vs| ==> Normalised(p, vs[i], ns[i]) && Normalised(p, vs[i], NormalizeAll(p, vs)[i]);
  }

  lemma {:induction false} OneConverted(p: Param, vs: seq<Value>, ws: seq<Value>)
    requires vs != []
    ensures ConvertedAllTo(p, vs, ws) <==>
      ws != [] && ConvertOne(p, vs[0]) == Ok(ws[0]) && ConvertedAllTo(p, vs[1..], ws[1..])
  {
    if ws != [] && ConvertOne(p, vs[0]) == Ok(ws[0]) && ConvertedAllTo(p, vs[1..], ws[1..]) {
      forall i | 0 <= i < |vs|
        ensures ConvertedTo(p, vs[i], ws[i])
      {
        assert i > 0 ==> vs[i] == vs[1..][i - 1] && ws[i] == ws[1..][i - 1];
      }
    }
  }

  lemma {:induction false} OneFails(p: Param, vs: seq<Value>, i: nat, e: Error)
    requires vs != []
    ensures FailsAt(p, vs, 0, e) <==> ConvertOne(p, vs[0]) == Err(e)
    ensures FailsAt(p, vs, i + 1, e) <==> ConvertOne(p, vs[0]).Ok? && FailsAt(p, vs[1..], i, e)
  {
    if ConvertOne(p, vs[0]).Ok? && FailsAt(p, vs[1..], i, e) {
      forall j | 0 <= j < i + 1
        ensures LeftAlone(p, vs[j]) || p.convertScalar(vs[j]).Ok?
      {
        assert j > 0 ==> vs[j] == vs[1..][j - 1];
      }
    }
  }

  /** What is not null comes first, or is found further on. */
  lemma {:induction false} NonNullStep(vs: seq<Value>)
    requires vs != []
    ensures IsNull(vs[0]) ==> NonNull(vs) == NonNull(vs[1..])
    ensures !IsNull(vs[0]) ==> NonNull(vs) != [] && NonNull(vs)[0] == vs[0] && NonNull(vs)[1..] == NonNull(vs[1..])
  {
  }

  /** Conversion gives the converted members that are not null, in order. */
  lemma {:induction false} ConvertAllIff(p: Param, vs: seq<Value>, ws: seq<Value>)
    ensures ConvertAll(p, vs) == Ok(ws) <==> ConvertedAllTo(p, NonNull(vs), ws)
    decreases |vs|
  {
    if vs != [] {
      NonNullStep(vs);
      if IsNull(vs[0]) {
        ConvertAllIff(p, vs[1..], ws);
      } else {
        OneConverted(p, NonNull(vs), ws);
        if ws != [] {
          ConvertAllIff(p, vs[1..], ws[1..]);
          assert ws == [ws[0]] + ws[1..];
        }
      }
    }
  }

  lemma {:induction false} FailureFound(p: Param, vs: seq<Value>) returns (i: nat)
    requires ConvertAll(p, vs).Err?
    ensures FailsAt(p, NonNull(vs), i, ConvertAll(p, vs).error)
  {
    NonNullStep(vs);
    if IsNull(vs[0]) {
      i := FailureFound(p, vs[1..]);
    } else if ConvertOne(p, vs[0]).Err? {
      OneFails(p, NonNull(vs), 0, ConvertAll(p, vs).error);
      i := 0;
    } else {
      i := FailureFound(p, vs[1..]);
      OneFails(p, NonNull(vs), i, ConvertAll(p, vs).error);
      i := i + 1;
    }
  }

  lemma {:induction false} FailureRaised(p: Param, vs: seq<Value>, i: nat, e: Error)
    requires FailsAt(p, NonNull(vs), i, e)
    ensures ConvertAll(p, vs) == Err(e)
    decreases |vs|
  {
    NonNullStep(vs);
    if IsNull(vs[0]) {
      FailureRaised(p, vs[1..], i, e);
    } else if i == 0 {
      OneFails(p, NonNull(vs), 0, e);
    } else {
      OneFails(p, NonNull(vs), i - 1, e);
      FailureRaised(p, vs[1..], i - 1, e);
    }
  }

  /** A multivalue. */
  lemma {:induction false} TupleIff(p: Param, v: Value, w: Value)
    requires p.multivalue
    ensures Becomes(p, v, w) <==> Convert(p, Normalize(p, v)) == Ok(w)
  {
    var ns := NormalizeAll(p, Members(v));
    NormalizeAllIs(p, Members(v));
    if Becomes(p, v, w) {
      var ms :| NormalisedAll(p, Members(v), ms) && TupleOf(p, ms, w);
      NormalisedOnce(p, Members(v), ms);
    }
    assert Becomes(p, v, w) <==> TupleOf(p, ns, w);
    ConvertAllIff(p, ns, if w.Tuple? then w.items else []);
    ConvertAllIff(p, ns, []);
  }

  /** Normalising and converting a supplied value gives what it becomes. */
  lemma {:induction false} BecomesIff(p: Param, v: Value, w: Value)
    ensures Becomes(p, v, w) <==> Convert(p, Normalize(p, v)) == Ok(w)
  {
    if p.multivalue {
      TupleIff(p, v, w);
    } else {
      NormalizeScalarIs(p, v);
    }
  }

  /** And raises the error of the first member that cannot be converted. */
  lemma {:induction false} FailsIff(p: Param, v: Value, e: Error)
    ensures FailsWith(p, v, e) <==> Convert(p, Normalize(p, v)) == Err(e)
  {
    if p.multivalue {
      var ns := NormalizeAll(p, Members(v));
      NormalizeAllIs(p, Members(v));
      if FailsWith(p, v, e) {
        var ms, i :| NormalisedAll(p, Members(v), ms) && FailsAt(p, NonNull(ms), i, e);
        NormalisedOnce(p, Members(v), ms);
        FailureRaised(p, ns, i, e);
      }
      if ConvertAll(p, ns) == Err(e) {
        var i := FailureFound(p, ns);
      }
    } else {
      var n := NormalizeScalar(p, v);
      NormalizeScalarIs(p, v);
      NonNullStep([n]);
      assert [n][1..] == [];
      if !IsNull(n) {
        OneFails(p, NonNull([n]), 0, e);
      }
    }
  }

  // ---------- the default ----------

  /** The callback of `default_from` offers a value: every source has one, and it neither raises nor returns `None`. */
  ghost predicate Offers(p: Param, vals: seq<Value>, v: Value) {
    p.defaultFrom.Some? && NoneValue !in vals && p.defaultFrom.value.callback(vals) == Some(v) && v != NoneValue
  }

  /** The default for given values of the sources: what the offered value becomes, or else the static one. */
  ghost predicate DefaultIs(p: Param, vals: seq<Value>, default: Value) {
    && (forall v, w :: Offers(p, vals, v) && Becomes(p, v, w) ==> default == w)
    && ((forall v, w :: !(Offers(p, vals, v) && Becomes(p, v, w))) ==> default == p.default)
  }

  lemma {:induction false} DefaultGivenIs(p: Param, vals: seq<Value>)
    ensures DefaultIs(p, vals, DefaultGiven(p, vals))
  {
    var default := DefaultGiven(p, vals);
    forall v, w | Offers(p, vals, v) && Becomes(p, v, w)
      ensures default == w
    {
      BecomesIff(p, v, w);
    }
    if forall v, w :: !(Offers(p, vals, v) && Becomes(p, v, w)) {
      if p.defaultFrom.Some? && NoneValue !in vals && p.defaultFrom.value.callback(vals).Some? {
        var v := p.defaultFrom.value.callback(vals).value;
        BecomesIff(p, v, default);
      }
    }
  }

  // ---------- validation ----------

  /** A value that is there is accepted: not deprecated, and every member passes the rules. */
  ghost predicate Accepted(p: Param, v: Value) {
    && !p.deprecated
    && if p.multivalue then v.Tuple? && v.items != [] && forall i :: 0 <= i < |v.items| ==> p.validateScalar(v.items[i]).None?
       else p.validateScalar(v).None?
  }

  lemma {:induction false} ValidateAllIff(p: Param, vs: seq<Value>)
    ensures ValidateAll(p, vs).None? <==> forall i :: 0 <= i < |vs| ==> p.validateScalar(vs[i]).None?
  {
    if vs != [] {
      ValidateAllIff(p, vs[1..]);
      assert forall i :: 0 < i < |vs| ==> vs[i] == vs[1..][i - 1];
    }
  }

  /** The error of the first member that has one. */
  lemma {:induction false} ValidateAllRaises(p: Param, vs: seq<Value>, i: nat)
    requires i < |vs| && p.validateScalar(vs[i]).Some?
    requires forall j :: 0 <= j < i ==> p.validateScalar(vs[j]).None?
    ensures ValidateAll(p, vs) == p.validateScalar(vs[i])
  {
    if i > 0 {
      assert p.validateScalar(vs[0]).None?;
      ValidateAllRaises(p, vs[1..], i - 1);
    }
  }

  /** A missing value is refused exactly if it is required; any other is accepted exactly if it passes. */
  lemma {:induction false} ValidateIff(p: Param, v: Value, supplied: bool)
    ensures v == NoneValue ==> (Validate(p, v, supplied).Some? <==> p.required || (supplied && p.nonempty))
    ensures v == NoneValue && Validate(p, v, supplied).Some? ==> Validate(p, v, supplied).value == RequirementError(p.name)
    ensures v != NoneValue ==> (Validate(p, v, supplied).None? <==> Accepted(p, v))
    ensures v != NoneValue && p.deprecated ==> Validate(p, v, supplied) == Some(ValidationError("this option is deprecated"))
  {
    if v.Tuple? {
      ValidateAllIff(p, v.items);
    }
  }
}
