/**
 `Command.__get_default_iter` (ipalib/frontend.py): one backward pass collects the parameters that
 requested defaults depend on, one forward pass evaluates them while updating the keywords.
 The reference is plain recursive evaluation of the `default_from` equations.
 */
module Defaults {
  import opened Common
  import opened Params
  import opened ParamLaws
  import opened ParamOrder

  // ---------- which parameters are needed ----------

  function Keys(p: Param): set<string> {
    set key | key in Sources(p)
  }

  /** The backward pass over `order[i..]`. */
  function Needed(order: seq<Param>, requested: set<string>, i: nat): set<string>
    requires i <= |order|
    decreases |order| - i
  {
    if i == |order| then {}
    else
      var dep := Needed(order, requested, i + 1);
      if order[i].name in requested || order[i].name in dep then dep + Keys(order[i]) else dep
  }

  /** `dep` holds every source of every parameter that is requested or in `dep`. */
  ghost predicate ClosedUnderSources(order: seq<Param>, requested: set<string>, dep: set<string>) {
    forall i :: 0 <= i < |order| && (order[i].name in requested || order[i].name in dep) ==> Keys(order[i]) <= dep
  }

  lemma {:induction false} NeededIsLeast(order: seq<Param>, requested: set<string>, dep: set<string>, i: nat)
    requires i <= |order| && ClosedUnderSources(order, requested, dep)
    ensures Needed(order, requested, i) <= dep
    decreases |order| - i
  {
    if i < |order| {
      NeededIsLeast(order, requested, dep, i + 1);
    }
  }

  lemma {:induction false} NeededGrows(order: seq<Param>, requested: set<string>, i: nat, j: nat)
    requires i <= j <= |order|
    ensures Needed(order, requested, j) <= Needed(order, requested, i)
    decreases j - i
  {
    if i < j {
      NeededGrows(order, requested, i + 1, j);
    }
  }

  /** A name that only `order[..i+1]` brings in is no name of a parameter at or after `i`. */
  lemma {:induction false} SourcesLieBefore(order: seq<Param>, requested: set<string>, i: nat, k: nat)
    requires Respects(order) && i <= k < |order|
    requires order[k].name in Needed(order, requested, i)
    ensures order[k].name in Needed(order, requested, k + 1)
    decreases k - i
  {
    var dep := Needed(order, requested, i + 1);
    if order[k].name !in dep {
      assert Uses(order[i], order[k]);
      assert false;
    }
    if i < k {
      SourcesLieBefore(order, requested, i + 1, k);
    }
  }

  /** The backward pass computes exactly the least closed set. */
  lemma {:induction false} NeededIsClosed(order: seq<Param>, requested: set<string>)
    requires Respects(order)
    ensures ClosedUnderSources(order, requested, Needed(order, requested, 0))
  {
    forall k | 0 <= k < |order| && (order[k].name in requested || order[k].name in Needed(order, requested, 0))
      ensures Keys(order[k]) <= Needed(order, requested, 0)
    {
      if order[k].name in Needed(order, requested, 0) {
        SourcesLieBefore(order, requested, 0, k);
      }
      NeededGrows(order, requested, 0, k);
    }
  }

  // ---------- reference: recursive evaluation ----------

  function Names(order: seq<Param>, k: nat): set<string>
    requires k <= |order|
  {
    if k == 0 then {} else Names(order, k - 1) + {order[k - 1].name}
  }

  predicate Declared(order: seq<Param>, k: nat, name: string)
    requires k <= |order|
  {
    name in Names(order, k)
  }

  lemma {:induction false} DeclaredAt(order: seq<Param>, k: nat, j: nat)
    requires j < k <= |order|
    ensures Declared(order, k, order[j].name)
  {
    if j < k - 1 {
      DeclaredAt(order, k - 1, j);
    }
  }

  function Position(order: seq<Param>, k: nat, name: string): (j: nat)
    requires k <= |order| && Declared(order, k, name)
    ensures j < k && order[j].name == name
  {
    if order[k - 1].name == name then k - 1 else Position(order, k - 1, name)
  }

  lemma {:induction false} NotYetDeclared(order: seq<Param>, k: nat)
    requires k < |order| && DistinctNames(order)
    ensures !Declared(order, k, order[k].name)
  {
    if Declared(order, k, order[k].name) {
      var j := Position(order, k, order[k].name);
      assert false;
    }
  }

  /** The value of a source: that of the parameter so named, or the raw keyword if there is none. */
  function SourceValue(order: seq<Param>, kw: Keywords, k: nat, key: string): Value
    requires k < |order|
    decreases k, 0
  {
    if Declared(order, k, key) then Resolved(order, kw, Position(order, k, key)) else Read(kw, key)
  }

  function SourceValues(order: seq<Param>, kw: Keywords, k: nat): (vals: seq<Value>)
    requires k < |order|
    ensures |vals| == |Sources(order[k])|
    ensures forall i :: 0 <= i < |vals| ==> vals[i] == SourceValue(order, kw, k, Sources(order[k])[i])
    decreases k, 1
  {
    var keys := Sources(order[k]);
    seq(|keys|, i requires 0 <= i < |keys| => SourceValue(order, kw, k, keys[i]))
  }

  /** The default of parameter `k`. */
  function DefaultOf(order: seq<Param>, kw: Keywords, k: nat): Value
    requires k < |order|
    decreases k, 2
  {
    DefaultGiven(order[k], SourceValues(order, kw, k))
  }

  /** Supplied and not null: normalised and converted; otherwise the default. */
  function Evaluate(order: seq<Param>, kw: Keywords, k: nat): Result<Value, Error>
    requires k < |order|
    decreases k, 3
  {
    var p := order[k];
    if p.name in kw && !IsNull(kw[p.name]) then Convert(p, Normalize(p, kw[p.name]))
    else Ok(DefaultOf(order, kw, k))
  }

  function Resolved(order: seq<Param>, kw: Keywords, k: nat): Value
    requires k < |order|
    decreases k, 4
  {
    match Evaluate(order, kw, k)
    case Ok(v) => v
    case Err(_) => NoneValue
  }

  /** The error that resolving parameter `k` raises, if any. */
  function Failure(order: seq<Param>, kw: Keywords, inServer: bool, k: nat): Option<Error>
    requires k < |order|
  {
    match Evaluate(order, kw, k)
    case Err(e) => Some(e)
    case Ok(v) => if inServer then Validate(order[k], v, order[k].name in kw) else None
  }

  function DefaultsOf(order: seq<Param>, kw: Keywords): (vs: seq<Value>)
    ensures |vs| == |order| && forall k :: 0 <= k < |order| ==> vs[k] == DefaultOf(order, kw, k)
  {
    seq(|order|, k requires 0 <= k < |order| => DefaultOf(order, kw, k))
  }

  function FailuresOf(order: seq<Param>, kw: Keywords, inServer: bool): (es: seq<Option<Error>>)
    ensures |es| == |order| && forall k :: 0 <= k < |order| ==> es[k] == Failure(order, kw, inServer, k)
  {
    seq(|order|, k requires 0 <= k < |order| => Failure(order, kw, inServer, k))
  }

  /** The first error among the needed parameters `order[k..]`. */
  function FirstFailure(order: seq<Param>, failures: seq<Option<Error>>, dep: set<string>, k: nat): Option<Error>
    requires k <= |order| == |failures|
    decreases |order| - k
  {
    if k == |order| then None
    else if order[k].name in dep && failures[k].Some? then failures[k]
    else FirstFailure(order, failures, dep, k + 1)
  }

  /** The non-None defaults of the requested parameters among `order[..k]`. */
  function Answers(order: seq<Param>, requested: set<string>, defaults: seq<Value>, k: nat): Keywords
    requires k <= |order| == |defaults|
  {
    if k == 0 then map[]
    else
      var rest := Answers(order, requested, defaults, k - 1);
      if order[k - 1].name in requested && !defaults[k - 1].NoneValue?
      then rest[order[k - 1].name := defaults[k - 1]]
      else rest
  }

  /** The outcome from parameter `k` on, given everybody's default and failure. */
  function Outcome(order: seq<Param>, requested: set<string>, dep: set<string>, defaults: seq<Value>,
                   failures: seq<Option<Error>>, k: nat)
    : Result<Keywords, Error>
    requires k <= |order| == |defaults| == |failures|
  {
    match FirstFailure(order, failures, dep, k)
    case Some(e) => Err(e)
    case None => Ok(Answers(order, requested, defaults, |order|))
  }

  function Reference(order: seq<Param>, requested: set<string>, kw: Keywords, inServer: bool)
    : Result<Keywords, Error>
  {
    Outcome(order, requested, Needed(order, requested, 0), DefaultsOf(order, kw), FailuresOf(order, kw, inServer), 0)
  }

  // ---------- the two passes ----------

  /** The keywords part-way through the forward pass: needed parameters before `k` are resolved. */
  ghost predicate Progress(order: seq<Param>, dep: set<string>, kw0: Keywords, kw: Keywords, k: nat)
    requires k <= |order|
  {
    && (forall j :: 0 <= j < k && order[j].name in dep ==> Read(kw, order[j].name) == Resolved(order, kw0, j))
    && (forall name :: !(name in dep && Declared(order, k, name)) ==>
      (name in kw <==> name in kw0) && Read(kw, name) == Read(kw0, name))
  }

  /** A source that is declared at all is declared before its user. */
  lemma {:induction false} SourceDeclaredBefore(order: seq<Param>, k: nat, m: nat, key: string)
    requires k < |order| && k <= m <= |order| && Respects(order) && key in Sources(order[k])
    ensures Declared(order, k, key) <==> Declared(order, m, key)
  {
    if Declared(order, m, key) {
      var j := Position(order, m, key);
      assert Uses(order[k], order[j]);
      DeclaredAt(order, k, j);
    }
    if Declared(order, k, key) {
      DeclaredAt(order, m, Position(order, k, key));
    }
  }

  lemma {:induction false} ProgressGivesDefault(order: seq<Param>, requested: set<string>, dep: set<string>, kw0: Keywords, kw: Keywords, k: nat, m: nat)
    requires k < |order| && k <= m <= k + 1 && Respects(order)
    requires ClosedUnderSources(order, requested, dep) && Progress(order, dep, kw0, kw, m)
    requires order[k].name in requested || order[k].name in dep
    ensures GetDefault(order[k], kw) == DefaultOf(order, kw0, k)
  {
    var keys := Sources(order[k]);
    forall i | 0 <= i < |keys|
      ensures Read(kw, keys[i]) == SourceValue(order, kw0, k, keys[i])
    {
      assert keys[i] in Keys(order[k]);
      SourceDeclaredBefore(order, k, m, keys[i]);
    }
    assert ReadAll(keys, kw) == SourceValues(order, kw0, k);
  }

  lemma {:induction false} ProgressStep(order: seq<Param>, dep: set<string>, kw0: Keywords, kw: Keywords, kw': Keywords, k: nat)
    requires k < |order| && DistinctNames(order) && Progress(order, dep, kw0, kw, k)
    requires forall name :: name != order[k].name ==> (name in kw' <==> name in kw) && Read(kw', name) == Read(kw, name)
    requires if order[k].name in dep then Read(kw', order[k].name) == Resolved(order, kw0, k) else kw' == kw
    ensures Progress(order, dep, kw0, kw', k + 1)
  {
    NotYetDeclared(order, k);
    forall j | 0 <= j < k
      ensures order[j].name != order[k].name
    {
    }
  }

  method CollectNeeded(order: seq<Param>, requested: set<string>) returns (dep: set<string>)
    ensures dep == Needed(order, requested, 0)
  {
    dep := {};
    var i := |order|;
    while i > 0
      invariant 0 <= i <= |order|
      invariant dep == Needed(order, requested, i)
    {
      i := i - 1;
      if order[i].name in requested || order[i].name in dep {
        var keys := Sources(order[i]);
        var j := 0;
        ghost var before := dep;
        while j < |keys|
          invariant 0 <= j <= |keys|
          invariant dep == before + set key | key in keys[..j]
        {
          dep := dep + {keys[j]};
          j := j + 1;
        }
        assert keys[..j] == keys;
      }
    }
  }

  datatype Step = Step(kw: Keywords, default: Value, hasDefault: bool)

  /** What one round of the forward pass does with a parameter: the new keywords and the answer, or an error. */
  function Round(p: Param, requested: set<string>, dep: set<string>, kw: Keywords, inServer: bool)
    : Result<(Keywords, Value), Error>
  {
    if p.name !in dep then Ok((kw, if p.name in requested then GetDefault(p, kw) else NoneValue))
    else
      match Call(p, Read(kw, p.name), kw)
      case Err(e) => Err(e)
      case Ok(v) =>
        if inServer && Validate(p, v, p.name in kw).Some? then Err(Validate(p, v, p.name in kw).value)
        else
          var next := if p.name in kw || !v.NoneValue? then kw[p.name := v] else kw;
          Ok((next, if p.name !in requested then NoneValue else if p.name in kw then GetDefault(p, next) else v))
  }

  /** The forward pass over `order[k..]`, whether or not the order respects the dependencies. */
  function Rounds(order: seq<Param>, requested: set<string>, dep: set<string>, kw: Keywords, answers: Keywords,
                  inServer: bool, k: nat)
    : Result<Keywords, Error>
    requires k <= |order|
    decreases |order| - k
  {
    if k == |order| then Ok(answers)
    else
      match Round(order[k], requested, dep, kw, inServer)
      case Err(e) => Err(e)
      case Ok((next, v)) =>
        Rounds(order, requested, dep, next, if v.NoneValue? then answers else answers[order[k].name := v], inServer, k + 1)
  }

  /** What the forward pass does with a needed parameter. */
  method ResolveNeeded(p: Param, kw: Keywords, inServer: bool) returns (r: Result<Step, Error>)
    ensures var called := Call(p, Read(kw, p.name), kw);
      if called.Err? then r == Err(called.error)
      else if inServer && Validate(p, called.value, p.name in kw).Some?
      then r == Err(Validate(p, called.value, p.name in kw).value)
      else
        && r.Ok?
        && r.value.hasDefault == (p.name !in kw)
        && r.value.kw == (if p.name in kw || !called.value.NoneValue? then kw[p.name := called.value] else kw)
        && (p.name !in kw ==> r.value.default == called.value)
  {
    if p.name in kw {
      var called := Call(p, kw[p.name], kw);
      if called.Err? {
        return Err(called.error);
      }
      if inServer && Validate(p, called.value, true).Some? {
        return Err(Validate(p, called.value, true).value);
      }
      return Ok(Step(kw[p.name := called.value], NoneValue, false));
    }
    var default := GetDefault(p, kw);
    if inServer && Validate(p, default, false).Some? {
      return Err(Validate(p, default, false).value);
    }
    return Ok(Step(if default.NoneValue? then kw else kw[p.name := default], default, true));
  }

  /** On a resolved prefix, calling a needed parameter is evaluating it. */
  lemma {:induction false} CallEvaluates(order: seq<Param>, requested: set<string>, dep: set<string>, kw0: Keywords, kw: Keywords, k: nat)
    requires k < |order| && DistinctNames(order) && Respects(order)
    requires ClosedUnderSources(order, requested, dep) && Progress(order, dep, kw0, kw, k)
    requires order[k].name in dep
    ensures Call(order[k], Read(kw, order[k].name), kw) == Evaluate(order, kw0, k)
    ensures order[k].name in kw <==> order[k].name in kw0
  {
    ProgressGivesDefault(order, requested, dep, kw0, kw, k, k);
    NotYetDeclared(order, k);
  }

  /** What one round of the forward pass leaves: the next keywords, and the default found for a requested parameter. */
  lemma {:induction false} RoundEvaluates(order: seq<Param>, requested: set<string>, dep: set<string>, kw0: Keywords, kw: Keywords, k: nat, step: Step)
    requires k < |order| && DistinctNames(order) && Respects(order)
    requires ClosedUnderSources(order, requested, dep) && Progress(order, dep, kw0, kw, k)
    requires var p := order[k];
      if p.name in dep then
        var called := Call(p, Read(kw, p.name), kw);
        && called.Ok?
        && step.hasDefault == (p.name !in kw)
        && step.kw == (if p.name in kw || !called.value.NoneValue? then kw[p.name := called.value] else kw)
        && (p.name !in kw ==> step.default == called.value)
      else step == Step(kw, NoneValue, false)
    ensures Progress(order, dep, kw0, step.kw, k + 1)
    ensures order[k].name in requested ==>
      (if step.hasDefault then step.default else GetDefault(order[k], step.kw)) == DefaultOf(order, kw0, k)
  {
    var p := order[k];
    if p.name in dep {
      CallEvaluates(order, requested, dep, kw0, kw, k);
    }
    ProgressStep(order, dep, kw0, kw, step.kw, k);
    if p.name in requested {
      if step.hasDefault {
        ProgressGivesDefault(order, requested, dep, kw0, kw, k, k);
      } else {
        ProgressGivesDefault(order, requested, dep, kw0, step.kw, k, k + 1);
      }
    }
  }

  /** Along a respectful order one round agrees with recursive evaluation, in values and in failures. */
  lemma {:induction false} RoundAgrees(order: seq<Param>, requested: set<string>, dep: set<string>, kw0: Keywords, kw: Keywords,
                                       inServer: bool, k: nat)
    requires k < |order| && DistinctNames(order) && Respects(order)
    requires ClosedUnderSources(order, requested, dep) && Progress(order, dep, kw0, kw, k)
    ensures var r := Round(order[k], requested, dep, kw, inServer);
      if order[k].name in dep && Failure(order, kw0, inServer, k).Some?
      then r == Err(Failure(order, kw0, inServer, k).value)
      else
        && r.Ok?
        && Progress(order, dep, kw0, r.value.0, k + 1)
        && r.value.1 == (if order[k].name in requested then DefaultOf(order, kw0, k) else NoneValue)
  {
    var p := order[k];
    if p.name !in dep {
      RoundEvaluates(order, requested, dep, kw0, kw, k, Step(kw, NoneValue, false));
    } else {
      CallEvaluates(order, requested, dep, kw0, kw, k);
      if Failure(order, kw0, inServer, k).None? {
        var v := Call(p, Read(kw, p.name), kw).value;
        var next := if p.name in kw || !v.NoneValue? then kw[p.name := v] else kw;
        RoundEvaluates(order, requested, dep, kw0, kw, k, Step(next, v, p.name !in kw));
      }
    }
  }

  method ForwardRound(p: Param, requested: set<string>, dep: set<string>, kw: Keywords, inServer: bool)
    returns (r: Result<(Keywords, Value), Error>)
    ensures r == Round(p, requested, dep, kw, inServer)
  {
    var step := Step(kw, NoneValue, false);
    if p.name in dep {
      var resolved := ResolveNeeded(p, kw, inServer);
      if resolved.Err? {
        return Err(resolved.error);
      }
      step := resolved.value;
    }
    var default := NoneValue;
    if p.name in requested {
      default := if step.hasDefault then step.default else GetDefault(p, step.kw);
    }
    return Ok((step.kw, default));
  }

  lemma {:induction false} AnswersStep(order: seq<Param>, requested: set<string>, defaults: seq<Value>, k: nat)
    requires k < |order| == |defaults|
    ensures Answers(order, requested, defaults, k + 1) ==
      if order[k].name in requested && !defaults[k].NoneValue?
      then Answers(order, requested, defaults, k)[order[k].name := defaults[k]]
      else Answers(order, requested, defaults, k)
  {
  }

  lemma {:induction false} FailureStep(order: seq<Param>, failures: seq<Option<Error>>, dep: set<string>, k: nat)
    requires k < |order| == |failures|
    ensures FirstFailure(order, failures, dep, k) ==
      if order[k].name in dep && failures[k].Some? then failures[k] else FirstFailure(order, failures, dep, k + 1)
  {
  }

  lemma {:induction false} OneRound(order: seq<Param>, requested: set<string>, dep: set<string>, kw: Keywords, inServer: bool,
                                    k: nat, defaults: seq<Value>, failures: seq<Option<Error>>)
    requires k < |order| == |defaults| == |failures|
    requires var r := Round(order[k], requested, dep, kw, inServer);
      if order[k].name in dep && failures[k].Some? then r == Err(failures[k].value)
      else
        && r.Ok? && r.value.1 == (if order[k].name in requested then defaults[k] else NoneValue)
        && Rounds(order, requested, dep, r.value.0, Answers(order, requested, defaults, k + 1), inServer, k + 1)
           == Outcome(order, requested, dep, defaults, failures, k + 1)
    ensures Rounds(order, requested, dep, kw, Answers(order, requested, defaults, k), inServer, k)
      == Outcome(order, requested, dep, defaults, failures, k)
  {
    AnswersStep(order, requested, defaults, k);
    FailureStep(order, failures, dep, k);
  }

  /** Hence so does the whole forward pass. */
  lemma {:induction false} RoundsAgree(order: seq<Param>, requested: set<string>, dep: set<string>, kw0: Keywords, kw: Keywords,
                                       inServer: bool, k: nat)
    requires k <= |order| && DistinctNames(order) && Respects(order)
    requires ClosedUnderSources(order, requested, dep) && Progress(order, dep, kw0, kw, k)
    ensures var defaults, failures := DefaultsOf(order, kw0), FailuresOf(order, kw0, inServer);
      Rounds(order, requested, dep, kw, Answers(order, requested, defaults, k), inServer, k)
      == Outcome(order, requested, dep, defaults, failures, k)
    decreases |order| - k
  {
    if k < |order| {
      RoundAgrees(order, requested, dep, kw0, kw, inServer, k);
      var r := Round(order[k], requested, dep, kw, inServer);
      if !(order[k].name in dep && Failure(order, kw0, inServer, k).Some?) {
        RoundsAgree(order, requested, dep, kw0, r.value.0, inServer, k + 1);
      }
      OneRound(order, requested, dep, kw, inServer, k, DefaultsOf(order, kw0), FailuresOf(order, kw0, inServer));
    }
  }

  // ---------- what the answers are ----------

  /** The value of parameter `k`: what the supplied one becomes, or its default where none is supplied. */
  ghost predicate ValueIs(order: seq<Param>, kw: Keywords, k: nat, v: Value)
    requires k < |order|
  {
    var p := order[k];
    if p.name in kw && !IsNull(kw[p.name]) then Becomes(p, kw[p.name], v)
    else DefaultIs(p, SourceValues(order, kw, k), v)
  }

  lemma {:induction false} EvaluateIs(order: seq<Param>, kw: Keywords, k: nat)
    requires k < |order|
    ensures match Evaluate(order, kw, k)
      case Ok(v) => ValueIs(order, kw, k, v)
      case Err(e) => var name := order[k].name; name in kw && !IsNull(kw[name]) && FailsWith(order[k], kw[name], e)
  {
    var p := order[k];
    if p.name in kw && !IsNull(kw[p.name]) {
      match Evaluate(order, kw, k) {
        case Ok(v) => BecomesIff(p, kw[p.name], v);
        case Err(e) => FailsIff(p, kw[p.name], e);
      }
    } else {
      DefaultGivenIs(p, SourceValues(order, kw, k));
    }
  }

  /** A source is the value of the parameter of that name. */
  lemma {:induction false} SourceIs(order: seq<Param>, kw: Keywords, k: nat, i: nat, j: nat)
    requires k < |order| && i < |Sources(order[k])| && DistinctNames(order) && Respects(order)
    requires j < |order| && order[j].name == Sources(order[k])[i] && Evaluate(order, kw, j).Ok?
    ensures ValueIs(order, kw, j, SourceValues(order, kw, k)[i])
  {
    var key := Sources(order[k])[i];
    DeclaredAt(order, |order|, j);
    SourceDeclaredBefore(order, k, |order|, key);
    assert Position(order, k, key) == j;
    assert SourceValue(order, kw, k, key) == Resolved(order, kw, j) == Evaluate(order, kw, j).value;
    EvaluateIs(order, kw, j);
  }

  /** A source that names no parameter is the raw keyword. */
  lemma {:induction false} ForeignSourceIs(order: seq<Param>, kw: Keywords, k: nat, i: nat)
    requires k < |order| && i < |Sources(order[k])|
    requires forall m :: 0 <= m < |order| ==> order[m].name != Sources(order[k])[i]
    ensures SourceValues(order, kw, k)[i] == Read(kw, Sources(order[k])[i])
  {
    var key := Sources(order[k])[i];
    if Declared(order, k, key) {
      var m := Position(order, k, key);
      assert false;
    }
  }

  /** The answers hold, for each requested parameter, its default unless that is `None`, and nothing else. */
  ghost predicate AnswersAre(order: seq<Param>, requested: set<string>, kw: Keywords, answers: Keywords) {
    && (forall k :: 0 <= k < |order| && order[k].name in requested ==>
      DefaultIs(order[k], SourceValues(order, kw, k), Read(answers, order[k].name)))
    && (forall name :: name in answers ==> name in requested && answers[name] != NoneValue && Declared(order, |order|, name))
  }

  lemma {:induction false} AnswersWhole(order: seq<Param>, requested: set<string>, kw: Keywords)
    requires DistinctNames(order)
    ensures AnswersAre(order, requested, kw, Answers(order, requested, DefaultsOf(order, kw), |order|))
  {
    var defaults := DefaultsOf(order, kw);
    var answers := Answers(order, requested, defaults, |order|);
    forall k | 0 <= k < |order| && order[k].name in requested
      ensures DefaultIs(order[k], SourceValues(order, kw, k), Read(answers, order[k].name))
    {
      AnswerAt(order, requested, defaults, |order|, k);
      DefaultGivenIs(order[k], SourceValues(order, kw, k));
    }
    AnswersDeclared(order, requested, defaults, |order|);
    forall name | name in answers
      ensures name in requested && answers[name] != NoneValue
    {
      AnswerAt(order, requested, defaults, |order|, Position(order, |order|, name));
    }
  }

  /** Along a respectful order, a call that goes through answers the defaults that the callbacks give. */
  lemma {:induction false} ReferenceIs(order: seq<Param>, requested: set<string>, kw: Keywords, inServer: bool)
    requires DistinctNames(order) && Reference(order, requested, kw, inServer).Ok?
    ensures AnswersAre(order, requested, kw, Reference(order, requested, kw, inServer).value)
  {
    AnswersWhole(order, requested, kw);
  }

  method GetDefaults(order: seq<Param>, requested: set<string>, kw0: Keywords, inServer: bool)
    returns (r: Result<Keywords, Error>)
    requires DistinctNames(order)
    ensures r == Rounds(order, requested, Needed(order, requested, 0), kw0, map[], inServer, 0)
    ensures Respects(order) ==> r == Reference(order, requested, kw0, inServer)
    ensures Respects(order) && r.Ok? ==> AnswersAre(order, requested, kw0, r.value)
  {
    if Reference(order, requested, kw0, inServer).Ok? {
      ReferenceIs(order, requested, kw0, inServer);
    }
    var dep := CollectNeeded(order, requested);
    ghost var whole := Rounds(order, requested, dep, kw0, map[], inServer, 0);
    if Respects(order) {
      NeededIsClosed(order, requested);
      RoundsAgree(order, requested, dep, kw0, kw0, inServer, 0);
    }
    var kw := kw0;
    var answers: Keywords := map[];
    var k := 0;
    while k < |order|
      invariant 0 <= k <= |order|
      invariant Rounds(order, requested, dep, kw, answers, inServer, k) == whole
    {
      var round := ForwardRound(order[k], requested, dep, kw, inServer);
      if round.Err? {
        return Err(round.error);
      }
      kw := round.value.0;
      if !round.value.1.NoneValue? {
        answers := answers[order[k].name := round.value.1];
      }
      k := k + 1;
    }
    r := Ok(answers);
  }

  // ---------- the answer does not depend on the order used ----------

  function OrNone(r: Result<Value, Error>): Value {
    match r
    case Ok(v) => v
    case Err(_) => NoneValue
  }

  /** The equation a parameter's value must satisfy, given everybody's values. */
  function Equation(p: Param, kw: Keywords, values: Keywords): Value {
    if p.name in kw && !IsNull(kw[p.name]) then OrNone(Convert(p, Normalize(p, kw[p.name])))
    else GetDefault(p, values)
  }

  ghost predicate Solves(ps: seq<Param>, kw: Keywords, values: Keywords) {
    && (forall k :: 0 <= k < |ps| ==> Read(values, ps[k].name) == Equation(ps[k], kw, values))
    && (forall name :: !Declared(ps, |ps|, name) ==> Read(values, name) == Read(kw, name))
  }

  lemma {:induction false} SourcesOfSolution(order: seq<Param>, kw: Keywords, values: Keywords, k: nat)
    requires k < |order| && DistinctNames(order) && Respects(order)
    requires forall name :: !Declared(order, |order|, name) ==> Read(values, name) == Read(kw, name)
    requires forall j :: 0 <= j < k ==> Read(values, order[j].name) == Resolved(order, kw, j)
    ensures GetDefault(order[k], values) == DefaultOf(order, kw, k)
  {
    var keys := Sources(order[k]);
    forall i | 0 <= i < |keys|
      ensures Read(values, keys[i]) == SourceValue(order, kw, k, keys[i])
    {
      SourceDeclaredBefore(order, k, |order|, keys[i]);
    }
    assert ReadAll(keys, values) == SourceValues(order, kw, k);
  }

  /** Along an order that respects the dependencies the equations have one solution: recursive evaluation. */
  lemma {:induction false} SolutionIsUnique(order: seq<Param>, kw: Keywords, values: Keywords, k: nat)
    requires k < |order| && DistinctNames(order) && Respects(order) && Solves(order, kw, values)
    ensures Read(values, order[k].name) == Resolved(order, kw, k)
    ensures GetDefault(order[k], values) == DefaultOf(order, kw, k)
  {
    forall j | 0 <= j < k
      ensures Read(values, order[j].name) == Resolved(order, kw, j)
    {
      SolutionIsUnique(order, kw, values, j);
    }
    SourcesOfSolution(order, kw, values, k);
  }

  function AllResolved(order: seq<Param>, kw: Keywords, k: nat): Keywords
    requires k <= |order|
  {
    if k == 0 then kw else AllResolved(order, kw, k - 1)[order[k - 1].name := Resolved(order, kw, k - 1)]
  }

  lemma {:induction false} AllResolvedReads(order: seq<Param>, kw: Keywords, k: nat)
    requires k <= |order| && DistinctNames(order)
    ensures forall j :: 0 <= j < k ==> Read(AllResolved(order, kw, k), order[j].name) == Resolved(order, kw, j)
    ensures forall name :: !Declared(order, k, name) ==> Read(AllResolved(order, kw, k), name) == Read(kw, name)
  {
    if k > 0 {
      AllResolvedReads(order, kw, k - 1);
    }
  }

  lemma {:induction false} EvaluationSolves(order: seq<Param>, kw: Keywords)
    requires DistinctNames(order) && Respects(order)
    ensures Solves(order, kw, AllResolved(order, kw, |order|))
  {
    var values := AllResolved(order, kw, |order|);
    AllResolvedReads(order, kw, |order|);
    forall k | 0 <= k < |order|
      ensures Read(values, order[k].name) == Equation(order[k], kw, values)
    {
      SourcesOfSolution(order, kw, values, k);
      assert Read(values, order[k].name) == Resolved(order, kw, k) == OrNone(Evaluate(order, kw, k));
    }
  }

  lemma {:induction false} FindIn(from: seq<Param>, to: seq<Param>, i: nat) returns (j: nat)
    requires multiset(from) == multiset(to) && i < |from|
    ensures j < |to| && to[j] == from[i]
  {
    assert from[i] in multiset(to);
    j :| j < |to| && to[j] == from[i];
  }

  lemma {:induction false} SolvesTransfers(a: seq<Param>, b: seq<Param>, kw: Keywords, values: Keywords)
    requires multiset(a) == multiset(b) && Solves(a, kw, values)
    ensures Solves(b, kw, values)
  {
    forall k | 0 <= k < |b|
      ensures Read(values, b[k].name) == Equation(b[k], kw, values)
    {
      var j := FindIn(b, a, k);
    }
    forall name | !Declared(b, |b|, name)
      ensures Read(values, name) == Read(kw, name)
    {
      if Declared(a, |a|, name) {
        var j := FindIn(a, b, Position(a, |a|, name));
        DeclaredAt(b, |b|, j);
      }
    }
  }

  /** Two orders give each parameter the same value and the same default. */
  lemma {:induction false} SameEvaluation(a: seq<Param>, b: seq<Param>, kw: Keywords, i: nat, j: nat)
    requires DistinctNames(a) && Respects(a) && DistinctNames(b) && Respects(b) && multiset(a) == multiset(b)
    requires i < |a| && j < |b| && a[i] == b[j]
    ensures DefaultOf(a, kw, i) == DefaultOf(b, kw, j)
    ensures Evaluate(a, kw, i) == Evaluate(b, kw, j)
  {
    var values := AllResolved(a, kw, |a|);
    EvaluationSolves(a, kw);
    SolvesTransfers(a, b, kw, values);
    SolutionIsUnique(a, kw, values, i);
    SolutionIsUnique(b, kw, values, j);
  }

  lemma {:induction false} AnswersDeclared(order: seq<Param>, requested: set<string>, defaults: seq<Value>, k: nat)
    requires k <= |order| == |defaults|
    ensures Answers(order, requested, defaults, k).Keys <= Names(order, k)
  {
    if k > 0 {
      AnswersDeclared(order, requested, defaults, k - 1);
    }
  }

  /** The answers hold the default of a parameter exactly when it is requested and not None. */
  lemma {:induction false} AnswerAt(order: seq<Param>, requested: set<string>, defaults: seq<Value>, k: nat, j: nat)
    requires j < k <= |order| == |defaults| && DistinctNames(order)
    ensures var answers, name := Answers(order, requested, defaults, k), order[j].name;
      if name in requested && !defaults[j].NoneValue?
      then name in answers && answers[name] == defaults[j]
      else name !in answers
  {
    if j == k - 1 {
      AnswersDeclared(order, requested, defaults, k - 1);
      NotYetDeclared(order, k - 1);
    } else {
      AnswerAt(order, requested, defaults, k - 1, j);
      assert order[j].name != order[k - 1].name;
    }
  }

  lemma {:induction false} SameAnswer(a: seq<Param>, b: seq<Param>, requested: set<string>, kw: Keywords, name: string)
    requires DistinctNames(a) && Respects(a) && DistinctNames(b) && Respects(b) && multiset(a) == multiset(b)
    requires name in Answers(a, requested, DefaultsOf(a, kw), |a|)
    ensures name in Answers(b, requested, DefaultsOf(b, kw), |b|)
    ensures Answers(a, requested, DefaultsOf(a, kw), |a|)[name] == Answers(b, requested, DefaultsOf(b, kw), |b|)[name]
  {
    var da, db := DefaultsOf(a, kw), DefaultsOf(b, kw);
    AnswersDeclared(a, requested, da, |a|);
    var i := Position(a, |a|, name);
    var j := FindIn(a, b, i);
    SameEvaluation(a, b, kw, i, j);
    AnswerAt(a, requested, da, |a|, i);
    AnswerAt(b, requested, db, |b|, j);
  }

  lemma {:induction false} SameMap(ra: Keywords, rb: Keywords)
    requires forall name :: name in ra ==> name in rb && ra[name] == rb[name]
    requires forall name :: name in rb ==> name in ra
    ensures ra == rb
  {
    assert ra.Keys == rb.Keys;
  }

  lemma {:induction false} SameAnswers(a: seq<Param>, b: seq<Param>, requested: set<string>, kw: Keywords)
    requires DistinctNames(a) && Respects(a) && DistinctNames(b) && Respects(b) && multiset(a) == multiset(b)
    ensures Answers(a, requested, DefaultsOf(a, kw), |a|) == Answers(b, requested, DefaultsOf(b, kw), |b|)
  {
    var ra, rb := Answers(a, requested, DefaultsOf(a, kw), |a|), Answers(b, requested, DefaultsOf(b, kw), |b|);
    forall name | name in ra
      ensures name in rb && ra[name] == rb[name]
    {
      SameAnswer(a, b, requested, kw, name);
    }
    forall name | name in rb
      ensures name in ra
    {
      SameAnswer(b, a, requested, kw, name);
    }
    SameMap(ra, rb);
  }

  lemma {:induction false} SameNeeded(a: seq<Param>, b: seq<Param>, requested: set<string>)
    requires Respects(a) && multiset(a) == multiset(b)
    ensures Needed(b, requested, 0) <= Needed(a, requested, 0)
  {
    var dep := Needed(a, requested, 0);
    NeededIsClosed(a, requested);
    forall i | 0 <= i < |b| && (b[i].name in requested || b[i].name in dep)
      ensures Keys(b[i]) <= dep
    {
      var j := FindIn(b, a, i);
    }
    NeededIsLeast(b, requested, dep, 0);
  }

  lemma {:induction false} FailureWitness(order: seq<Param>, failures: seq<Option<Error>>, dep: set<string>, k: nat)
    requires k <= |order| == |failures|
    ensures FirstFailure(order, failures, dep, k).Some? <==>
      exists j :: k <= j < |order| && order[j].name in dep && failures[j].Some?
    decreases |order| - k
  {
    if k < |order| {
      FailureWitness(order, failures, dep, k + 1);
    }
  }

  lemma {:induction false} FailureTransfers(a: seq<Param>, b: seq<Param>, kw: Keywords, inServer: bool, dep: set<string>)
    requires DistinctNames(a) && Respects(a) && DistinctNames(b) && Respects(b) && multiset(a) == multiset(b)
    requires FirstFailure(a, FailuresOf(a, kw, inServer), dep, 0).Some?
    ensures FirstFailure(b, FailuresOf(b, kw, inServer), dep, 0).Some?
  {
    var fa, fb := FailuresOf(a, kw, inServer), FailuresOf(b, kw, inServer);
    FailureWitness(a, fa, dep, 0);
    FailureWitness(b, fb, dep, 0);
    var i :| 0 <= i < |a| && a[i].name in dep && fa[i].Some?;
    var j := FindIn(a, b, i);
    SameEvaluation(a, b, kw, i, j);
    assert fb[j] == fa[i];
  }

  /** Whichever order respects the dependencies: the same call fails or returns the same defaults. */
  lemma {:induction false} OrderIrrelevant(a: seq<Param>, b: seq<Param>, requested: set<string>, kw: Keywords, inServer: bool)
    requires DistinctNames(a) && Respects(a) && DistinctNames(b) && Respects(b) && multiset(a) == multiset(b)
    ensures Reference(a, requested, kw, inServer).Ok? <==> Reference(b, requested, kw, inServer).Ok?
    ensures Reference(a, requested, kw, inServer).Ok? ==>
      Reference(a, requested, kw, inServer) == Reference(b, requested, kw, inServer)
  {
    SameNeeded(a, b, requested);
    SameNeeded(b, a, requested);
    var dep := Needed(a, requested, 0);
    assert dep == Needed(b, requested, 0);
    if FirstFailure(a, FailuresOf(a, kw, inServer), dep, 0).Some? {
      FailureTransfers(a, b, kw, inServer, dep);
    } else if FirstFailure(b, FailuresOf(b, kw, inServer), dep, 0).Some? {
      FailureTransfers(b, a, kw, inServer, dep);
    }
    SameAnswers(a, b, requested, kw);
  }

  /** A finalized command: order the declarations, then compute the requested defaults. */
  method CommandDefaults(decls: seq<Param>, requested: set<string>, kw: Keywords, inServer: bool)
    returns (r: Result<Keywords, Error>)
    requires DistinctNames(decls)
    ensures !UsesItself(decls) && (forall s: nat, u: nat, w: nat :: !LateMiddle(decls, s, u, w)) ==>
      r == Reference(Ordered(decls), requested, kw, inServer)
    ensures r == Rounds(Ordered(decls), requested, Needed(Ordered(decls), requested, 0), kw, map[], inServer, 0)
  {
    var order := OrderByDefault(decls);
    OrderedNames(decls);
    OrderRespectsIff(decls);
    r := GetDefaults(order, requested, kw, inServer);
  }

  lemma {:induction false} OrderedNames(decls: seq<Param>)
    requires DistinctNames(decls)
    ensures DistinctNames(Ordered(decls))
  {
    var l := Placement(decls, |decls|);
    PlacementIsPermutation(decls, |decls|);
    forall i, j | 0 <= i < j < |l|
      ensures decls[l[i]].name != decls[l[j]].name
    {
      assert l[i] != l[j];
    }
  }
}
