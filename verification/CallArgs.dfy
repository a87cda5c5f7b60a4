/**
 Positional arguments and options of a command (ipalib/frontend.py): splitting a parameter map into
 (args, options) and merging (args, options) back into a map.
 */
module CallArgs {
  import opened Common
  import opened Params

  datatype Arg = Arg(name: string, required: bool, multivalue: bool)

  /** The namespaces of a finalized command; `internal` names are tolerated as options. */
  datatype Command = Command(args: seq<Arg>, options: seq<string>, internal: set<string>)

  datatype CallError = ZeroArgumentError | MaxArgumentError | OverlapError | UnknownOption | AssertionFailed

  function ArgNames(args: seq<Arg>): (names: seq<string>)
    ensures |names| == |args| && forall i :: 0 <= i < |args| ==> names[i] == args[i].name
  {
    seq(|args|, i requires 0 <= i < |args| => args[i].name)
  }

  /** The names of `self.params`. */
  function AllNames(c: Command): seq<string> { ArgNames(c.args) + c.options }

  /** `name` is an argument at position `from` or later. */
  predicate IsArg(c: Command, from: nat, name: string) {
    exists i :: from <= i < |c.args| && c.args[i].name == name
  }

  predicate Declared(c: Command, name: string) { IsArg(c, 0, name) || name in c.options }

  lemma {:induction false} AllNamesDeclared(c: Command, name: string)
    ensures name in AllNames(c) <==> Declared(c, name)
  {
    if IsArg(c, 0, name) {
      var i :| 0 <= i < |c.args| && c.args[i].name == name;
      assert ArgNames(c.args)[i] == name;
    }
  }

  /** Names are unique, as in any namespace, and `check_args` let only the final argument be multivalue. */
  ghost predicate WellFormed(c: Command) {
    && (forall i, j :: 0 <= i < j < |c.args| ==> c.args[i].name != c.args[j].name)
    && (forall i :: 0 <= i < |c.args| ==> c.args[i].name !in c.options)
    && (forall i :: 0 <= i < |c.args| - 1 ==> !c.args[i].multivalue)
  }

  predicate IsSequence(v: Value) { v.Tuple? || v.List? }

  // ---------- check_args ----------

  ghost predicate Checked(args: seq<Arg>) {
    && (forall i, j :: 0 <= i < j < |args| ==> args[j].required ==> args[i].required)
    && (forall i :: 0 <= i < |args| - 1 ==> !args[i].multivalue)
  }

  method CheckArgs(args: seq<Arg>) returns (ok: bool)
    ensures ok <==> Checked(args)
  {
    var optional, multivalue := false, false;
    var i := 0;
    while i < |args|
      invariant 0 <= i <= |args|
      invariant optional <==> exists k :: 0 <= k < i && !args[k].required
      invariant multivalue <==> exists k :: 0 <= k < i && args[k].multivalue
      invariant Checked(args[..i])
      invariant forall k :: 0 <= k < i - 1 ==> !args[k].multivalue
    {
      assert args[..i + 1] == args[..i] + [args[i]];
      if optional && args[i].required {
        var k :| 0 <= k < i && !args[k].required;
        return false;
      }
      if multivalue {
        var k :| 0 <= k < i && args[k].multivalue;
        assert k < |args| - 1;
        return false;
      }
      if !args[i].required {
        optional := true;
      }
      if args[i].multivalue {
        multivalue := true;
      }
      i := i + 1;
    }
    assert args[..i] == args;
    return true;
  }

  // ---------- splitting ----------

  /** The number of leading arguments present in the map: those passed positionally. */
  function Leading(args: seq<Arg>, params: Keywords): (n: nat)
    ensures n <= |args|
    ensures forall i :: 0 <= i < n ==> args[i].name in params
    ensures n < |args| ==> args[n].name !in params
  {
    if args == [] || args[0].name !in params then 0 else 1 + Leading(args[1..], params)
  }

  function Positional(c: Command, params: Keywords): (values: seq<Value>)
    ensures |values| == Leading(c.args, params)
    ensures forall i :: 0 <= i < |values| ==> values[i] == params[c.args[i].name]
  {
    seq(Leading(c.args, params), i requires 0 <= i < Leading(c.args, params) => params[c.args[i].name])
  }

  /** The part of the map passed as options: the options, and the arguments after the first gap. */
  function Remaining(c: Command, params: Keywords): Keywords {
    map name | name in params && (name in c.options || IsArg(c, Leading(c.args, params), name)) :: params[name]
  }

  /** `__params_2_options`. */
  method ParamsToOptions(c: Command, params: Keywords) returns (options: Keywords)
    ensures options == map name | name in params && name in c.options :: params[name]
  {
    options := map[];
    var i := 0;
    while i < |c.options|
      invariant 0 <= i <= |c.options|
      invariant options == map name | name in params && name in c.options[..i] :: params[name]
    {
      assert c.options[..i + 1] == c.options[..i] + [c.options[i]];
      if c.options[i] in params {
        options := options[c.options[i] := params[c.options[i]]];
      }
      i := i + 1;
    }
    assert c.options[..i] == c.options;
  }

  method Split(c: Command, params: Keywords) returns (positional: seq<Value>, options: Keywords)
    ensures positional == Positional(c, params) && options == Remaining(c, params)
  {
    options := ParamsToOptions(c, params);
    positional := [];
    ghost var n := Leading(c.args, params);
    var isArg := true;
    var i: nat := 0;
    while i < |c.args|
      invariant i <= |c.args|
      invariant isArg <==> i <= n
      invariant positional == Positional(c, params)[..Min(i, n)]
      invariant options == map name |
        name in params && (name in c.options || exists k :: n <= k < i && c.args[k].name == name) :: params[name]
    {
      var name := c.args[i].name;
      if name !in params {
        isArg := false;
      } else if isArg {
        positional := positional + [params[name]];
      } else {
        options := options[name := params[name]];
      }
      i := i + 1;
    }
  }

  // ---------- merging ----------

  /** The value bound to an argument: a multivalue argument takes a lone sequence as it is, or all that is left. */
  function Bound(c: Command, values: seq<Value>, i: nat): Value
    requires i < |values| && i < |c.args|
  {
    if c.args[i].multivalue && !(|values| == i + 1 && IsSequence(values[i]))
    then Tuple(values[i..]) else values[i]
  }

  /** The bindings of the first `k` arguments. */
  function ArgMap(c: Command, values: seq<Value>, k: nat): Keywords
    requires k <= |values| && k <= |c.args|
  {
    if k == 0 then map[] else ArgMap(c, values, k - 1)[c.args[k - 1].name := Bound(c, values, k - 1)]
  }

  function OptionMap(c: Command, options: Keywords): Keywords {
    map name | name in options && Declared(c, name) :: options[name]
  }

  function Min(a: nat, b: nat): nat { if a < b then a else b }

  function MergedMap(c: Command, positional: seq<Value>, options: Keywords): Keywords {
    OptionMap(c, options) + ArgMap(c, positional, Min(|positional|, |c.args|))
  }

  predicate TooMany(c: Command, positional: seq<Value>) {
    |positional| > |c.args| && (|c.args| == 0 || !c.args[|c.args| - 1].multivalue)
  }

  ghost predicate HasUnknown(c: Command, options: Keywords) {
    exists name :: name in options && !Declared(c, name) && name !in c.internal
  }

  /** A multivalue argument before the last one was filled, which the source asserts against. */
  ghost predicate Misplaced(c: Command, positional: seq<Value>) {
    exists i :: 0 <= i < |c.args| - 1 && i < |positional| && c.args[i].multivalue
  }

  predicate Overlaps(c: Command, positional: seq<Value>, options: Keywords) {
    ArgMap(c, positional, Min(|positional|, |c.args|)).Keys * OptionMap(c, options).Keys != {}
  }

  /** Moves the options that name a parameter out of `given`. */
  method PopDeclared(all: seq<string>, given: Keywords) returns (params: Keywords, options: Keywords)
    ensures params == map name | name in given && name in all :: given[name]
    ensures options == map name | name in given && name !in all :: given[name]
  {
    options, params := given, map[];
    var i := 0;
    while i < |all|
      invariant 0 <= i <= |all|
      invariant params == map name | name in given && name in all[..i] :: given[name]
      invariant options == map name | name in given && name !in all[..i] :: given[name]
    {
      assert all[..i + 1] == all[..i] + [all[i]];
      if all[i] in options {
        params := params[all[i] := options[all[i]]];
        options := options - {all[i]};
      }
      i := i + 1;
    }
    assert all[..i] == all;
  }

  method OptionsToParams(c: Command, given: Keywords) returns (r: Result<Keywords, CallError>)
    ensures r == if HasUnknown(c, given) then Err(UnknownOption) else Ok(OptionMap(c, given))
  {
    var params, options := PopDeclared(AllNames(c), given);
    forall name
      ensures name in AllNames(c) <==> Declared(c, name)
    {
      AllNamesDeclared(c, name);
    }
    assert params == OptionMap(c, given);
    var unused := options.Keys - c.internal;
    if unused != {} {
      var name :| name in unused;
      assert name in given && !Declared(c, name);
      return Err(UnknownOption);
    }
    forall name | name in given && !Declared(c, name)
      ensures name in c.internal
    {
      assert name !in unused;
    }
    return Ok(params);
  }

  /** `__args_2_params`. */
  method ArgsToParams(c: Command, values: seq<Value>) returns (r: Result<Keywords, CallError>)
    ensures r == if Misplaced(c, values) then Err(AssertionFailed) else Ok(ArgMap(c, values, Min(|values|, |c.args|)))
  {
    var params, multivalue := map[], false;
    var i: nat := 0;
    while i < |c.args|
      invariant i <= |c.args| && i <= |values|
      invariant params == ArgMap(c, values, i)
      invariant multivalue == (i > 0 && c.args[i - 1].multivalue)
      invariant forall j :: 0 <= j < i - 1 ==> !c.args[j].multivalue
    {
      if multivalue {
        return Err(AssertionFailed);
      }
      if |values| <= i {
        break;
      }
      var arg := c.args[i];
      if arg.multivalue {
        multivalue := true;
        if |values| == i + 1 && IsSequence(values[i]) {
          params := params[arg.name := values[i]];
        } else {
          params := params[arg.name := Tuple(values[i..])];
        }
      } else {
        params := params[arg.name := values[i]];
      }
      i := i + 1;
    }
    return Ok(params);
  }

  /** `args_options_2_params`, with every way it can fail. */
  method Merge(c: Command, positional: seq<Value>, options: Keywords) returns (r: Result<Keywords, CallError>)
    ensures r ==
      if TooMany(c, positional) then Err(if |c.args| == 0 then ZeroArgumentError else MaxArgumentError)
      else if HasUnknown(c, options) then Err(UnknownOption)
      else if Misplaced(c, positional) then Err(AssertionFailed)
      else if Overlaps(c, positional, options) then Err(OverlapError)
      else Ok(MergedMap(c, positional, options))
  {
    var unlimited := |c.args| > 0 && c.args[|c.args| - 1].multivalue;
    if !unlimited && |positional| > |c.args| {
      return Err(if |c.args| == 0 then ZeroArgumentError else MaxArgumentError);
    }
    var fromOptions := OptionsToParams(c, options);
    if fromOptions.Err? {
      return fromOptions;
    }
    var params := fromOptions.value;
    if |positional| > 0 {
      var fromArgs := ArgsToParams(c, positional);
      if fromArgs.Err? {
        return fromArgs;
      }
      if fromArgs.value.Keys * params.Keys != {} {
        return Err(OverlapError);
      }
      params := params + fromArgs.value;
    } else {
      assert params == MergedMap(c, positional, options) && !Overlaps(c, positional, options);
    }
    return Ok(params);
  }

  // ---------- the round trip ----------

  lemma {:induction false} ArgMapAt(c: Command, values: seq<Value>, k: nat, i: nat)
    requires WellFormed(c) && i < k <= |values| && k <= |c.args|
    ensures c.args[i].name in ArgMap(c, values, k)
    ensures ArgMap(c, values, k)[c.args[i].name] == Bound(c, values, i)
  {
    if i < k - 1 {
      ArgMapAt(c, values, k - 1, i);
    }
  }

  lemma {:induction false} ArgMapKey(c: Command, values: seq<Value>, k: nat, name: string) returns (i: nat)
    requires k <= |values| && k <= |c.args| && name in ArgMap(c, values, k)
    ensures i < k && c.args[i].name == name
  {
    if c.args[k - 1].name == name {
      i := k - 1;
    } else {
      i := ArgMapKey(c, values, k - 1, name);
    }
  }

  /** A full set of positional arguments ends in a lone value for the multivalue argument. */
  predicate LoneFinalValue(c: Command, params: Keywords) {
    && |c.args| > 0
    && c.args[|c.args| - 1].multivalue
    && Leading(c.args, params) == |c.args|
    && !IsSequence(params[c.args[|c.args| - 1].name])
  }

  /** What comes back: the declared part of the map, a lone final value having become a 1-tuple. */
  function RoundTripped(c: Command, params: Keywords): Keywords {
    var declared := map name | name in params && Declared(c, name) :: params[name];
    if LoneFinalValue(c, params)
    then declared[c.args[|c.args| - 1].name := Tuple([params[c.args[|c.args| - 1].name]])]
    else declared
  }

  lemma {:induction false} SplitIsAccepted(c: Command, params: Keywords)
    requires WellFormed(c)
    ensures !TooMany(c, Positional(c, params)) && !HasUnknown(c, Remaining(c, params))
    ensures !Misplaced(c, Positional(c, params)) && !Overlaps(c, Positional(c, params), Remaining(c, params))
  {
    var values, options := Positional(c, params), Remaining(c, params);
    forall name | name in ArgMap(c, values, |values|)
      ensures name !in OptionMap(c, options)
    {
      var i := ArgMapKey(c, values, |values|, name);
    }
  }

  /** An argument passed by position comes back, a lone final value as a 1-tuple. */
  lemma {:induction false} PositionalRoundTrips(c: Command, params: Keywords, i: nat)
    requires WellFormed(c) && i < Leading(c.args, params)
    ensures var name := c.args[i].name;
      && name in ArgMap(c, Positional(c, params), Leading(c.args, params))
      && name in RoundTripped(c, params)
      && ArgMap(c, Positional(c, params), Leading(c.args, params))[name] == RoundTripped(c, params)[name]
  {
    var values := Positional(c, params);
    ArgMapAt(c, values, |values|, i);
    assert IsArg(c, 0, c.args[i].name);
    if c.args[i].multivalue {
      assert i == |c.args| - 1 && |values| == i + 1;
      assert values[i..] == [values[i]];
    } else {
      assert |c.args| - 1 != i ==> c.args[|c.args| - 1].name != c.args[i].name;
    }
  }

  /** Any other name comes back through the options. */
  lemma {:induction false} OptionRoundTrips(c: Command, params: Keywords, name: string)
    requires WellFormed(c) && forall i :: 0 <= i < Leading(c.args, params) ==> c.args[i].name != name
    ensures name in OptionMap(c, Remaining(c, params)) <==> name in RoundTripped(c, params)
    ensures name in RoundTripped(c, params) ==> RoundTripped(c, params)[name] == params[name]
  {
    if IsArg(c, 0, name) {
      var i :| 0 <= i < |c.args| && c.args[i].name == name;
      assert IsArg(c, Leading(c.args, params), name);
    }
  }

  /** One name through the round trip. */
  lemma {:induction false} NameRoundTrips(c: Command, params: Keywords, name: string)
    requires WellFormed(c)
    ensures var merged := MergedMap(c, Positional(c, params), Remaining(c, params));
      && (name in merged <==> name in RoundTripped(c, params))
      && (name in merged ==> merged[name] == RoundTripped(c, params)[name])
  {
    var n := Leading(c.args, params);
    if i :| 0 <= i < n && c.args[i].name == name {
      PositionalRoundTrips(c, params, i);
    } else {
      OptionRoundTrips(c, params, name);
      if name in ArgMap(c, Positional(c, params), n) {
        var i := ArgMapKey(c, Positional(c, params), n, name);
        assert false;
      }
    }
  }

  /** The round trip is the identity exactly when no lone value sits in a fully positional multivalue argument. */
  lemma {:induction false} RoundTripIff(c: Command, params: Keywords)
    requires WellFormed(c) && forall name :: name in params ==> Declared(c, name)
    ensures RoundTripped(c, params) == params <==> !LoneFinalValue(c, params)
  {
    assert (map name | name in params && Declared(c, name) :: params[name]) == params;
    if LoneFinalValue(c, params) {
      var last := c.args[|c.args| - 1].name;
      assert RoundTripped(c, params)[last] != params[last];
    }
  }

  /** The round trip of a call, and when it gives back what went in. */
  method SplitAndMerge(c: Command, params: Keywords) returns (r: Result<Keywords, CallError>)
    requires WellFormed(c)
    ensures r == Ok(RoundTripped(c, params))
    ensures (forall name :: name in params ==> Declared(c, name)) ==> (r == Ok(params) <==> !LoneFinalValue(c, params))
  {
    var positional, options := Split(c, params);
    SplitIsAccepted(c, params);
    r := Merge(c, positional, options);
    forall name
      ensures name in r.value <==> name in RoundTripped(c, params)
      ensures name in r.value ==> r.value[name] == RoundTripped(c, params)[name]
    {
      NameRoundTrips(c, params, name);
    }
    assert r.value.Keys == RoundTripped(c, params).Keys;
    assert r.value == RoundTripped(c, params);
    if forall name :: name in params ==> Declared(c, name) {
      RoundTripIff(c, params);
    }
  }

  /** A second round trip changes nothing. */
  lemma {:induction false} RoundTripSettles(c: Command, params: Keywords)
    requires WellFormed(c)
    ensures RoundTripped(c, RoundTripped(c, params)) == RoundTripped(c, params)
  {
    var once := RoundTripped(c, params);
    forall name | name in once
      ensures Declared(c, name)
    {
      if LoneFinalValue(c, params) {
        assert IsArg(c, 0, c.args[|c.args| - 1].name);
      }
    }
    if LoneFinalValue(c, once) {
      var last := c.args[|c.args| - 1].name;
      LeadingKept(c, params, once);
      assert false;
    }
    RoundTripIff(c, once);
  }

  lemma {:induction false} LeadingKept(c: Command, params: Keywords, once: Keywords)
    requires Leading(c.args, once) == |c.args| && forall name :: name in once ==> name in params
    ensures Leading(c.args, params) == |c.args|
  {
    if Leading(c.args, params) < |c.args| {
      assert false;
    }
  }

  /** Where each positional value ends up: in its argument, or in order in the tuple of the last multivalue argument. */
  lemma {:induction false} PositionalEndsUp(c: Command, positional: seq<Value>, options: Keywords, i: nat)
    requires WellFormed(c) && i < |positional| && i < |c.args|
    ensures var name, merged := c.args[i].name, MergedMap(c, positional, options);
      && name in merged
      && (!c.args[i].multivalue ==> merged[name] == positional[i])
      && (c.args[i].multivalue && |positional| == i + 1 && (positional[i].Tuple? || positional[i].List?) ==>
           merged[name] == positional[i])
      && (c.args[i].multivalue && !(|positional| == i + 1 && (positional[i].Tuple? || positional[i].List?)) ==>
           && merged[name].Tuple? && |merged[name].items| == |positional| - i
           && forall j :: 0 <= j < |positional| - i ==> merged[name].items[j] == positional[i + j])
  {
    ArgMapAt(c, positional, Min(|positional|, |c.args|), i);
  }
}
