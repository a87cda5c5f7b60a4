/**
 The evaluation steps of one parameter (ipalib/parameters.py): null test, normalisation,
 conversion, validation and the two kinds of default.
 Callbacks are arbitrary functions; `None` (or `Err`) stands for a callback that raises.
 */
module Params {
  import opened Common

  datatype Value =
    | NoneValue
    | Text(text: string)
    | Number(number: int)
    | Flag(flag: bool)
    | Tuple(items: seq<Value>)
    | List(items: seq<Value>)

  datatype Error =
    | ConversionError(detail: string)
    | RequirementError(name: string)
    | ValidationError(detail: string)

  datatype DefaultFrom = DefaultFrom(keys: seq<string>, callback: seq<Value> -> Option<Value>)

  datatype Param = Param(
    name: string,
    required: bool,
    nonempty: bool,
    deprecated: bool,
    multivalue: bool,
    noConvert: bool,
    default: Value,
    defaultFrom: Option<DefaultFrom>,
    normalizer: Option<Value -> Option<Value>>,
    convertScalar: Value -> Result<Value, Error>,
    validateScalar: Value -> Option<Error>)

  type Keywords = map<string, Value>

  /** `kw.get(name, None)` */
  function Read(kw: Keywords, name: string): Value {
    if name in kw then kw[name] else NoneValue
  }

  predicate IsNull(v: Value) {
    match v
    case NoneValue => true
    case Text(s) => s == ""
    case Tuple(vs) => vs == []
    case List(vs) => vs == []
    case Number(_) => false
    case Flag(_) => false
  }

  /** The members of a multivalue; a lone value counts as one member. */
  function Members(v: Value): seq<Value> {
    if v.Tuple? || v.List? then v.items else [v]
  }

  function NormalizeScalar(p: Param, v: Value): Value {
    if p.normalizer.None? then v
    else
      match p.normalizer.value(v)
      case Some(w) => w
      case None => v
  }

  function NormalizeAll(p: Param, vs: seq<Value>): seq<Value> {
    if vs == [] then [] else [NormalizeScalar(p, vs[0])] + NormalizeAll(p, vs[1..])
  }

  function Normalize(p: Param, v: Value): Value {
    if p.multivalue then Tuple(NormalizeAll(p, Members(v))) else NormalizeScalar(p, v)
  }

  function ConvertOne(p: Param, v: Value): Result<Value, Error> {
    if p.noConvert && v.Text? then Ok(v) else p.convertScalar(v)
  }

  function ConvertAll(p: Param, vs: seq<Value>): Result<seq<Value>, Error> {
    if vs == [] then Ok([])
    else if IsNull(vs[0]) then ConvertAll(p, vs[1..])
    else
      match ConvertOne(p, vs[0])
      case Err(e) => Err(e)
      case Ok(w) =>
        match ConvertAll(p, vs[1..])
        case Err(e) => Err(e)
        case Ok(ws) => Ok([w] + ws)
  }

  function Convert(p: Param, v: Value): Result<Value, Error> {
    if IsNull(v) then Ok(NoneValue)
    else if p.multivalue then
      match ConvertAll(p, Members(v))
      case Err(e) => Err(e)
      case Ok(ws) => Ok(if ws == [] then NoneValue else Tuple(ws))
    else ConvertOne(p, v)
  }

  function ValidateAll(p: Param, vs: seq<Value>): Option<Error> {
    if vs == [] then None
    else
      match p.validateScalar(vs[0])
      case Some(e) => Some(e)
      case None => ValidateAll(p, vs[1..])
  }

  /** The error `validate` raises, if any. */
  function Validate(p: Param, v: Value, supplied: bool): Option<Error> {
    if v.NoneValue? then
      if p.required || (supplied && p.nonempty) then Some(RequirementError(p.name)) else None
    else if p.deprecated then Some(ValidationError("this option is deprecated"))
    else if p.multivalue then
      if !v.Tuple? || v.items == [] then Some(ValidationError("need a non-empty tuple"))
      else ValidateAll(p, v.items)
    else p.validateScalar(v)
  }

  function Sources(p: Param): seq<string> {
    if p.defaultFrom.Some? then p.defaultFrom.value.keys else []
  }

  /** `get_default` once the values of the `default_from` keys have been looked up. */
  function DefaultGiven(p: Param, vals: seq<Value>): Value {
    if p.defaultFrom.None? || NoneValue in vals then p.default
    else
      match p.defaultFrom.value.callback(vals)
      case None => p.default
      case Some(d) =>
        if d.NoneValue? then p.default
        else
          match Convert(p, Normalize(p, d))
          case Ok(w) => w
          case Err(_) => p.default
  }

  function ReadAll(keys: seq<string>, kw: Keywords): (vals: seq<Value>)
    ensures |vals| == |keys|
    ensures forall i :: 0 <= i < |keys| ==> vals[i] == Read(kw, keys[i])
  {
    seq(|keys|, i requires 0 <= i < |keys| => Read(kw, keys[i]))
  }

  function GetDefault(p: Param, kw: Keywords): Value {
    DefaultGiven(p, ReadAll(Sources(p), kw))
  }

  /** `Param.__call__`: the supplied value made ready, or the default when it is null. */
  function Call(p: Param, v: Value, kw: Keywords): Result<Value, Error> {
    if IsNull(v) then Ok(GetDefault(p, kw)) else Convert(p, Normalize(p, v))
  }
}
