/**
 The two wire encodings of a command's values: JSON (ipalib/ipajson.py) and XML-RPC (ipalib/rpc.py).
 `json.dumps`/`loads` and the XML-RPC marshaller are taken as lossless on the trees built here, and
 the text codecs of dates, DNS names, byte strings and integers are parameters.
 */
module Wire {
  import opened Common

  type Bytes = seq<bv8>

  /** A Decimal, a DN and a Principal are represented by the text `str()` gives. */
  datatype Value =
    | NoneValue
    | Bool(b: bool)
    | Int(n: int)
    | Float(r: real)
    | Str(s: string)
    | Binary(bytes: Bytes)
    | Moment(seconds: int)
    | DnsName(id: int)
    | Decimal(text: string)
    | Dn(text: string)
    | Principal(text: string)
    | List(items: seq<Value>)
    | Tuple(items: seq<Value>)
    | Dict(entries: seq<Entry>)

  /** A dict in insertion order. */
  datatype Entry = Entry(key: string, value: Value)

  datatype Codecs = Codecs(
    b64: Bytes -> string, unb64: string -> Option<Bytes>,
    ldapTime: int -> string, parseLdapTime: string -> Option<int>,
    xmlTime: int -> string, parseXmlTime: string -> Option<int>,
    dnsText: int -> string, parseDns: string -> Option<int>,
    intText: int -> string)

  ghost predicate Lossless(c: Codecs) {
    && (forall b :: c.unb64(c.b64(b)) == Some(b))
    && (forall t :: c.parseLdapTime(c.ldapTime(t)) == Some(t))
    && (forall t :: c.parseXmlTime(c.xmlTime(t)) == Some(t))
    && (forall d :: c.parseDns(c.dnsText(d)) == Some(d))
  }

  datatype Version = Version(major: int, minor: int)

  predicate AtLeast(v: Version, w: Version) {
    v.major > w.major || (v.major == w.major && v.minor >= w.minor)
  }

  const DATETIME_VALUES := Version(2, 84)
  const DNS_NAME_VALUES := Version(2, 88)
  const MININT := -0x8000_0000
  const MAXINT := 0x7fff_ffff

  predicate HasKey(es: seq<Entry>, key: string) {
    exists i :: 0 <= i < |es| && es[i].key == key
  }

  // ---------- JSON ----------

  datatype Json =
    | JNull
    | JBool(b: bool)
    | JInt(n: int)
    | JFloat(r: real)
    | JStr(s: string)
    | JArray(items: seq<Json>)
    | JObject(members: seq<Member>)

  datatype Member = Member(key: string, value: Json)

  function JsonEncode(c: Codecs, ver: Version, v: Value): Json
    decreases v, 1
  {
    match v
    case NoneValue => JNull
    case Bool(b) => JBool(b)
    case Int(n) => JInt(n)
    case Float(r) => JFloat(r)
    case Str(s) => JStr(s)
    case Binary(b) => JObject([Member("__base64__", JStr(c.b64(b)))])
    case Moment(t) =>
      if AtLeast(ver, DATETIME_VALUES) then JObject([Member("__datetime__", JStr(c.ldapTime(t)))])
      else JStr(c.ldapTime(t))
    case DnsName(d) =>
      if AtLeast(ver, DNS_NAME_VALUES) then JObject([Member("__dns_name__", JStr(c.dnsText(d)))])
      else JStr(c.dnsText(d))
    case Decimal(s) => JStr(s)
    case Dn(s) => JStr(s)
    case Principal(s) => JStr(s)
    case List(vs) => JArray(JsonEncodeAll(c, ver, vs))
    case Tuple(vs) => JArray(JsonEncodeAll(c, ver, vs))
    case Dict(es) => JObject(JsonEncodeEntries(c, ver, es))
  }

  function JsonEncodeAll(c: Codecs, ver: Version, vs: seq<Value>): seq<Json>
    decreases vs, 0
  {
    if vs == [] then [] else [JsonEncode(c, ver, vs[0])] + JsonEncodeAll(c, ver, vs[1..])
  }

  function JsonEncodeEntries(c: Codecs, ver: Version, es: seq<Entry>): seq<Member>
    decreases es, 0
  {
    if es == [] then []
    else [Member(es[0].key, JsonEncode(c, ver, es[0].value))] + JsonEncodeEntries(c, ver, es[1..])
  }

  function Get(es: seq<Entry>, key: string): Value
    requires HasKey(es, key)
  {
    if es[0].key == key then es[0].value else Get(es[1..], key)
  }

  function TupleValue(v: Value): Value { if v.List? then Tuple(v.items) else v }

  function TupleValues(es: seq<Entry>): seq<Entry> {
    if es == [] then [] else [Entry(es[0].key, TupleValue(es[0].value))] + TupleValues(es[1..])
  }

  function Parsed<T>(v: Value, parse: string -> Option<T>): Option<T> {
    if v.Str? then parse(v.s) else None
  }

  /** `_ipa_obj_hook`; `None` stands for an exception. */
  function Hook(c: Codecs, es: seq<Entry>): Option<Value> {
    if HasKey(es, "__base64__") then
      match Parsed(Get(es, "__base64__"), c.unb64)
      case Some(b) => Some(Binary(b))
      case None => None
    else if HasKey(es, "__datetime__") then
      match Parsed(Get(es, "__datetime__"), c.parseLdapTime)
      case Some(t) => Some(Moment(t))
      case None => None
    else if HasKey(es, "__dns_name__") then
      match Parsed(Get(es, "__dns_name__"), c.parseDns)
      case Some(d) => Some(DnsName(d))
      case None => None
    else Some(Dict(TupleValues(es)))
  }

  /** `json.loads` with the hook, which sees a dict after its members. */
  function JsonDecode(c: Codecs, j: Json): Option<Value>
    decreases j, 1
  {
    match j
    case JNull => Some(NoneValue)
    case JBool(b) => Some(Bool(b))
    case JInt(n) => Some(Int(n))
    case JFloat(r) => Some(Float(r))
    case JStr(s) => Some(Str(s))
    case JArray(js) =>
      (match JsonDecodeAll(c, js)
       case None => None
       case Some(vs) => Some(List(vs)))
    case JObject(ms) =>
      match JsonDecodeMembers(c, ms)
      case None => None
      case Some(es) => Hook(c, es)
  }

  function JsonDecodeAll(c: Codecs, js: seq<Json>): Option<seq<Value>>
    decreases js, 0
  {
    if js == [] then Some([])
    else
      match (JsonDecode(c, js[0]), JsonDecodeAll(c, js[1..]))
      case (Some(v), Some(vs)) => Some([v] + vs)
      case _ => None
  }

  function JsonDecodeMembers(c: Codecs, ms: seq<Member>): Option<seq<Entry>>
    decreases ms, 0
  {
    if ms == [] then Some([])
    else
      match (JsonDecode(c, ms[0].value), JsonDecodeMembers(c, ms[1..]))
      case (Some(v), Some(es)) => Some([Entry(ms[0].key, v)] + es)
      case _ => None
  }

  function JsonTrip(c: Codecs, ver: Version, v: Value): Option<Value> {
    JsonDecode(c, JsonEncode(c, ver, v))
  }

  /** The primer: capabilities are looked up once, sequences and dicts are encoded in loops. */
  class JsonPrimer {
    const codecs: Codecs
    const version: Version
    var capDatetime: Option<bool>
    var capDnsname: Option<bool>

    constructor (codecs: Codecs, version: Version)
      ensures Valid() && this.codecs == codecs && this.version == version
    {
      this.codecs, this.version := codecs, version;
      capDatetime, capDnsname := None, None;
    }

    ghost predicate Valid()
      reads this
    {
      && (capDatetime.Some? ==> capDatetime.value == AtLeast(version, DATETIME_VALUES))
      && (capDnsname.Some? ==> capDnsname.value == AtLeast(version, DNS_NAME_VALUES))
    }

    method EncDatetime(t: int) returns (j: Json)
      requires Valid()
      modifies this
      ensures Valid() && j == JsonEncode(codecs, version, Moment(t))
    {
      var cap := capDatetime;
      if cap.None? {
        cap := Some(AtLeast(version, DATETIME_VALUES));
        capDatetime := cap;
      }
      j := if cap.value then JObject([Member("__datetime__", JStr(codecs.ldapTime(t)))]) else JStr(codecs.ldapTime(t));
    }

    method EncDnsname(d: int) returns (j: Json)
      requires Valid()
      modifies this
      ensures Valid() && j == JsonEncode(codecs, version, DnsName(d))
    {
      var cap := capDnsname;
      if cap.None? {
        cap := Some(AtLeast(version, DNS_NAME_VALUES));
        capDnsname := cap;
      }
      j := if cap.value then JObject([Member("__dns_name__", JStr(codecs.dnsText(d)))]) else JStr(codecs.dnsText(d));
    }

    method EncList(vs: seq<Value>) returns (js: seq<Json>)
      requires Valid()
      modifies this
      ensures Valid() && js == JsonEncodeAll(codecs, version, vs)
      decreases vs, 0
    {
      js := [];
      var i := 0;
      while i < |vs|
        invariant 0 <= i <= |vs| && Valid()
        invariant js + JsonEncodeAll(codecs, version, vs[i..]) == JsonEncodeAll(codecs, version, vs)
      {
        var j := Convert(vs[i]);
        assert vs[i..][1..] == vs[i + 1..];
        js := js + [j];
        i := i + 1;
      }
    }

    method EncDict(es: seq<Entry>) returns (ms: seq<Member>)
      requires Valid()
      modifies this
      ensures Valid() && ms == JsonEncodeEntries(codecs, version, es)
      decreases es, 0
    {
      ms := [];
      var i := 0;
      while i < |es|
        invariant 0 <= i <= |es| && Valid()
        invariant ms + JsonEncodeEntries(codecs, version, es[i..]) == JsonEncodeEntries(codecs, version, es)
      {
        var j := Convert(es[i].value);
        assert es[i..][1..] == es[i + 1..];
        ms := ms + [Member(es[i].key, j)];
        i := i + 1;
      }
    }

    method Convert(v: Value) returns (j: Json)
      requires Valid()
      modifies this
      ensures Valid() && j == JsonEncode(codecs, version, v)
      decreases v, 1
    {
      match v
      case NoneValue => j := JNull;
      case Bool(b) => j := JBool(b);
      case Int(n) => j := JInt(n);
      case Float(r) => j := JFloat(r);
      case Str(s) => j := JStr(s);
      case Binary(b) => j := JObject([Member("__base64__", JStr(codecs.b64(b)))]);
      case Moment(t) => j := EncDatetime(t);
      case DnsName(d) => j := EncDnsname(d);
      case Decimal(s) => j := JStr(s);
      case Dn(s) => j := JStr(s);
      case Principal(s) => j := JStr(s);
      case List(vs) =>
        var js := EncList(vs);
        j := JArray(js);
      case Tuple(vs) =>
        var js := EncList(vs);
        j := JArray(js);
      case Dict(es) =>
        var ms := EncDict(es);
        j := JObject(ms);
    }
  }

  // ---------- XML-RPC ----------

  datatype Xml =
    | XNone
    | XBool(b: bool)
    | XInt(n: int)
    | XFloat(r: real)
    | XStr(s: string)
    | XBinary(bytes: Bytes)
    | XDateTime(text: string)
    | XTuple(items: seq<Xml>)
    | XStruct(members: seq<XMember>)

  datatype XMember = XMember(key: string, value: Xml)

  function XmlWrap(c: Codecs, ver: Version, v: Value): Xml
    decreases v, 1
  {
    match v
    case NoneValue => XNone
    case Bool(b) => XBool(b)
    case Int(n) => if n < MININT || n > MAXINT then XStr(c.intText(n)) else XInt(n)
    case Float(r) => XFloat(r)
    case Str(s) => XStr(s)
    case Binary(b) => XBinary(b)
    case Moment(t) =>
      if AtLeast(ver, DATETIME_VALUES) then XDateTime(c.xmlTime(t)) else XStr(c.ldapTime(t))
    case DnsName(d) =>
      if AtLeast(ver, DNS_NAME_VALUES) then XStruct([XMember("__dns_name__", XStr(c.dnsText(d)))])
      else XStr(c.dnsText(d))
    case Decimal(s) => XStr(s)
    case Dn(s) => XStr(s)
    case Principal(s) => XStr(s)
    case List(vs) => XTuple(XmlWrapAll(c, ver, vs))
    case Tuple(vs) => XTuple(XmlWrapAll(c, ver, vs))
    case Dict(es) => XStruct(XmlWrapEntries(c, ver, es))
  }

  function XmlWrapAll(c: Codecs, ver: Version, vs: seq<Value>): seq<Xml>
    decreases vs, 0
  {
    if vs == [] then [] else [XmlWrap(c, ver, vs[0])] + XmlWrapAll(c, ver, vs[1..])
  }

  function XmlWrapEntries(c: Codecs, ver: Version, es: seq<Entry>): seq<XMember>
    decreases es, 0
  {
    if es == [] then []
    else [XMember(es[0].key, XmlWrap(c, ver, es[0].value))] + XmlWrapEntries(c, ver, es[1..])
  }

  predicate XHasKey(ms: seq<XMember>, key: string) {
    exists i :: 0 <= i < |ms| && ms[i].key == key
  }

  function XGet(ms: seq<XMember>, key: string): Xml
    requires XHasKey(ms, key)
  {
    if ms[0].key == key then ms[0].value else XGet(ms[1..], key)
  }

  function XmlUnwrap(c: Codecs, x: Xml): Option<Value>
    decreases x, 1
  {
    match x
    case XNone => Some(NoneValue)
    case XBool(b) => Some(Bool(b))
    case XInt(n) => Some(Int(n))
    case XFloat(r) => Some(Float(r))
    case XStr(s) => Some(Str(s))
    case XBinary(b) => Some(Binary(b))
    case XDateTime(s) =>
      (match c.parseXmlTime(s)
       case None => None
       case Some(t) => Some(Moment(t)))
    case XTuple(xs) =>
      (match XmlUnwrapAll(c, xs)
       case None => None
       case Some(vs) => Some(Tuple(vs)))
    case XStruct(ms) =>
      if XHasKey(ms, "__dns_name__") then
        var name := XGet(ms, "__dns_name__");
        if !name.XStr? then None
        else
          match c.parseDns(name.s)
          case None => None
          case Some(d) => Some(DnsName(d))
      else
        match XmlUnwrapMembers(c, ms)
        case None => None
        case Some(es) => Some(Dict(es))
  }

  function XmlUnwrapAll(c: Codecs, xs: seq<Xml>): Option<seq<Value>>
    decreases xs, 0
  {
    if xs == [] then Some([])
    else
      match (XmlUnwrap(c, xs[0]), XmlUnwrapAll(c, xs[1..]))
      case (Some(v), Some(vs)) => Some([v] + vs)
      case _ => None
  }

  function XmlUnwrapMembers(c: Codecs, ms: seq<XMember>): Option<seq<Entry>>
    decreases ms, 0
  {
    if ms == [] then Some([])
    else
      match (XmlUnwrap(c, ms[0].value), XmlUnwrapMembers(c, ms[1..]))
      case (Some(v), Some(es)) => Some([Entry(ms[0].key, v)] + es)
      case _ => None
  }

  function XmlTrip(c: Codecs, ver: Version, v: Value): Option<Value> {
    XmlUnwrap(c, XmlWrap(c, ver, v))
  }

  // ---------- what a trip should deliver ----------

  /** The value as the other side should see it, every sequence a tuple. */
  function Delivered(c: Codecs, ver: Version, v: Value): Value
    decreases v, 1
  {
    match v
    case Moment(t) => if AtLeast(ver, DATETIME_VALUES) then v else Str(c.ldapTime(t))
    case DnsName(d) => if AtLeast(ver, DNS_NAME_VALUES) then v else Str(c.dnsText(d))
    case Decimal(s) => Str(s)
    case Dn(s) => Str(s)
    case Principal(s) => Str(s)
    case List(vs) => Tuple(DeliveredAll(c, ver, vs))
    case Tuple(vs) => Tuple(DeliveredAll(c, ver, vs))
    case Dict(es) => Dict(DeliveredEntries(c, ver, es))
    case _ => v
  }

  function DeliveredAll(c: Codecs, ver: Version, vs: seq<Value>): seq<Value>
    decreases vs, 0
  {
    if vs == [] then [] else [Delivered(c, ver, vs[0])] + DeliveredAll(c, ver, vs[1..])
  }

  function DeliveredEntries(c: Codecs, ver: Version, es: seq<Entry>): seq<Entry>
    decreases es, 0
  {
    if es == [] then []
    else [Entry(es[0].key, Delivered(c, ver, es[0].value))] + DeliveredEntries(c, ver, es[1..])
  }

  /** Every list turned into a tuple. */
  function Tupled(v: Value): Value
    decreases v, 1
  {
    match v
    case List(vs) => Tuple(TupledAll(vs))
    case Tuple(vs) => Tuple(TupledAll(vs))
    case Dict(es) => Dict(TupledEntries(es))
    case _ => v
  }

  function TupledAll(vs: seq<Value>): seq<Value>
    decreases vs, 0
  {
    if vs == [] then [] else [Tupled(vs[0])] + TupledAll(vs[1..])
  }

  function TupledEntries(es: seq<Entry>): seq<Entry>
    decreases es, 0
  {
    if es == [] then [] else [Entry(es[0].key, Tupled(es[0].value))] + TupledEntries(es[1..])
  }

  predicate HasMarker(es: seq<Entry>) {
    HasKey(es, "__base64__") || HasKey(es, "__datetime__") || HasKey(es, "__dns_name__")
  }

  /** No dict at any depth has a key that the JSON hook takes for a marker. */
  predicate MarkerFree(v: Value)
    decreases v, 1
  {
    match v
    case List(vs) => MarkerFreeAll(vs)
    case Tuple(vs) => MarkerFreeAll(vs)
    case Dict(es) => !HasMarker(es) && MarkerFreeEntries(es)
    case _ => true
  }

  predicate MarkerFreeAll(vs: seq<Value>)
    decreases vs, 0
  {
    vs != [] ==> MarkerFree(vs[0]) && MarkerFreeAll(vs[1..])
  }

  predicate MarkerFreeEntries(es: seq<Entry>)
    decreases es, 0
  {
    es != [] ==> MarkerFree(es[0].value) && MarkerFreeEntries(es[1..])
  }

  /** 32-bit integers, and no dict that `xml_unwrap` takes for a DNS name. */
  predicate XmlClean(v: Value)
    decreases v, 1
  {
    match v
    case Int(n) => MININT <= n <= MAXINT
    case List(vs) => XmlCleanAll(vs)
    case Tuple(vs) => XmlCleanAll(vs)
    case Dict(es) => !HasKey(es, "__dns_name__") && XmlCleanEntries(es)
    case _ => true
  }

  predicate XmlCleanAll(vs: seq<Value>)
    decreases vs, 0
  {
    vs != [] ==> XmlClean(vs[0]) && XmlCleanAll(vs[1..])
  }

  predicate XmlCleanEntries(es: seq<Entry>)
    decreases es, 0
  {
    es != [] ==> XmlClean(es[0].value) && XmlCleanEntries(es[1..])
  }

  // ---------- JSON delivers exactly the marker-free values ----------

  ghost predicate JsonFaithful(c: Codecs, ver: Version, v: Value) {
    JsonTrip(c, ver, v).Some? && Tupled(JsonTrip(c, ver, v).value) == Delivered(c, ver, v)
  }

  lemma {:induction false} MarkedObject(c: Codecs, key: string, text: string)
    ensures JsonDecode(c, JObject([Member(key, JStr(text))])) == Hook(c, [Entry(key, Str(text))])
    ensures HasKey([Entry(key, Str(text))], key) && Get([Entry(key, Str(text))], key) == Str(text)
    ensures forall other :: HasKey([Entry(key, Str(text))], other) ==> other == key
  {
    var ms := [Member(key, JStr(text))];
    var es := [Entry(key, Str(text))];
    assert ms[1..] == [] && es + [] == es;
    assert JsonDecodeMembers(c, ms) == Some(es);
    assert es[0].key == key;
  }

  /** The leaves: what a value without parts becomes. */
  lemma {:induction false} JsonLeaf(c: Codecs, ver: Version, v: Value)
    requires Lossless(c) && !v.List? && !v.Tuple? && !v.Dict?
    ensures JsonTrip(c, ver, v) == Some(Delivered(c, ver, v))
  {
    match v
    case Binary(b) => MarkedObject(c, "__base64__", c.b64(b));
    case Moment(t) => MarkedObject(c, "__datetime__", c.ldapTime(t));
    case DnsName(d) => MarkedObject(c, "__dns_name__", c.dnsText(d));
    case _ =>
  }

  lemma {:induction false} ConsEqual<T>(x: T, xs: seq<T>, y: T, ys: seq<T>)
    ensures [x] + xs == [y] + ys <==> x == y && xs == ys
  {
    if [x] + xs == [y] + ys {
      assert ([x] + xs)[0] == ([y] + ys)[0];
      assert ([x] + xs)[1..] == xs && ([y] + ys)[1..] == ys;
    }
  }

  lemma {:induction false} JsonKeys(c: Codecs, ver: Version, es: seq<Entry>)
    ensures var r := JsonDecodeMembers(c, JsonEncodeEntries(c, ver, es));
      r.Some? ==> |r.value| == |es| && forall i :: 0 <= i < |es| ==> r.value[i].key == es[i].key
  {
    if es != [] {
      var ms := JsonEncodeEntries(c, ver, es);
      assert ms[1..] == JsonEncodeEntries(c, ver, es[1..]);
      JsonKeys(c, ver, es[1..]);
    }
  }

  lemma {:induction false} SameKeys(a: seq<Entry>, b: seq<Entry>, key: string)
    requires |a| == |b| && forall i :: 0 <= i < |a| ==> a[i].key == b[i].key
    ensures HasKey(a, key) <==> HasKey(b, key)
  {
    if HasKey(a, key) {
      var i :| 0 <= i < |a| && a[i].key == key;
      assert b[i].key == key;
    }
    if HasKey(b, key) {
      var i :| 0 <= i < |b| && b[i].key == key;
      assert a[i].key == key;
    }
  }

  lemma {:induction false} TupledTwice(es: seq<Entry>)
    ensures TupledEntries(TupleValues(es)) == TupledEntries(es)
  {
    if es != [] {
      var ts := TupleValues(es);
      assert ts[1..] == TupleValues(es[1..]);
      TupledTwice(es[1..]);
    }
  }

  lemma {:induction false} JsonFaithfulIff(c: Codecs, ver: Version, v: Value)
    requires Lossless(c)
    ensures JsonFaithful(c, ver, v) <==> MarkerFree(v)
    decreases v, 1
  {
    if v.List? || v.Tuple? {
      JsonFaithfulAllIff(c, ver, v.items);
      JsonSequenceTrip(c, ver, v);
    } else if v.Dict? {
      JsonFaithfulEntriesIff(c, ver, v.entries);
      JsonDictFaithful(c, ver, v.entries);
    } else {
      JsonLeafFaithful(c, ver, v);
    }
  }

  lemma {:induction false} JsonLeafFaithful(c: Codecs, ver: Version, v: Value)
    requires Lossless(c) && !v.List? && !v.Tuple? && !v.Dict?
    ensures JsonFaithful(c, ver, v) && MarkerFree(v)
  {
    JsonLeaf(c, ver, v);
  }

  lemma {:induction false} JsonSequenceTrip(c: Codecs, ver: Version, v: Value)
    requires v.List? || v.Tuple?
    ensures var r := JsonDecodeAll(c, JsonEncodeAll(c, ver, v.items));
      JsonFaithful(c, ver, v) <==> r.Some? && TupledAll(r.value) == DeliveredAll(c, ver, v.items)
  {
  }

  lemma {:induction false} JsonDictFaithful(c: Codecs, ver: Version, es: seq<Entry>)
    ensures var r := JsonDecodeMembers(c, JsonEncodeEntries(c, ver, es));
      JsonFaithful(c, ver, Dict(es)) <==>
        !HasMarker(es) && r.Some? && TupledEntries(r.value) == DeliveredEntries(c, ver, es)
  {
    JsonDictTrip(c, ver, es);
  }

  /** A dict comes back as a dict exactly when it has no marker. */
  lemma {:induction false} JsonDictTrip(c: Codecs, ver: Version, es: seq<Entry>)
    ensures var r := JsonDecodeMembers(c, JsonEncodeEntries(c, ver, es));
      && (r.None? ==> JsonTrip(c, ver, Dict(es)).None?)
      && (r.Some? && !HasMarker(es) ==> JsonTrip(c, ver, Dict(es)) == Some(Dict(TupleValues(r.value))))
      && (r.Some? && HasMarker(es) && JsonTrip(c, ver, Dict(es)).Some? ==> !JsonTrip(c, ver, Dict(es)).value.Dict?)
      && (r.Some? ==> TupledEntries(TupleValues(r.value)) == TupledEntries(r.value))
  {
    var r := JsonDecodeMembers(c, JsonEncodeEntries(c, ver, es));
    if r.Some? {
      JsonKeys(c, ver, es);
      SameKeys(r.value, es, "__base64__");
      SameKeys(r.value, es, "__datetime__");
      SameKeys(r.value, es, "__dns_name__");
      TupledTwice(r.value);
    }
  }

  lemma {:induction false} JsonFaithfulAllIff(c: Codecs, ver: Version, vs: seq<Value>)
    requires Lossless(c)
    ensures var r := JsonDecodeAll(c, JsonEncodeAll(c, ver, vs));
      r.Some? && TupledAll(r.value) == DeliveredAll(c, ver, vs) <==> MarkerFreeAll(vs)
    decreases vs, 0
  {
    if vs != [] {
      JsonFaithfulIff(c, ver, vs[0]);
      JsonFaithfulAllIff(c, ver, vs[1..]);
      var js := JsonEncodeAll(c, ver, vs);
      assert js[1..] == JsonEncodeAll(c, ver, vs[1..]);
      var first, rest := JsonDecode(c, js[0]), JsonDecodeAll(c, js[1..]);
      if first.Some? && rest.Some? {
        assert ([first.value] + rest.value)[1..] == rest.value;
        ConsEqual(Tupled(first.value), TupledAll(rest.value), Delivered(c, ver, vs[0]), DeliveredAll(c, ver, vs[1..]));
      }
    }
  }

  lemma {:induction false} JsonFaithfulEntriesIff(c: Codecs, ver: Version, es: seq<Entry>)
    requires Lossless(c)
    ensures var r := JsonDecodeMembers(c, JsonEncodeEntries(c, ver, es));
      r.Some? && TupledEntries(r.value) == DeliveredEntries(c, ver, es) <==> MarkerFreeEntries(es)
    decreases es, 0
  {
    if es != [] {
      JsonFaithfulIff(c, ver, es[0].value);
      JsonFaithfulEntriesIff(c, ver, es[1..]);
      var ms := JsonEncodeEntries(c, ver, es);
      assert ms[1..] == JsonEncodeEntries(c, ver, es[1..]);
      var first, rest := JsonDecode(c, ms[0].value), JsonDecodeMembers(c, ms[1..]);
      if first.Some? && rest.Some? {
        var entry := Entry(es[0].key, first.value);
        assert ([entry] + rest.value)[1..] == rest.value;
        ConsEqual(Entry(es[0].key, Tupled(first.value)), TupledEntries(rest.value),
                  Entry(es[0].key, Delivered(c, ver, es[0].value)), DeliveredEntries(c, ver, es[1..]));
      }
    }
  }

  // ---------- XML-RPC delivers exactly the clean values ----------

  ghost predicate XmlFaithful(c: Codecs, ver: Version, v: Value) {
    XmlTrip(c, ver, v) == Some(Delivered(c, ver, v))
  }

  lemma {:induction false} XmlKeys(c: Codecs, ver: Version, es: seq<Entry>)
    ensures var ms := XmlWrapEntries(c, ver, es);
      |ms| == |es| && forall i :: 0 <= i < |es| ==> ms[i].key == es[i].key
  {
    if es != [] {
      XmlKeys(c, ver, es[1..]);
    }
  }

  lemma {:induction false} XmlMarkedStruct(c: Codecs, ver: Version, d: int)
    requires Lossless(c)
    ensures XmlUnwrap(c, XStruct([XMember("__dns_name__", XStr(c.dnsText(d)))])) == Some(DnsName(d))
  {
    var ms := [XMember("__dns_name__", XStr(c.dnsText(d)))];
    assert ms[0].key == "__dns_name__";
    assert XHasKey(ms, "__dns_name__");
  }

  lemma {:induction false} XmlDictTrip(c: Codecs, ver: Version, es: seq<Entry>)
    ensures var r := XmlUnwrapMembers(c, XmlWrapEntries(c, ver, es));
      && (HasKey(es, "__dns_name__") && XmlTrip(c, ver, Dict(es)).Some? ==> !XmlTrip(c, ver, Dict(es)).value.Dict?)
      && (!HasKey(es, "__dns_name__") ==>
        XmlTrip(c, ver, Dict(es)) == if r.Some? then Some(Dict(r.value)) else None)
  {
    var ms := XmlWrapEntries(c, ver, es);
    XmlKeys(c, ver, es);
    if HasKey(es, "__dns_name__") {
      var i :| 0 <= i < |es| && es[i].key == "__dns_name__";
      assert ms[i].key == "__dns_name__";
      assert XHasKey(ms, "__dns_name__");
    } else {
      forall i | 0 <= i < |ms|
        ensures ms[i].key != "__dns_name__"
      {
        assert es[i].key != "__dns_name__";
      }
    }
  }

  lemma {:induction false} XmlFaithfulIff(c: Codecs, ver: Version, v: Value)
    requires Lossless(c)
    ensures XmlFaithful(c, ver, v) <==> XmlClean(v)
    decreases v, 1
  {
    match v
    case List(vs) => XmlFaithfulAllIff(c, ver, vs);
    case Tuple(vs) => XmlFaithfulAllIff(c, ver, vs);
    case Dict(es) =>
      XmlFaithfulEntriesIff(c, ver, es);
      XmlDictTrip(c, ver, es);
    case DnsName(d) =>
      XmlMarkedStruct(c, ver, d);
    case _ =>
  }

  lemma {:induction false} XmlFaithfulAllIff(c: Codecs, ver: Version, vs: seq<Value>)
    requires Lossless(c)
    ensures XmlUnwrapAll(c, XmlWrapAll(c, ver, vs)) == Some(DeliveredAll(c, ver, vs)) <==> XmlCleanAll(vs)
    decreases vs, 0
  {
    if vs != [] {
      XmlFaithfulIff(c, ver, vs[0]);
      XmlFaithfulAllIff(c, ver, vs[1..]);
      var xs := XmlWrapAll(c, ver, vs);
      assert xs[1..] == XmlWrapAll(c, ver, vs[1..]);
      var first, rest := XmlUnwrap(c, xs[0]), XmlUnwrapAll(c, xs[1..]);
      if first.Some? && rest.Some? {
        ConsEqual(first.value, rest.value, Delivered(c, ver, vs[0]), DeliveredAll(c, ver, vs[1..]));
      }
    }
  }

  lemma {:induction false} XmlFaithfulEntriesIff(c: Codecs, ver: Version, es: seq<Entry>)
    requires Lossless(c)
    ensures XmlUnwrapMembers(c, XmlWrapEntries(c, ver, es)) == Some(DeliveredEntries(c, ver, es)) <==> XmlCleanEntries(es)
    decreases es, 0
  {
    if es != [] {
      XmlFaithfulIff(c, ver, es[0].value);
      XmlFaithfulEntriesIff(c, ver, es[1..]);
      var ms := XmlWrapEntries(c, ver, es);
      assert ms[1..] == XmlWrapEntries(c, ver, es[1..]);
      var first, rest := XmlUnwrap(c, ms[0].value), XmlUnwrapMembers(c, ms[1..]);
      if first.Some? && rest.Some? {
        ConsEqual(Entry(es[0].key, first.value), rest.value,
                  Entry(es[0].key, Delivered(c, ver, es[0].value)), DeliveredEntries(c, ver, es[1..]));
      }
    }
  }

  // ---------- agreement, and a second trip ----------

  /** The two transports deliver the same value, up to lists being tuples. */
  lemma {:induction false} TransportsAgree(c: Codecs, ver: Version, v: Value)
    requires Lossless(c) && MarkerFree(v) && XmlClean(v)
    ensures JsonTrip(c, ver, v).Some? && XmlTrip(c, ver, v) == Some(Tupled(JsonTrip(c, ver, v).value))
  {
    JsonFaithfulIff(c, ver, v);
    XmlFaithfulIff(c, ver, v);
  }

  /** Both transports send the value as a text, and as the name of the same host. */
  predicate SameName(c: Codecs, ver: Version, v: Value) {
    var j, x := JsonEncode(c, ver, v), XmlWrap(c, ver, v);
    j.JStr? && x.XStr? && c.parseDns(j.s).Some? && c.parseDns(x.s) == c.parseDns(j.s)
  }

  /**
   What both transports take for the same: no integer that XML sends as a text, no dict that JSON alone takes for bytes or
   a time, and where a dict passes for a DNS name, the same name in both, with entries that JSON can read.
   */
  predicate SameToBoth(c: Codecs, ver: Version, v: Value)
    decreases v, 1
  {
    match v
    case Int(n) => MININT <= n <= MAXINT
    case List(vs) => SameToBothAll(c, ver, vs)
    case Tuple(vs) => SameToBothAll(c, ver, vs)
    case Dict(es) =>
      if HasKey(es, "__base64__") || HasKey(es, "__datetime__") then false
      else if HasKey(es, "__dns_name__") then
        SameName(c, ver, Get(es, "__dns_name__")) && JsonDecodeMembers(c, JsonEncodeEntries(c, ver, es)).Some?
      else SameToBothEntries(c, ver, es)
    case _ => true
  }

  predicate SameToBothAll(c: Codecs, ver: Version, vs: seq<Value>)
    decreases vs, 0
  {
    vs == [] || (SameToBoth(c, ver, vs[0]) && SameToBothAll(c, ver, vs[1..]))
  }

  predicate SameToBothEntries(c: Codecs, ver: Version, es: seq<Entry>)
    decreases es, 0
  {
    es == [] || (SameToBoth(c, ver, es[0].value) && SameToBothEntries(c, ver, es[1..]))
  }

  ghost predicate Agree(c: Codecs, ver: Version, v: Value) {
    JsonTrip(c, ver, v).Some? && XmlTrip(c, ver, v) == Some(Tupled(JsonTrip(c, ver, v).value))
  }

  lemma {:induction false} DecodedName(c: Codecs, ver: Version, es: seq<Entry>, key: string)
    requires HasKey(es, key) && JsonDecodeMembers(c, JsonEncodeEntries(c, ver, es)).Some?
    ensures var r := JsonDecodeMembers(c, JsonEncodeEntries(c, ver, es)).value;
      HasKey(r, key) && JsonTrip(c, ver, Get(es, key)) == Some(Get(r, key))
  {
    var ms := JsonEncodeEntries(c, ver, es);
    assert ms[1..] == JsonEncodeEntries(c, ver, es[1..]);
    var r := JsonDecodeMembers(c, ms).value;
    JsonKeys(c, ver, es);
    SameKeys(r, es, key);
    if es[0].key != key {
      var i :| 0 <= i < |es| && es[i].key == key;
      assert es[1..][i - 1].key == key;
      DecodedName(c, ver, es[1..], key);
      assert r[1..] == JsonDecodeMembers(c, ms[1..]).value;
    }
  }

  lemma {:induction false} WrappedName(c: Codecs, ver: Version, es: seq<Entry>, key: string)
    requires HasKey(es, key)
    ensures XHasKey(XmlWrapEntries(c, ver, es), key) && XGet(XmlWrapEntries(c, ver, es), key) == XmlWrap(c, ver, Get(es, key))
  {
    var ms := XmlWrapEntries(c, ver, es);
    var i :| 0 <= i < |es| && es[i].key == key;
    XmlKeys(c, ver, es);
    assert ms[i].key == key;
    if es[0].key != key {
      assert es[1..][i - 1].key == key;
      WrappedName(c, ver, es[1..], key);
      assert ms[1..] == XmlWrapEntries(c, ver, es[1..]);
    }
  }

  lemma {:induction false} DecodedText(c: Codecs, j: Json, text: string)
    ensures JsonDecode(c, j) == Some(Str(text)) <==> j == JStr(text)
  {
  }

  /** A dict that passes for a DNS name. */
  lemma {:induction false} NamesAgreeIff(c: Codecs, ver: Version, es: seq<Entry>)
    requires HasKey(es, "__dns_name__") && !HasKey(es, "__base64__") && !HasKey(es, "__datetime__")
    ensures Agree(c, ver, Dict(es)) <==> SameToBoth(c, ver, Dict(es))
  {
    var r, v := JsonDecodeMembers(c, JsonEncodeEntries(c, ver, es)), Get(es, "__dns_name__");
    WrappedName(c, ver, es, "__dns_name__");
    if r.Some? {
      JsonKeys(c, ver, es);
      SameKeys(r.value, es, "__base64__");
      SameKeys(r.value, es, "__datetime__");
      DecodedName(c, ver, es, "__dns_name__");
      var decoded := Get(r.value, "__dns_name__");
      if decoded.Str? {
        DecodedText(c, JsonEncode(c, ver, v), decoded.s);
      } else if JsonEncode(c, ver, v).JStr? {
        DecodedText(c, JsonEncode(c, ver, v), JsonEncode(c, ver, v).s);
      }
    }
  }

  /** A dict that JSON takes for bytes or a time: XML never agrees. */
  lemma {:induction false} MarkedNeverAgree(c: Codecs, ver: Version, es: seq<Entry>)
    requires HasKey(es, "__base64__") || HasKey(es, "__datetime__")
    ensures !Agree(c, ver, Dict(es))
  {
    var r := JsonDecodeMembers(c, JsonEncodeEntries(c, ver, es));
    if r.Some? {
      JsonKeys(c, ver, es);
      SameKeys(r.value, es, "__base64__");
      SameKeys(r.value, es, "__datetime__");
      XmlIsDictOrName(c, ver, es);
    }
  }

  lemma {:induction false} XmlIsDictOrName(c: Codecs, ver: Version, es: seq<Entry>)
    ensures var x := XmlTrip(c, ver, Dict(es)); x.Some? ==> x.value.Dict? || x.value.DnsName?
  {
  }

  lemma {:induction false} SequencesAgreeIff(c: Codecs, ver: Version, vs: seq<Value>)
    ensures var r := JsonDecodeAll(c, JsonEncodeAll(c, ver, vs));
      var both := r.Some? && XmlUnwrapAll(c, XmlWrapAll(c, ver, vs)) == Some(TupledAll(r.value));
      (Agree(c, ver, List(vs)) <==> both) && (Agree(c, ver, Tuple(vs)) <==> both)
  {
  }

  lemma {:induction false} PlainDictsAgreeIff(c: Codecs, ver: Version, es: seq<Entry>)
    requires !HasMarker(es)
    ensures var r := JsonDecodeMembers(c, JsonEncodeEntries(c, ver, es));
      Agree(c, ver, Dict(es)) <==> r.Some? && XmlUnwrapMembers(c, XmlWrapEntries(c, ver, es)) == Some(TupledEntries(r.value))
  {
    JsonDictTrip(c, ver, es);
    XmlDictTrip(c, ver, es);
  }

  /** The two transports deliver the same value, up to lists being tuples, exactly for these values. */
  lemma {:induction false} TransportsAgreeIff(c: Codecs, ver: Version, v: Value)
    requires Lossless(c)
    ensures Agree(c, ver, v) <==> SameToBoth(c, ver, v)
    decreases v, 1
  {
    match v
    case List(vs) =>
      AllAgreeIff(c, ver, vs);
      SequencesAgreeIff(c, ver, vs);
    case Tuple(vs) =>
      AllAgreeIff(c, ver, vs);
      SequencesAgreeIff(c, ver, vs);
    case Dict(es) =>
      if HasKey(es, "__base64__") || HasKey(es, "__datetime__") {
        MarkedNeverAgree(c, ver, es);
      } else if HasKey(es, "__dns_name__") {
        NamesAgreeIff(c, ver, es);
      } else {
        EntriesAgreeIff(c, ver, es);
        PlainDictsAgreeIff(c, ver, es);
      }
    case _ => LeafAgreeIff(c, ver, v);
  }

  lemma {:induction false} LeafAgreeIff(c: Codecs, ver: Version, v: Value)
    requires Lossless(c) && !v.List? && !v.Tuple? && !v.Dict?
    ensures Agree(c, ver, v) <==> SameToBoth(c, ver, v)
  {
    JsonLeaf(c, ver, v);
    XmlFaithfulIff(c, ver, v);
  }

  lemma {:induction false} AllAgreeIff(c: Codecs, ver: Version, vs: seq<Value>)
    requires Lossless(c)
    ensures var r := JsonDecodeAll(c, JsonEncodeAll(c, ver, vs));
      r.Some? && XmlUnwrapAll(c, XmlWrapAll(c, ver, vs)) == Some(TupledAll(r.value)) <==> SameToBothAll(c, ver, vs)
    decreases vs, 0
  {
    if vs != [] {
      TransportsAgreeIff(c, ver, vs[0]);
      AllAgreeIff(c, ver, vs[1..]);
      var js, xs := JsonEncodeAll(c, ver, vs), XmlWrapAll(c, ver, vs);
      assert js[1..] == JsonEncodeAll(c, ver, vs[1..]) && xs[1..] == XmlWrapAll(c, ver, vs[1..]);
      var first, rest := JsonDecode(c, js[0]), JsonDecodeAll(c, js[1..]);
      var xfirst, xrest := XmlUnwrap(c, xs[0]), XmlUnwrapAll(c, xs[1..]);
      if first.Some? && rest.Some? && xfirst.Some? && xrest.Some? {
        assert ([first.value] + rest.value)[1..] == rest.value;
        ConsEqual(xfirst.value, xrest.value, Tupled(first.value), TupledAll(rest.value));
      }
    }
  }

  lemma {:induction false} EntriesAgreeIff(c: Codecs, ver: Version, es: seq<Entry>)
    requires Lossless(c)
    ensures var r := JsonDecodeMembers(c, JsonEncodeEntries(c, ver, es));
      r.Some? && XmlUnwrapMembers(c, XmlWrapEntries(c, ver, es)) == Some(TupledEntries(r.value)) <==> SameToBothEntries(c, ver, es)
    decreases es, 0
  {
    if es != [] {
      TransportsAgreeIff(c, ver, es[0].value);
      EntriesAgreeIff(c, ver, es[1..]);
      var js, xs := JsonEncodeEntries(c, ver, es), XmlWrapEntries(c, ver, es);
      assert js[1..] == JsonEncodeEntries(c, ver, es[1..]) && xs[1..] == XmlWrapEntries(c, ver, es[1..]);
      var first, rest := JsonDecode(c, js[0].value), JsonDecodeMembers(c, js[1..]);
      var xfirst, xrest := XmlUnwrap(c, xs[0].value), XmlUnwrapMembers(c, xs[1..]);
      if first.Some? && rest.Some? && xfirst.Some? && xrest.Some? {
        var entry := Entry(es[0].key, first.value);
        assert ([entry] + rest.value)[1..] == rest.value;
        ConsEqual(Entry(es[0].key, xfirst.value), xrest.value, Entry(es[0].key, Tupled(first.value)), TupledEntries(rest.value));
      }
    }
  }

  /** A value that has been through JSON once comes through unchanged from then on. */
  lemma {:induction false} SecondTripIsIdentity(c: Codecs, ver: Version, v: Value)
    requires Lossless(c) && MarkerFree(v)
    ensures JsonTrip(c, ver, v).Some? && JsonTrip(c, ver, JsonTrip(c, ver, v).value) == JsonTrip(c, ver, v)
    decreases v, 1
  {
    JsonFaithfulIff(c, ver, v);
    match v
    case List(vs) => SecondTripAll(c, ver, vs);
    case Tuple(vs) => SecondTripAll(c, ver, vs);
    case Dict(es) =>
      JsonFaithfulEntriesIff(c, ver, es);
      JsonDictTrip(c, ver, es);
      JsonKeys(c, ver, es);
      SecondTripEntries(c, ver, es);
      var once := JsonDecodeMembers(c, JsonEncodeEntries(c, ver, es)).value;
      TupleValuesKeys(once);
      SameKeys(TupleValues(once), es, "__base64__");
      SameKeys(TupleValues(once), es, "__datetime__");
      SameKeys(TupleValues(once), es, "__dns_name__");
      JsonDictTrip(c, ver, TupleValues(once));
      TupleValuesTwice(once);
    case _ =>
      JsonLeaf(c, ver, v);
      JsonLeaf(c, ver, Delivered(c, ver, v));
  }

  lemma {:induction false} SecondTripAll(c: Codecs, ver: Version, vs: seq<Value>)
    requires Lossless(c) && MarkerFreeAll(vs)
    ensures var r := JsonDecodeAll(c, JsonEncodeAll(c, ver, vs));
      r.Some? && JsonDecodeAll(c, JsonEncodeAll(c, ver, r.value)) == r
    decreases vs, 0
  {
    if vs != [] {
      SecondTripIsIdentity(c, ver, vs[0]);
      SecondTripAll(c, ver, vs[1..]);
      var js := JsonEncodeAll(c, ver, vs);
      assert js[1..] == JsonEncodeAll(c, ver, vs[1..]);
      var first, rest := JsonDecode(c, js[0]).value, JsonDecodeAll(c, js[1..]).value;
      var again := JsonEncodeAll(c, ver, [first] + rest);
      assert ([first] + rest)[1..] == rest;
      assert again[0] == JsonEncode(c, ver, first) && again[1..] == JsonEncodeAll(c, ver, rest);
    }
  }

  lemma {:induction false} TupleValuesKeys(es: seq<Entry>)
    ensures |TupleValues(es)| == |es| && forall i :: 0 <= i < |es| ==> TupleValues(es)[i].key == es[i].key
  {
    if es != [] {
      TupleValuesKeys(es[1..]);
    }
  }

  lemma {:induction false} TupleValuesTwice(es: seq<Entry>)
    ensures TupleValues(TupleValues(es)) == TupleValues(es)
  {
    if es != [] {
      var ts := TupleValues(es);
      assert ts[1..] == TupleValues(es[1..]);
      TupleValuesTwice(es[1..]);
    }
  }

  /** Encoding does not tell a list from a tuple. */
  lemma {:induction false} EncodeTupleValue(c: Codecs, ver: Version, v: Value)
    ensures JsonEncode(c, ver, TupleValue(v)) == JsonEncode(c, ver, v)
  {
  }

  lemma {:induction false} SecondTripEntries(c: Codecs, ver: Version, es: seq<Entry>)
    requires Lossless(c) && MarkerFreeEntries(es)
    ensures var r := JsonDecodeMembers(c, JsonEncodeEntries(c, ver, es));
      r.Some? && JsonDecodeMembers(c, JsonEncodeEntries(c, ver, TupleValues(r.value))) == r
    decreases es, 0
  {
    if es != [] {
      SecondTripIsIdentity(c, ver, es[0].value);
      SecondTripEntries(c, ver, es[1..]);
      var ms := JsonEncodeEntries(c, ver, es);
      assert ms[1..] == JsonEncodeEntries(c, ver, es[1..]);
      var first, rest := JsonDecode(c, ms[0].value).value, JsonDecodeMembers(c, ms[1..]).value;
      var entry := Entry(es[0].key, first);
      assert ([entry] + rest)[1..] == rest;
      var ts := TupleValues([entry] + rest);
      assert ts == [Entry(es[0].key, TupleValue(first))] + TupleValues(rest);
      assert ts[1..] == TupleValues(rest);
      EncodeTupleValue(c, ver, first);
      var again := JsonEncodeEntries(c, ver, ts);
      assert again[1..] == JsonEncodeEntries(c, ver, TupleValues(rest));
    }
  }

  /** A user's dict with a marker key is taken for something else by both transports, or only by JSON. */
  lemma {:induction false} MarkersAreMistaken(c: Codecs, ver: Version)
    requires Lossless(c)
    ensures !JsonFaithful(c, ver, Dict([Entry("__base64__", NoneValue)]))
    ensures XmlFaithful(c, ver, Dict([Entry("__base64__", NoneValue)]))
    ensures !XmlFaithful(c, ver, Dict([Entry("__dns_name__", NoneValue)]))
    ensures !XmlFaithful(c, ver, Int(MAXINT + 1)) && JsonFaithful(c, ver, Int(MAXINT + 1))
  {
    var b, d := [Entry("__base64__", NoneValue)], [Entry("__dns_name__", NoneValue)];
    assert b[0].key == "__base64__" && d[0].key == "__dns_name__";
    assert "__base64__"[2] != "__dns_name__"[2];
    JsonFaithfulIff(c, ver, Dict(b));
    XmlFaithfulIff(c, ver, Dict(b));
    XmlFaithfulIff(c, ver, Dict(d));
    XmlFaithfulIff(c, ver, Int(MAXINT + 1));
    JsonFaithfulIff(c, ver, Int(MAXINT + 1));
    assert XmlCleanEntries(b[1..]);
    assert XmlClean(Dict(b));
  }

  // ---------- what exactly arrives ----------

  /** The value with every integer beyond 32 bits as its text. */
  function Narrowed(c: Codecs, v: Value): Value
    decreases v, 1
  {
    match v
    case Int(n) => if -2147483648 <= n <= 2147483647 then v else Str(c.intText(n))
    case List(vs) => List(NarrowedAll(c, vs))
    case Tuple(vs) => Tuple(NarrowedAll(c, vs))
    case Dict(es) => Dict(NarrowedEntries(c, es))
    case _ => v
  }

  function NarrowedAll(c: Codecs, vs: seq<Value>): seq<Value>
    decreases vs, 0
  {
    if vs == [] then [] else [Narrowed(c, vs[0])] + NarrowedAll(c, vs[1..])
  }

  function NarrowedEntries(c: Codecs, es: seq<Entry>): seq<Entry>
    decreases es, 0
  {
    if es == [] then [] else [Entry(es[0].key, Narrowed(c, es[0].value))] + NarrowedEntries(c, es[1..])
  }

  /** No dict at any depth has the key that `xml_unwrap` takes for a DNS name. */
  predicate NameFree(v: Value)
    decreases v, 1
  {
    match v
    case List(vs) => NameFreeAll(vs)
    case Tuple(vs) => NameFreeAll(vs)
    case Dict(es) => !HasKey(es, "__dns_name__") && NameFreeEntries(es)
    case _ => true
  }

  predicate NameFreeAll(vs: seq<Value>)
    decreases vs, 0
  {
    vs != [] ==> NameFree(vs[0]) && NameFreeAll(vs[1..])
  }

  predicate NameFreeEntries(es: seq<Entry>)
    decreases es, 0
  {
    es != [] ==> NameFree(es[0].value) && NameFreeEntries(es[1..])
  }

  lemma {:induction false} WrapNarrows(c: Codecs, ver: Version, v: Value)
    ensures XmlWrap(c, ver, v) == XmlWrap(c, ver, Narrowed(c, v)) && (NameFree(v) ==> XmlClean(Narrowed(c, v)))
    decreases v, 1
  {
    match v
    case List(vs) => WrapNarrowsAll(c, ver, vs);
    case Tuple(vs) => WrapNarrowsAll(c, ver, vs);
    case Dict(es) =>
      WrapNarrowsEntries(c, ver, es);
      NarrowedKeys(c, es);
      SameKeys(es, NarrowedEntries(c, es), "__dns_name__");
    case _ =>
  }

  lemma {:induction false} WrapNarrowsAll(c: Codecs, ver: Version, vs: seq<Value>)
    ensures XmlWrapAll(c, ver, vs) == XmlWrapAll(c, ver, NarrowedAll(c, vs))
    ensures NameFreeAll(vs) ==> XmlCleanAll(NarrowedAll(c, vs))
    decreases vs, 0
  {
    if vs != [] {
      WrapNarrows(c, ver, vs[0]);
      WrapNarrowsAll(c, ver, vs[1..]);
      assert NarrowedAll(c, vs)[1..] == NarrowedAll(c, vs[1..]);
    }
  }

  lemma {:induction false} WrapNarrowsEntries(c: Codecs, ver: Version, es: seq<Entry>)
    ensures XmlWrapEntries(c, ver, es) == XmlWrapEntries(c, ver, NarrowedEntries(c, es))
    ensures NameFreeEntries(es) ==> XmlCleanEntries(NarrowedEntries(c, es))
    decreases es, 0
  {
    if es != [] {
      WrapNarrows(c, ver, es[0].value);
      WrapNarrowsEntries(c, ver, es[1..]);
      assert NarrowedEntries(c, es)[1..] == NarrowedEntries(c, es[1..]);
    }
  }

  lemma {:induction false} NarrowedKeys(c: Codecs, es: seq<Entry>)
    ensures |NarrowedEntries(c, es)| == |es|
    ensures forall i :: 0 <= i < |es| ==> NarrowedEntries(c, es)[i].key == es[i].key
  {
    if es != [] {
      NarrowedKeys(c, es[1..]);
    }
  }

  /** XML delivers the value it is given with large integers as texts, unless a dict looks like a DNS name. */
  lemma {:induction false} XmlDelivers(c: Codecs, ver: Version, v: Value)
    requires Lossless(c) && NameFree(v)
    ensures XmlTrip(c, ver, v) == Some(Delivered(c, ver, Narrowed(c, v)))
  {
    WrapNarrows(c, ver, v);
    XmlFaithfulIff(c, ver, Narrowed(c, v));
  }

  /** Timestamps arrive as such from version 2.84 on and DNS names from 2.88 on, by both transports; else as texts. */
  lemma {:induction false} ByVersion(c: Codecs, ver: Version, t: int, d: int)
    requires Lossless(c)
    ensures var when := if ver.major > 2 || (ver.major == 2 && ver.minor >= 84) then Moment(t) else Str(c.ldapTime(t));
      JsonTrip(c, ver, Moment(t)) == Some(when) == XmlTrip(c, ver, Moment(t))
    ensures var name := if ver.major > 2 || (ver.major == 2 && ver.minor >= 88) then DnsName(d) else Str(c.dnsText(d));
      JsonTrip(c, ver, DnsName(d)) == Some(name) == XmlTrip(c, ver, DnsName(d))
  {
    JsonFaithfulIff(c, ver, Moment(t));
    XmlFaithfulIff(c, ver, Moment(t));
    JsonFaithfulIff(c, ver, DnsName(d));
    XmlFaithfulIff(c, ver, DnsName(d));
    JsonLeaf(c, ver, Moment(t));
    JsonLeaf(c, ver, DnsName(d));
  }
}
