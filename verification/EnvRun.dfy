/**
 The stages `_bootstrap`, `_finalize_core` and `_finalize` of ipalib/config.py as tables of variables with their
 fallbacks, and the run that carries out a table up to the first error.
 */
module EnvRun {
  import opened Common
  import opened EnvValue

  /** What the process finds around it: paths, the IPA_CONFDIR variable, configuration files and parsed URIs. */
  datatype World = World(
    ipalib: string, sitePackages: string, script: string, bin: string, home: Option<string>, fips: bool,
    inTree: bool, confdirVar: Option<string>, confdirVarOk: bool, cachePath: string,
    files: map<string, Option<seq<(string, string)>>>, jsonUriOf: map<string, string>, netlocOf: map<string, string>)

  /** The world, and the defaults passed to `_finalize_core`, which deriving URIs consults. */
  datatype Around = Around(world: World, defaults: seq<Item>)

  type Vars = map<string, Value>

  /** The variables, the lock, and the error that ended the run, if any. */
  datatype Run = Run(d: Vars, locked: bool, e: Option<Error>)

  const EMPTY := Run(map[], false, None)

  // ---------- setting variables ----------

  /** Why setting a variable fails, if it does. */
  function Verdict(d: Vars, locked: bool, key: string, value: Value): Option<Error> {
    if locked then Some(Locked)
    else if !NameOk(key) then Some(BadName)
    else if key in d then Some(AlreadySet)
    else if value.Object? then Some(BadValue(key))
    else None
  }

  /** `self[key] = value` */
  function Place(r: Run, key: string, value: Value): Run {
    if r.e.Some? then r
    else
      match Verdict(r.d, r.locked, key, value)
      case Some(e) => r.(e := Some(e))
      case None => r.(d := r.d[key := Converted(key, value)])
  }

  /** Set a variable that is still missing. */
  function Propose(r: Run, key: string, value: Value): Run {
    if key in r.d then r else Place(r, key, value)
  }

  /** Propose the first `n` items of a layer. */
  function ProposeAll(r: Run, items: seq<Item>, n: nat): Run
    requires n <= |items|
  {
    if n == 0 then r else Propose(ProposeAll(r, items, n - 1), items[n - 1].0, items[n - 1].1)
  }

  /** Raise an error, if there is one to raise. */
  function StopOn(r: Run, e: Option<Error>): Run {
    if r.e.None? && e.Some? then r.(e := e) else r
  }

  function Get(d: Vars, key: string): Value {
    if key in d then d[key] else Null
  }

  // ---------- fallbacks ----------

  /** The fallbacks of the stages: what is offered for a variable, given the others. */
  datatype Expr =
    | Given(value: Value)
    | IfTree(value: Value)
    | Path(base: string, part: string)
    | ContextPath(base: string, suffix: string)
    | Confdir
    | ContextIs(name: string)
    | LogDir
    | ServerUri(prefix: string, suffix: string)
    | ParsedUri(from: string, json: bool)
    | ForcedServer
    | Realm
    | Domain
    | BaseDn

  /** The path `part` below the variable `base`, or nothing where that variable is missing or null. */
  function Below(d: Vars, base: string, part: string): Value {
    if base in d && d[base].Str? then Str(Join(d[base].text, part)) else Null
  }

  /** Joining fails for a base that is neither null nor a text. */
  predicate Unjoinable(d: Vars, key: string, base: string) {
    key !in d && Get(d, base) != Null && !Get(d, base).Str?
  }

  function BelowContext(d: Vars, base: string, suffix: string): Value {
    Below(d, base, Shown(Get(d, "context")) + suffix)
  }

  /** The configuration directory where none was given: from the environment, the tree, or the system. */
  function ConfdirOf(d: Vars): Value {
    if Get(d, "env_confdir") != Null then Get(d, "env_confdir")
    else if Truthy(Get(d, "in_tree")) then Get(d, "dot_ipa")
    else Str("/etc/ipa")
  }

  predicate LogsAtHome(d: Vars) { Truthy(Get(d, "in_tree")) || !Truthy(Get(d, "in_server")) }

  function LogDirOf(d: Vars): Value {
    if LogsAtHome(d) then Below(d, "dot_ipa", "log") else Str("/var/log/ipa")
  }

  function LookUp(items: seq<Item>, key: string): Value {
    if items == [] then Null else if items[0].0 == key then items[0].1 else LookUp(items[1..], key)
  }

  /** The URI under a name, set or default. */
  function UriOf(a: Around, d: Vars, from: string): Value {
    if from in d then d[from] else LookUp(a.defaults, from)
  }

  function Parsed(w: World, json: bool, uri: string): string {
    var m := if json then w.jsonUriOf else w.netlocOf;
    if uri in m then m[uri] else ""
  }

  predicate IsForced(d: Vars) { "forced_server" in d && "server" !in d }

  /** An installer on a server without configuration gets reserved names. */
  predicate Unconfigured(d: Vars) {
    Truthy(Get(d, "in_server")) && Get(d, "context") == Str("installer") && !Truthy(Get(d, "config_loaded"))
  }

  function LowerCase(s: string): string {
    seq(|s|, i requires 0 <= i < |s| => if 'A' <= s[i] <= 'Z' then (s[i] as int + 32) as char else s[i])
  }

  function DomainOf(realm: Value): Value {
    if realm.Str? then Str(LowerCase(realm.text)) else Null
  }

  /** One `dc` component per label. */
  function DomainDn(domain: string): string {
    if domain == "" then "dc="
    else if domain[|domain| - 1] == '.' then DomainDn(domain[..|domain| - 1]) + ",dc="
    else DomainDn(domain[..|domain| - 1]) + [domain[|domain| - 1]]
  }

  function BaseDnOf(domain: Value): Value {
    if domain.Str? then Dn(DomainDn(domain.text)) else Null
  }

  /** The value offered for `key`, if any. */
  function Eval(a: Around, d: Vars, key: string, expr: Expr): Option<Value> {
    match expr
    case Given(value) => Some(value)
    case IfTree(value) => if Truthy(Get(d, "in_tree")) then Some(value) else None
    case Path(base, part) => Some(Below(d, base, part))
    case ContextPath(base, suffix) => Some(BelowContext(d, base, suffix))
    case Confdir => Some(ConfdirOf(d))
    case ContextIs(name) => Some(Bool(Get(d, "context") == Str(name)))
    case LogDir => Some(LogDirOf(d))
    case ServerUri(prefix, suffix) => if "server" in d then Some(Str(prefix + Shown(d["server"]) + suffix)) else None
    case ParsedUri(from, json) =>
      var uri := UriOf(a, d, from);
      if key !in d && Truthy(uri) && uri.Str? then Some(Str(Parsed(a.world, json, uri.text))) else None
    case ForcedServer => if IsForced(d) then Some(d["forced_server"]) else None
    case Realm => if Unconfigured(d) then Some(Str("UNCONFIGURED.INVALID")) else None
    case Domain => if Unconfigured(d) && "realm" in d then Some(DomainOf(d["realm"])) else None
    case BaseDn => if "domain" in d then Some(BaseDnOf(d["domain"])) else None
  }

  /** Reading a missing variable, or a value of the wrong type, on the way to an offer raises. */
  predicate Faulty(a: Around, d: Vars, key: string, expr: Expr) {
    match expr
    case Path(base, _) => Unjoinable(d, key, base)
    case ContextPath(base, _) => key !in d && ("context" !in d || Unjoinable(d, key, base))
    case ContextIs(_) => key !in d && "context" !in d
    case LogDir => key !in d && ("in_tree" !in d || (LogsAtHome(d) && Unjoinable(d, key, "dot_ipa")))
    case ParsedUri(from, _) => key !in d && Truthy(UriOf(a, d, from)) && !UriOf(a, d, from).Str?
    case Realm => Truthy(Get(d, "in_server")) && "context" !in d
    case Domain => Unconfigured(d) && key !in d && !Get(d, "realm").Str?
    case BaseDn => key !in d && "domain" in d && !d["domain"].Str?
    case _ => false
  }

  // ---------- checks ----------

  datatype Check = ConfdirClash | CertPath | TlsLow | TlsHigh

  /** The place of a version in the list of known ones, or -1. */
  function TlsRank(v: Value): int {
    match v
    case Str("ssl2") => 0
    case Str("ssl3") => 1
    case Str("tls1.0") => 2
    case Str("tls1.1") => 3
    case Str("tls1.2") => 4
    case Str("tls1.3") => 5
    case _ => -1
  }

  predicate UnknownTls(v: Value) { v != Null && TlsRank(v) < 0 }

  /** The IPA_CONFDIR variable against an explicit directory, and the checks on its value. */
  function ConfdirError(w: World, d: Vars): Option<Error> {
    var dir := Get(d, "env_confdir");
    if dir == Null then None
    else if "confdir" in d then Some(EnvironmentError)
    else if !dir.Str? then Some(Crash)
    else if !w.confdirVarOk then Some(EnvironmentError)
    else None
  }

  /** The certificate path must be an absolute path. */
  function CertError(v: Value): Option<Error> {
    if !v.Str? then Some(Crash)
    else if v.text == "" || v.text[0] != '/' then Some(EnvironmentError)
    else None
  }

  function Checked(a: Around, d: Vars, check: Check): Option<Error> {
    match check
    case ConfdirClash => ConfdirError(a.world, d)
    case CertPath => CertError(Get(d, "tls_ca_cert"))
    case TlsLow => if UnknownTls(Get(d, "tls_version_min")) then Some(EnvironmentError) else None
    case TlsHigh =>
      var low, high := Get(d, "tls_version_min"), Get(d, "tls_version_max");
      if UnknownTls(high) || (low != Null && high != Null && TlsRank(high) < TlsRank(low)) then Some(EnvironmentError)
      else None
  }

  // ---------- tables ----------

  /** Set a variable that must not be set yet, ask for one that may be, or check. */
  datatype Instr =
    | Put(key: string, expr: Expr)
    | Ask(key: string, expr: Expr)
    | Test(check: Check)

  function Do(a: Around, instr: Instr, r: Run): Run {
    if r.e.Some? then r
    else
      match instr
      case Test(check) => StopOn(r, Checked(a, r.d, check))
      case Put(key, expr) =>
        (match Eval(a, r.d, key, expr)
         case None => r
         case Some(value) => Place(r, key, value))
      case Ask(key, expr) =>
        if Faulty(a, r.d, key, expr) then r.(e := Some(Crash))
        else
          match Eval(a, r.d, key, expr)
          case None => r
          case Some(value) => Propose(r, key, value)
  }

  /** Carry out the first `n` entries of a table. */
  function Exec(a: Around, table: seq<Instr>, n: nat, r: Run): Run
    requires n <= |table|
  {
    if n == 0 then r else Do(a, table[n - 1], Exec(a, table, n - 1, r))
  }

  function HomeOf(w: World): Value {
    if w.home.Some? then Str(w.home.value) else Null
  }

  function VariableOf(w: World): Value {
    if w.confdirVar.Some? then Str(w.confdirVar.value) else Null
  }

  /** Variables that only the process determines. */
  function RuntimeTable(w: World): seq<Instr> {
    [Put("ipalib", Given(Str(w.ipalib))),
     Put("site_packages", Given(Str(w.sitePackages))),
     Put("script", Given(Str(w.script))),
     Put("bin", Given(Str(w.bin))),
     Put("home", Given(HomeOf(w))),
     Put("fips_mode", Given(Bool(w.fips)))]
  }

  // What `_bootstrap` fills in after the overrides.

  function TreeTable(w: World): seq<Instr> {
    [Ask("in_tree", Given(Bool(w.inTree))),
     Ask("mode", IfTree(Str("developer"))),
     Ask("dot_ipa", Path("home", ".ipa")),
     Ask("context", Given(Str("default")))]
  }

  function ConfdirTable(w: World): seq<Instr> {
    [Put("env_confdir", Given(VariableOf(w))),
     Test(ConfdirClash),
     Ask("confdir", Confdir)]
  }

  const CONFS_TABLE: seq<Instr> :=
    [Ask("conf", ContextPath("confdir", ".conf")),
     Ask("conf_default", Path("confdir", "default.conf")),
     Ask("nss_dir", Path("confdir", "nssdb"))]

  function PathsTable(w: World): seq<Instr> {
    [Ask("cache_dir", Given(Str(Join(w.cachePath, "ipa")))),
     Ask("tls_ca_cert", Path("confdir", "ca.crt")),
     Test(CertPath),
     Ask("plugins_on_demand", ContextIs("cli"))]
  }

  const URI_TABLE: seq<Instr> :=
    [Ask("xmlrpc_uri", ServerUri("https://", "/ipa/xml")),
     Ask("ldap_uri", ServerUri("ldap://", "")),
     Ask("jsonrpc_uri", ParsedUri("xmlrpc_uri", true)),
     Ask("server", ParsedUri("jsonrpc_uri", false))]

  const FORCED_TABLE: seq<Instr> := [Put("server", ForcedServer)]

  // What `_finalize_core` fills in after the files.

  const SERVER_TABLE: seq<Instr> :=
    [Ask("in_server", ContextIs("server")),
     Ask("logdir", LogDir),
     Ask("log", ContextPath("logdir", ".log"))]

  const DOMAIN_TABLE: seq<Instr> :=
    [Ask("realm", Realm),
     Ask("domain", Domain),
     Ask("basedn", BaseDn)]

  const TLS_TABLE: seq<Instr> :=
    [Ask("tls_version_min", Given(Null)),
     Test(TlsLow),
     Ask("tls_version_max", Given(Null)),
     Test(TlsHigh)]

  function ExecAll(a: Around, table: seq<Instr>, r: Run): Run { Exec(a, table, |table|, r) }

  // ---------- stages ----------

  function FillRun(a: Around, r: Run): Run {
    var r1 := ExecAll(a, ConfdirTable(a.world), ExecAll(a, TreeTable(a.world), r));
    ExecAll(a, PathsTable(a.world), ExecAll(a, CONFS_TABLE, r1))
  }

  function BootRun(a: Around, overrides: seq<Item>, r: Run): Run {
    FillRun(a, ProposeAll(ExecAll(a, RuntimeTable(a.world), r), overrides, |overrides|))
  }

  /** The items read from a configuration file are texts. */
  function TextItems(pairs: seq<(string, string)>): seq<Item> {
    seq(|pairs|, i requires 0 <= i < |pairs| => (pairs[i].0, Str(pairs[i].1)))
  }

  /** The items of a file that exists and parses. */
  function FileItems(w: World, file: Value): seq<Item> {
    if file.Str? && file.text in w.files && w.files[file.text].Some? then TextItems(w.files[file.text].value) else []
  }

  function FileRun(w: World, file: Value, r: Run): Run {
    var items := FileItems(w, file);
    var r1 := ProposeAll(StopOn(r, if file.Str? then None else Some(Crash)), items, |items|);
    if items == [] then r1 else Propose(r1, "config_loaded", Bool(true))
  }

  /** A configuration file named by a variable. */
  function NamedFileRun(w: World, key: string, r: Run): Run {
    FileRun(w, Get(r.d, key), StopOn(r, if key in r.d then None else Some(Crash)))
  }

  predicate Dummy(d: Vars) { Get(d, "mode") == Str("dummy") }

  function FilesRun(w: World, r: Run): Run {
    if Dummy(r.d) then r
    else NamedFileRun(w, "conf_default", NamedFileRun(w, "conf", r))
  }

  function ForceRun(a: Around, r: Run): Run {
    if IsForced(r.d) then ExecAll(a, URI_TABLE, ExecAll(a, FORCED_TABLE, r)) else r
  }

  function DerivedRun(a: Around, forced: bool, r: Run): Run {
    var r1 := ExecAll(a, DOMAIN_TABLE, ExecAll(a, SERVER_TABLE, r));
    if forced then r1 else ExecAll(a, URI_TABLE, r1)
  }

  /** Everything before the defaults are merged. */
  function BeforeRun(a: Around, r: Run): Run {
    DerivedRun(a, IsForced(r.d), FilesRun(a.world, ForceRun(a, r)))
  }

  function CoreRun(a: Around, r: Run): Run {
    ExecAll(a, TLS_TABLE, ProposeAll(BeforeRun(a, r), a.defaults, |a.defaults|))
  }

  // ---------- the standard run ----------

  datatype Inputs = Inputs(a: Around, overrides: seq<Item>, lastChance: seq<Item>)

  /** `_bootstrap`, `_finalize_core` and `_finalize` on a new environment, before the lock. */
  function Layers(inp: Inputs): Run {
    var core := CoreRun(inp.a, BootRun(inp.a, inp.overrides, EMPTY));
    ProposeAll(core, inp.lastChance, |inp.lastChance|)
  }

  predicate Bad(e: Option<Error>) { e.Some? && e.value.BadValue? }
}
