/**
 Access control instructions of ipalib/aci.py: an `ACI` object is printed as a Directory Server string and parsed back
 from one.
 */
module Aci {
  import opened Common
  import opened AciText

  datatype Expression = Text(text: string) | List(items: seq<string>)

  datatype Rule = Rule(operator: string, expression: Expression)

  /** The target dictionary in the order in which its keys were added. */
  type Targets = seq<(string, Rule)>

  datatype Bind = Bind(keyword: string, operator: string, expression: string)

  datatype Error =
    | SyntaxError
    | NoClosingQuote
    | StopIteration
    | UnboundLocal

  // ---------- printing ----------

  /** Code point order of two strings. */
  predicate AtMost(a: string, b: string) {
    a == "" || (b != "" && (a[0] < b[0] || (a[0] == b[0] && AtMost(a[1..], b[1..]))))
  }

  function Insert(x: (string, Rule), sorted: Targets): Targets {
    if sorted == [] || AtMost(x.0, sorted[0].0) then [x] + sorted else [sorted[0]] + Insert(x, sorted[1..])
  }

  /** The targets in the order of their keys. */
  function Sorted(t: Targets): Targets {
    if t == [] then [] else Insert(t[0], Sorted(t[1..]))
  }

  function Shown(e: Expression): string {
    match e
    case Text(text) => text
    case List(items) => Join(Unique(items), " || ")
  }

  function Group(key: string, operator: string, shown: string): string {
    "(" + key + " " + operator + " \"" + shown + "\")"
  }

  function TargetText(t: Targets): string {
    if t == [] then "" else Group(t[0].0, t[0].1.operator, Shown(t[0].1.expression)) + TargetText(t[1..])
  }

  const HEAD := "(version 3.0;acl \""

  function BindText(b: Bind): string { b.keyword + " " + b.operator + " \"" + b.expression + "\"" }

  function PermText(action: string, permissions: seq<string>, b: Bind): string {
    action + " (" + Join(permissions, ",") + ") " + BindText(b)
  }

  // ---------- parsing ----------

  function SetTarget(t: Targets, key: string, rule: Rule): Targets {
    if t == [] then [(key, rule)]
    else if t[0].0 == key then [(key, rule)] + t[1..]
    else [t[0]] + SetTarget(t[1..], key, rule)
  }

  function RemoveQuotes(s: string): string {
    var t := if s != "" && s[0] == '"' then s[1..] else s;
    if t != "" && t[|t| - 1] == '"' then t[..|t| - 1] else t
  }

  function RuleOf(key: string, operator: string, value: string): Rule {
    Rule(operator, if key == "targetattr" then List(SplitAttrs(value)) else Text(value))
  }

  predicate IsOperator(s: string) { s == "=" || s == "!=" }

  /** A token where the source insists on one. */
  function Demand(s: string): (r: Result<(string, string), Error>)
    ensures r.Ok? ==> |r.value.1| < |s|
  {
    TokenIsShorter(s);
    match NextToken(s)
    case End => Err(StopIteration)
    case Unclosed => Err(NoClosingQuote)
    case Token(text, rest) => Ok((text, rest))
  }

  /** The operator, which may arrive in two tokens. */
  function Operator(s: string): (r: Result<(string, string), Error>)
    ensures r.Ok? ==> |r.value.1| < |s| && IsOperator(r.value.0)
  {
    match Demand(s)
    case Err(e) => Err(e)
    case Ok((first, rest)) =>
      if IsOperator(first) then Ok((first, rest))
      else
        match Demand(rest)
        case Err(e) => Err(e)
        case Ok((second, rest2)) =>
          if IsOperator(first + second) then Ok((first + second, rest2)) else Err(SyntaxError)
  }

  datatype Parsed = Parsed(key: string, rule: Rule, rest: string)

  /** One target, after its opening parenthesis. */
  function ParseGroup(s: string): (r: Result<Parsed, Error>)
    ensures r.Ok? ==> |r.value.rest| < |s|
  {
    match Demand(s)
    case Err(e) => Err(e)
    case Ok((key, s1)) =>
      match Operator(s1)
      case Err(e) => Err(e)
      case Ok((operator, s2)) =>
        match Demand(s2)
        case Err(e) => Err(e)
        case Ok((value, s3)) =>
          match Demand(s3)
          case Err(e) => Err(e)
          case Ok((end, s4)) =>
            if end != ")" then Err(SyntaxError)
            else Ok(Parsed(Strip(key), RuleOf(Strip(key), operator, RemoveQuotes(Strip(value))), s4))
  }

  /** The targets of a text, added to `t`; `seen` says that there was one already. */
  function ParseTargets(s: string, seen: bool, t: Targets): Result<Targets, Error>
    decreases |s|
  {
    TokenIsShorter(s);
    match NextToken(s)
    case End => Ok(t)
    case Unclosed => Err(NoClosingQuote)
    case Token(text, rest) =>
      if text != "(" then if seen then ParseTargets(rest, true, t) else Err(UnboundLocal)
      else
        match ParseGroup(rest)
        case Err(e) => Err(e)
        case Ok(p) => ParseTargets(p.rest, true, SetTarget(t, p.key, p.rule))
  }

  // ---------- targets survive ----------

  ghost predicate TargetOk(key: string, rule: Rule) {
    && key != "" && (forall i :: 0 <= i < |key| ==> LexWord(key[i]))
    && IsOperator(rule.operator)
    && match rule.expression
       case Text(text) => key != "targetattr" && All(Not('"'), text)
       case List(items) =>
         key == "targetattr" && items != []
         && forall i :: 0 <= i < |items| ==> items[i] != "" && All(Attr, items[i])
  }

  lemma {:induction false} JoinedHasNoQuote(items: seq<string>)
    requires forall i :: 0 <= i < |items| ==> All(Attr, items[i])
    ensures All(Not('"'), Join(items, " || "))
  {
    if |items| > 1 {
      JoinedHasNoQuote(items[1..]);
    }
  }

  /** A rule as printing and parsing leave it: attributes listed once. */
  function NormalRule(rule: Rule): Rule {
    match rule.expression
    case Text(_) => rule
    case List(items) => Rule(rule.operator, List(Unique(items)))
  }

  function NormalTargets(t: Targets): Targets {
    if t == [] then [] else [(t[0].0, NormalRule(t[0].1))] + NormalTargets(t[1..])
  }

  lemma {:induction false} UniqueAttrs(items: seq<string>)
    requires items != [] && forall i :: 0 <= i < |items| ==> items[i] != "" && All(Attr, items[i])
    ensures Unique(items) != []
    ensures forall i :: 0 <= i < |Unique(items)| ==> Unique(items)[i] != "" && All(Attr, Unique(items)[i])
  {
    UniqueIsUnique(items);
    assert items[0] in items;
    assert forall i :: 0 <= i < |Unique(items)| ==> Unique(items)[i] in Unique(items);
  }

  /** The printed value of a good target has no quotes and parses back to the rule. */
  lemma {:induction false} RuleComesBack(key: string, rule: Rule)
    requires TargetOk(key, rule)
    ensures All(Not('"'), Shown(rule.expression))
    ensures RuleOf(key, rule.operator, Shown(rule.expression)) == NormalRule(rule)
  {
    match rule.expression
    case Text(_) =>
    case List(items) =>
      UniqueAttrs(items);
      JoinedHasNoQuote(Unique(items));
      SplitAttrsJoin(Unique(items));
  }

  lemma {:induction false} OperatorToken(operator: string, rest: string)
    requires IsOperator(operator) && rest != ""
    ensures Operator(operator + rest) == Ok((operator, rest))
  {
    var s := operator + rest;
    if operator == "=" {
      CharToken('=', rest);
    } else {
      assert s == ['!'] + (['='] + rest);
      CharToken('!', ['='] + rest);
      CharToken('=', rest);
      assert "!" + "=" == "!=";
      assert !IsOperator("!");
    }
  }

  /** The pieces of a printed target. */
  lemma {:induction false} GroupPieces(key: string, operator: string, shown: string, rest: string)
    ensures Group(key, operator, shown) + rest
      == ['('] + (key + " " + (operator + (" \"" + shown + "\"" + ([')'] + rest))))
  {
  }

  lemma {:induction false} QuotesRemoved(text: string)
    ensures RemoveQuotes(Strip("\"" + text + "\"")) == text
  {
    var quoted := "\"" + text + "\"";
    assert Strip(quoted) == quoted;
    assert quoted[1..] == text + "\"" && (text + "\"")[..|text|] == text;
  }

  lemma {:induction false} NameStripped(key: string)
    requires forall i :: 0 <= i < |key| ==> LexWord(key[i])
    ensures Strip(key) == key
  {
  }

  lemma {:induction false} GroupOf(s: string, key: string, s1: string, operator: string, s2: string, value: string,
                                   s3: string, rest: string)
    requires Demand(s) == Ok((key, s1)) && Operator(s1) == Ok((operator, s2))
    requires Demand(s2) == Ok((value, s3)) && Demand(s3) == Ok((")", rest))
    ensures ParseGroup(s)
      == Ok(Parsed(Strip(key), RuleOf(Strip(key), operator, RemoveQuotes(Strip(value))), rest))
  {
  }

  lemma {:induction false} GroupParses(key: string, rule: Rule, rest: string)
    requires TargetOk(key, rule)
    ensures var s3 := [')'] + rest;
      var s2 := " \"" + Shown(rule.expression) + "\"" + s3;
      ParseGroup(key + " " + (rule.operator + s2)) == Ok(Parsed(key, NormalRule(rule), rest))
  {
    var operator, shown := rule.operator, Shown(rule.expression);
    RuleComesBack(key, rule);
    var s3 := [')'] + rest;
    var s2 := " \"" + shown + "\"" + s3;
    NameToken(key, operator + s2);
    OperatorToken(operator, s2);
    QuoteToken(shown, s3);
    CharToken(')', rest);
    GroupOf(key + " " + (operator + s2), key, operator + s2, operator, s2, "\"" + shown + "\"", s3, rest);
    QuotesRemoved(shown);
    NameStripped(key);
  }

  ghost predicate TargetsOk(t: Targets) {
    forall i :: 0 <= i < |t| ==> TargetOk(t[i].0, t[i].1)
  }

  ghost predicate DistinctKeys(t: Targets) {
    forall i, j :: 0 <= i < j < |t| ==> t[i].0 != t[j].0
  }

  lemma {:induction false} SetNewTarget(t: Targets, key: string, rule: Rule)
    requires forall i :: 0 <= i < |t| ==> t[i].0 != key
    ensures SetTarget(t, key, rule) == t + [(key, rule)]
  {
    if t != [] {
      SetNewTarget(t[1..], key, rule);
    }
  }

  /** One printed target is read and added. */
  lemma {:induction false} FirstTargetParses(key: string, rule: Rule, rest: string, seen: bool, t: Targets)
    requires TargetOk(key, rule)
    ensures ParseTargets(Group(key, rule.operator, Shown(rule.expression)) + rest, seen, t)
      == ParseTargets(rest, true, SetTarget(t, key, NormalRule(rule)))
  {
    var shown := Shown(rule.expression);
    var tail := key + " " + (rule.operator + (" \"" + shown + "\"" + ([')'] + rest)));
    GroupPieces(key, rule.operator, shown, rest);
    CharToken('(', tail);
    GroupParses(key, rule, rest);
  }

  /** None of the keys of `t` is among those of `before`. */
  ghost predicate Apart(before: Targets, t: Targets) {
    forall i, j :: 0 <= i < |before| && 0 <= j < |t| ==> before[i].0 != t[j].0
  }

  lemma {:induction false} StillApart(before: Targets, t: Targets)
    requires t != [] && DistinctKeys(t) && Apart(before, t)
    ensures Apart(before + [(t[0].0, NormalRule(t[0].1))], t[1..]) && DistinctKeys(t[1..])
  {
  }

  lemma {:induction false} TailOk(t: Targets)
    requires t != [] && TargetsOk(t)
    ensures TargetsOk(t[1..])
  {
  }

  lemma {:induction false} NormalTail(t: Targets, before: Targets)
    requires t != []
    ensures before + [(t[0].0, NormalRule(t[0].1))] + NormalTargets(t[1..]) == before + NormalTargets(t)
  {
  }

  lemma {:induction false} TargetsStep(t: Targets, seen: bool, before: Targets)
    requires t != [] && TargetsOk(t) && Apart(before, t)
    ensures ParseTargets(TargetText(t), seen, before)
      == ParseTargets(TargetText(t[1..]), true, before + [(t[0].0, NormalRule(t[0].1))])
  {
    FirstTargetParses(t[0].0, t[0].1, TargetText(t[1..]), seen, before);
    SetNewTarget(before, t[0].0, NormalRule(t[0].1));
  }

  /** Printed targets with different keys parse back, in the printed order. */
  lemma {:induction false} TargetsParse(t: Targets, seen: bool, before: Targets)
    requires TargetsOk(t) && DistinctKeys(t) && Apart(before, t)
    ensures ParseTargets(TargetText(t), seen, before) == Ok(before + NormalTargets(t))
    decreases |t|
  {
    if t == [] {
      assert before + NormalTargets(t) == before;
      assert ParseTargets("", seen, before) == Ok(before);
    } else {
      var read := before + [(t[0].0, NormalRule(t[0].1))];
      StillApart(before, t);
      TailOk(t);
      TargetsStep(t, seen, before);
      NormalTail(t, before);
      TargetsParse(t[1..], true, read);
    }
  }

  // ---------- the three patterns ----------

  function Lit(o: Option<string>, lit: string): Option<string> {
    if o.Some? && lit <= o.value then Some(o.value[|lit|..]) else None
  }

  function Spaces(o: Option<string>): Option<string> {
    if o.Some? then Some(Skip(o.value)) else None
  }

  function SomeSpaces(o: Option<string>): Option<string> {
    if o.Some? && Run(Space, o.value) > 0 then Some(Skip(o.value)) else None
  }

  function AnyChar(o: Option<string>): Option<string> {
    if o.Some? && o.value != "" && In(Line, o.value[0]) then Some(o.value[1..]) else None
  }

  function AcWord(o: Option<string>): Option<string> {
    if Lit(o, "acl").Some? then Lit(o, "acl") else Lit(o, "aci")
  }

  /** What follows the version and the opening quote of the name. */
  function AfterHead(s: string): Option<string> {
    var version := Lit(AnyChar(Lit(SomeSpaces(Lit(Some(s), "(version")), "3")), "0");
    Lit(SomeSpaces(AcWord(Spaces(Lit(Spaces(version), ";")))), "\"")
  }

  predicate Closes(s: string) { Skip(s) != "" && Skip(s)[0] == ')' }

  /** The last semicolon before position `n` that closes the instruction. */
  function LastEnd(s: string, n: nat): (p: Option<nat>)
    requires n <= |s|
    ensures p.Some? ==> p.value < n
  {
    if n == 0 then None else if s[n - 1] == ';' && Closes(s[n..]) then Some(n - 1) else LastEnd(s, n - 1)
  }

  /** The name up to its closing quote, and what follows the semicolon. */
  function QuotedName(r: string): Option<(string, string)> {
    var n := Run(Not('"'), r);
    if n == |r| then None
    else
      match Spaces(Lit(Spaces(Some(r[n + 1..])), ";"))
      case None => None
      case Some(body) => Some((r[..n], body))
  }

  function UpToEnd(body: string): Option<string> {
    match LastEnd(body, Run(Line, body))
    case None => None
    case Some(p) => Some(body[..p])
  }

  /** The name, and the permissions with the bind rule. */
  function MatchAci(s: string): Option<(string, string)> {
    match AfterHead(s)
    case None => None
    case Some(r) =>
      match QuotedName(r)
      case None => None
      case Some((name, body)) =>
        match UpToEnd(body)
        case None => None
        case Some(rule) => Some((name, rule))
  }

  /** The permission list up to its closing parenthesis, and the bind rule. */
  function ParenList(r: string): Option<(string, string)> {
    var m := Run(NotParen, r);
    match Lit(Some(r[m..]), ")")
    case None => None
    case Some(rest) => Some((r[..m], Skip(rest)[..Run(Line, Skip(rest))]))
  }

  /** The action, the permission list and the bind rule. */
  function MatchPerms(s: string): Option<(string, string, string)> {
    var n := Run(Word, s);
    if n == 0 then None
    else
      match Lit(Spaces(Some(s[n..])), "(")
      case None => None
      case Some(r) =>
        match ParenList(r)
        case None => None
        case Some((permissions, bind)) => Some((s[..n], permissions, bind))
  }

  function WithoutAll(s: string, c: char): string {
    if s == "" then "" else if s[0] == c then WithoutAll(s[1..], c) else [s[0]] + WithoutAll(s[1..], c)
  }

  /** The last quote before position `n`. */
  function LastQuote(s: string, n: nat): (p: Option<nat>)
    requires n <= |s|
    ensures p.Some? ==> p.value < n
  {
    if n == 0 then None else if s[n - 1] == '"' then Some(n - 1) else LastQuote(s, n - 1)
  }

  /** The text up to the last quote on its line, other quotes removed. */
  function UpToQuote(r: string): Option<string> {
    match LastQuote(r, Run(Line, r))
    case None => None
    case Some(p) => Some(WithoutAll(r[..p], '"'))
  }

  /** The operator and the expression of a bind rule. */
  function MatchComparison(s: string): Option<(string, string)> {
    var operator := if "!=" <= s then "!=" else "=";
    match Lit(Spaces(Lit(Some(s), operator)), "\"")
    case None => None
    case Some(r) =>
      match UpToQuote(r)
      case None => None
      case Some(expression) => Some((operator, expression))
  }

  function MatchBind(s: string): Option<Bind> {
    var s0 := if s != "" && s[0] == '(' then s[1..] else s;
    var n := Run(Keyword, s0);
    if n == 0 then None
    else
      match MatchComparison(Skip(s0[n..]))
      case None => None
      case Some((operator, expression)) => Some(Bind(s0[..n], operator, expression))
  }

  function ParseBind(s: string): Result<Bind, Error> {
    var opens, closes := s != "" && s[0] == '(', s != "" && s[|s| - 1] == ')';
    if opens != closes || MatchBind(s).None? then Err(SyntaxError) else Ok(MatchBind(s).value)
  }

  // ---------- the instruction ----------

  /** The fields of an `ACI`; an empty text stands for one that is not set. */
  datatype Fields = Fields(name: string, target: Targets, action: string, permissions: seq<string>, bind: Bind)

  const VERSION := "version 3.0"

  function Find(s: string, word: string): (i: Option<nat>)
    ensures i.Some? ==> i.value + |word| <= |s|
  {
    if word <= s then Some(0)
    else if s == "" then None
    else match Find(s[1..], word)
      case None => None
      case Some(i) => Some(i + 1)
  }

  function LowerChar(c: char): char {
    if 'A' <= c <= 'Z' then (c as int + 32) as char else c
  }

  function Lower(s: string): string {
    if s == "" then "" else [LowerChar(s[0])] + Lower(s[1..])
  }

  const PERMISSIONS: set<string> :=
    {"read", "write", "add", "delete", "search", "compare", "selfwrite", "proxy", "all"}

  predicate Validated(f: Fields) {
    && (forall i :: 0 <= i < |f.permissions| ==> Lower(f.permissions[i]) in PERMISSIONS)
    && f.name != "" && f.target != []
    && f.bind.operator != "" && f.bind.keyword != "" && f.bind.expression != ""
  }

  function RightText(f: Fields): string {
    HEAD + f.name + "\";" + PermText(f.action, f.permissions, f.bind) + ";)"
  }

  function Exported(f: Fields): string {
    TargetText(Sorted(f.target)) + RightText(f)
  }

  /** The fields, once the name, the targets and what follows the name are known. */
  function ParseBody(name: string, target: Targets, body: string): Result<Fields, Error> {
    match MatchPerms(body)
    case None => Err(SyntaxError)
    case Some((action, permissions, bind)) =>
      match ParseBind(bind)
      case Err(e) => Err(e)
      case Ok(b) => Ok(Fields(name, target, action, Unique(SplitOn(WithoutAll(permissions, ' '), ',')), b))
  }

  /** The fields read from a text, its targets added to those of `t`. */
  function Parse(s: string, t: Targets): Result<Fields, Error> {
    match Find(s, VERSION)
    case None => Err(SyntaxError)
    case Some(v) =>
      if v == 0 then Err(SyntaxError)
      else
        match MatchAci(s[v - 1..])
        case None => Err(SyntaxError)
        case Some((name, body)) =>
          match ParseTargets(s[..v - 1], false, t)
          case Err(e) => Err(e)
          case Ok(target) => ParseBody(name, target, body)
  }

  // ---------- each pattern reads what is printed ----------

  lemma {:induction false} LitEats(lit: string, rest: string)
    ensures Lit(Some(lit + rest), lit) == Some(rest)
  {
  }

  lemma {:induction false} SpaceEats(rest: string)
    requires rest != "" && !In(Space, rest[0])
    ensures SomeSpaces(Some(" " + rest)) == Some(rest) && Spaces(Some(" " + rest)) == Some(rest)
    ensures Spaces(Some(rest)) == Some(rest)
  {
    SkipStops(rest);
  }

  lemma {:induction false} VersionEats(rest: string)
    ensures Lit(AnyChar(Lit(SomeSpaces(Some(" " + ("3" + ("." + ("0" + rest))))), "3")), "0") == Some(rest)
  {
    var dot := "." + ("0" + rest);
    SpaceEats("3" + dot);
    LitEats("3", dot);
    assert dot[1..] == "0" + rest;
    LitEats("0", rest);
  }

  lemma {:induction false} AclEats(rest: string)
    ensures Lit(SomeSpaces(AcWord(Some("acl" + (" " + ("\"" + rest))))), "\"") == Some(rest)
  {
    var quote := "\"" + rest;
    LitEats("acl", " " + quote);
    SpaceEats(quote);
    LitEats("\"", rest);
  }

  lemma {:induction false} HeadPieces(rest: string)
    ensures HEAD + rest
      == "(version" + (" " + ("3" + ("." + ("0" + (";" + ("acl" + (" " + ("\"" + rest))))))))
  {
  }

  lemma {:induction false} HeadEats(rest: string)
    ensures AfterHead(HEAD + rest) == Some(rest)
  {
    var acl := "acl" + (" " + ("\"" + rest));
    var semi := ";" + acl;
    var number := " " + ("3" + ("." + ("0" + semi)));
    HeadPieces(rest);
    LitEats("(version", number);
    VersionEats(semi);
    SpaceEats(semi);
    LitEats(";", acl);
    SpaceEats(acl);
    AclEats(rest);
  }

  lemma {:induction false} SemicolonEats(line: string)
    requires line != "" && !In(Space, line[0])
    ensures Spaces(Lit(Spaces(Some(";" + line)), ";")) == Some(line)
  {
    SpaceEats(";" + line);
    LitEats(";", line);
    SpaceEats(line);
  }

  lemma {:induction false} NameOf(r: string, n: nat, line: string)
    requires n == Run(Not('"'), r) < |r| && r[n + 1..] == ";" + line && line != "" && !In(Space, line[0])
    ensures QuotedName(r) == Some((r[..n], line))
  {
    SemicolonEats(line);
  }

  lemma {:induction false} NameReads(name: string, line: string)
    requires All(Not('"'), name) && line != "" && !In(Space, line[0])
    ensures QuotedName(name + ("\"" + (";" + line))) == Some((name, line))
  {
    var r := name + ("\"" + (";" + line));
    RunStops(Not('"'), name, "\"" + (";" + line));
    assert r[|name| + 1..] == ";" + line;
    NameOf(r, |name|, line);
  }

  /** The first pattern recovers the name and what stands between it and the end. */
  lemma {:induction false} AciMatches(name: string, body: string)
    requires All(Not('"'), name) && All(Line, body) && body != "" && !In(Space, body[0])
    ensures MatchAci(HEAD + name + "\";" + body + ";)") == Some((name, body))
  {
    var line := body + ";)";
    var s := HEAD + name + "\";" + body + ";)";
    assert s == HEAD + (name + ("\"" + (";" + line)));
    HeadEats(name + ("\"" + (";" + line)));
    NameReads(name, line);
    EndFound(body);
  }

  lemma {:induction false} EndOf(line: string, p: nat)
    requires |line| == p + 2 && Run(Line, line) == |line| && line[p] == ';' && line[p + 1..] == ")"
    ensures UpToEnd(line) == Some(line[..p])
  {
    SkipStops(")");
    assert line[p + 1] == line[p + 1..][0];
    assert LastEnd(line, |line|) == LastEnd(line, p + 1) == Some(p);
  }

  lemma {:induction false} EndFound(body: string)
    requires All(Line, body)
    ensures UpToEnd(body + ";)") == Some(body)
  {
    var line := body + ";)";
    RunAll(Line, line);
    assert line[|body| + 1..] == ")" && line[..|body|] == body;
    EndOf(line, |body|);
  }

  lemma {:induction false} WithoutNone(s: string, c: char)
    requires All(Not(c), s)
    ensures WithoutAll(s, c) == s
  {
    if s != "" {
      WithoutNone(s[1..], c);
    }
  }

  /** Every occurrence goes and the rest stays. */
  lemma {:induction false} WithoutSum(a: string, b: string, c: char)
    ensures WithoutAll(a + [c] + b, c) == WithoutAll(a, c) + WithoutAll(b, c)
  {
    if a == "" {
      assert (a + [c] + b)[1..] == b;
    } else {
      assert (a + [c] + b)[1..] == a[1..] + [c] + b;
      WithoutSum(a[1..], b, c);
    }
  }

  ghost predicate BindOk(b: Bind) {
    && b.keyword != "" && All(Keyword, b.keyword)
    && IsOperator(b.operator)
    && All(Line, b.expression)
  }

  function NormalBind(b: Bind): Bind { b.(expression := WithoutAll(b.expression, '"')) }

  lemma {:induction false} ExpressionReads(expression: string)
    requires All(Line, expression)
    ensures UpToQuote(expression + "\"") == Some(WithoutAll(expression, '"'))
  {
    var r := expression + "\"";
    RunAll(Line, r);
    assert LastQuote(r, |r|) == Some(|expression|);
    assert r[..|expression|] == expression;
  }

  lemma {:induction false} ComparisonReads(operator: string, expression: string)
    requires IsOperator(operator) && All(Line, expression)
    ensures MatchComparison(operator + (" " + ("\"" + (expression + "\""))))
      == Some((operator, WithoutAll(expression, '"')))
  {
    var quoted := "\"" + (expression + "\"");
    var s := operator + (" " + quoted);
    assert ("!=" <= s) == (operator == "!=") by {
      assert s[0] == operator[0];
    }
    LitEats(operator, " " + quoted);
    SpaceEats(quoted);
    LitEats("\"", expression + "\"");
    ExpressionReads(expression);
  }

  lemma {:induction false} BindOf(s: string, n: nat, operator: string, expression: string)
    requires s != "" && s[0] != '(' && s[|s| - 1] != ')'
    requires 0 < n == Run(Keyword, s) && MatchComparison(Skip(s[n..])) == Some((operator, expression))
    ensures ParseBind(s) == Ok(Bind(s[..n], operator, expression))
  {
    assert MatchBind(s) == Some(Bind(s[..n], operator, expression));
  }

  lemma {:induction false} BindPieces(b: Bind)
    requires BindOk(b)
    ensures BindText(b) == b.keyword + (" " + (b.operator + (" " + ("\"" + (b.expression + "\"")))))
    ensures BindText(b) != "" && In(Keyword, BindText(b)[0]) && BindText(b)[|BindText(b)| - 1] == '"'
    ensures All(Line, BindText(b))
  {
  }

  /** The third pattern recovers the bind rule. */
  lemma {:induction false} BindParses(b: Bind)
    requires BindOk(b)
    ensures ParseBind(BindText(b)) == Ok(NormalBind(b))
  {
    var comparison := b.operator + (" " + ("\"" + (b.expression + "\"")));
    var s := BindText(b);
    BindPieces(b);
    RunStops(Keyword, b.keyword, " " + comparison);
    SkipStops(comparison);
    ComparisonReads(b.operator, b.expression);
    BindOf(s, |b.keyword|, b.operator, WithoutAll(b.expression, '"'));
  }

  lemma {:induction false} ListOf(r: string, m: nat, rest: string, bind: string)
    requires Run(NotParen, r) == m && Lit(Some(r[m..]), ")") == Some(rest)
    requires Skip(rest) == bind && Run(Line, bind) == |bind|
    ensures ParenList(r) == Some((r[..m], bind))
  {
    assert bind[..|bind|] == bind;
  }

  lemma {:induction false} ListReads(permissions: string, bind: string)
    requires All(NotParen, permissions) && All(Line, bind) && bind != "" && !In(Space, bind[0])
    ensures ParenList(permissions + (")" + (" " + bind))) == Some((permissions, bind))
  {
    var rest := " " + bind;
    RunStops(NotParen, permissions, ")" + rest);
    LitEats(")", rest);
    SkipStops(bind);
    RunAll(Line, bind);
    ListOf(permissions + (")" + rest), |permissions|, rest, bind);
  }

  /** The second pattern recovers the action, the permission list and the bind rule. */
  lemma {:induction false} PermsMatch(action: string, permissions: string, bind: string)
    requires action != "" && All(Word, action) && All(NotParen, permissions)
    requires All(Line, bind) && bind != "" && !In(Space, bind[0])
    ensures MatchPerms(action + (" " + ("(" + (permissions + (")" + (" " + bind)))))) == Some((action, permissions, bind))
  {
    var list := permissions + (")" + (" " + bind));
    RunStops(Word, action, " " + ("(" + list));
    SpaceEats("(" + list);
    LitEats("(", list);
    ListReads(permissions, bind);
  }

  // ---------- the version marker ----------

  lemma {:induction false} NoParenInVersion(k: nat)
    requires k < |VERSION|
    ensures VERSION[k] != '('
  {
  }

  lemma {:induction false} PrefixOfFirst(word: string, a: string, b: string)
    requires word <= a + b && |word| <= |a|
    ensures word <= a
  {
    assert (a + b)[..|word|] == a[..|word|];
  }

  /** The first marker is the one that opens the instruction. */
  lemma {:induction false} VersionFound(targets: string, rest: string)
    requires Find(targets, VERSION).None?
    ensures Find(targets + ("(" + (VERSION + rest)), VERSION) == Some(|targets| + 1)
    decreases |targets|
  {
    var tail := "(" + (VERSION + rest);
    var s := targets + tail;
    if targets == "" {
      assert s == tail;
      assert tail[0] == '(' && tail[1..] == VERSION + rest;
      NoParenInVersion(0);
    } else {
      if VERSION <= s {
        if |targets| < |VERSION| {
          NoParenInVersion(|targets|);
          assert false;
        } else {
          PrefixOfFirst(VERSION, targets, tail);
          assert false;
        }
      }
      assert s[1..] == targets[1..] + tail;
      VersionFound(targets[1..], rest);
    }
  }

  /** The marker stands at position `i`. */
  predicate MarkedAt(s: string, i: nat) { i + |VERSION| <= |s| && s[i..i + |VERSION|] == VERSION }

  lemma {:induction false} MarkFound(s: string, i: nat)
    ensures MarkedAt(s, i) ==> Find(s, VERSION).Some?
    decreases i
  {
    if i + |VERSION| <= |s| {
      if i > 0 {
        assert s[1..][i - 1..i - 1 + |VERSION|] == s[i..i + |VERSION|];
        MarkFound(s[1..], i - 1);
      } else {
        assert s[0..|VERSION|] == s[..|VERSION|];
      }
    }
  }

  lemma {:induction false} FoundMark(s: string) returns (i: nat)
    requires Find(s, VERSION).Some?
    ensures MarkedAt(s, i)
  {
    if VERSION <= s {
      i := 0;
    } else {
      i := FoundMark(s[1..]);
      assert s[1..][i..i + |VERSION|] == s[i + 1..i + 1 + |VERSION|];
      i := i + 1;
    }
  }

  /** The characters of the marker: no delimiter, and one space, which a 3 follows. */
  lemma {:induction false} MarkerChars(k: nat)
    requires k < |VERSION|
    ensures VERSION[k] != '(' && VERSION[k] != ')' && VERSION[k] != '"'
    ensures VERSION[7] == ' ' && VERSION[8] == '3'
  {
  }

  /** No marker covers a delimiter. */
  lemma {:induction false} NoMarkOver(s: string, i: nat, p: nat)
    requires i <= p < i + |VERSION| && p < |s| && (s[p] == '(' || s[p] == ')' || s[p] == '"')
    ensures !MarkedAt(s, i)
  {
    if i + |VERSION| <= |s| {
      assert s[i..i + |VERSION|][p - i] == s[p];
      MarkerChars(p - i);
    }
  }

  lemma {:induction false} MarkWithin(a: string, b: string, c: string, i: nat)
    requires |a| <= i && i + |VERSION| <= |a| + |b|
    ensures MarkedAt(a + b + c, i) == MarkedAt(b, i - |a|)
  {
    assert (a + b + c)[i..i + |VERSION|] == b[i - |a|..i - |a| + |VERSION|];
  }

  lemma {:induction false} NoMarkInName(key: string, operator: string, i: nat)
    requires (forall k :: 0 <= k < |key| ==> LexWord(key[k])) && IsOperator(operator)
    ensures !MarkedAt(key + " " + operator + " ", i)
  {
    var s := key + " " + operator + " ";
    if i + |VERSION| <= |s| {
      assert s[i..i + |VERSION|][7] == s[i + 7] && s[i..i + |VERSION|][8] == s[i + 8];
      assert s[i + 7] != ' ' || s[i + 8] != '3' by {
        assert s[|key| + 1..] == operator + " ";
        assert s[|key| + 1] == operator[0];
      }
      MarkerChars(0);
    }
  }

  /** The pieces between the delimiters of a printed target. */
  lemma {:induction false} GroupSides(key: string, operator: string, shown: string, rest: string)
    ensures var name, s := key + " " + operator + " ", Group(key, operator, shown) + rest;
      && s == "(" + name + ("\"" + shown + "\")" + rest)
      && s == ("(" + name + "\"") + shown + ("\")" + rest)
      && |Group(key, operator, shown)| == |name| + |shown| + 4
  {
  }

  /** A printed target holds the marker only if its value does. */
  lemma {:induction false} NoMarkInGroup(key: string, operator: string, shown: string, rest: string, i: nat)
    requires (forall k :: 0 <= k < |key| ==> LexWord(key[k])) && IsOperator(operator)
    requires Find(shown, VERSION).None? && i < |Group(key, operator, shown)|
    ensures !MarkedAt(Group(key, operator, shown) + rest, i)
  {
    var s, name := Group(key, operator, shown) + rest, key + " " + operator + " ";
    var open, close := 1 + |name|, 2 + |name| + |shown|;
    GroupSides(key, operator, shown, rest);
    if i == 0 {
      NoMarkOver(s, i, 0);
    } else if i + |VERSION| <= open {
      MarkWithin("(", name, "\"" + shown + "\")" + rest, i);
      NoMarkInName(key, operator, i - 1);
    } else if i <= open {
      NoMarkOver(s, i, open);
    } else if i + |VERSION| <= close {
      MarkWithin("(" + name + "\"", shown, "\")" + rest, i);
      MarkFound(shown, i - (open + 1));
    } else {
      NoMarkOver(s, i, if i <= close then close else close + 1);
    }
  }

  /** Targets whose values are free of the marker print free of it. */
  lemma {:induction false} NoMarkInTargets(t: Targets, i: nat)
    requires TargetsOk(t) && forall k :: 0 <= k < |t| ==> Find(Shown(t[k].1.expression), VERSION).None?
    ensures !MarkedAt(TargetText(t), i)
    decreases |t|
  {
    if t != [] {
      var g := Group(t[0].0, t[0].1.operator, Shown(t[0].1.expression));
      var rest := TargetText(t[1..]);
      if i < |g| {
        NoMarkInGroup(t[0].0, t[0].1.operator, Shown(t[0].1.expression), rest, i);
      } else {
        TailOk(t);
        NoMarkInTargets(t[1..], i - |g|);
        if i + |VERSION| <= |g + rest| {
          assert g + rest == g + rest + "";
          MarkWithin(g, rest, "", i);
        }
      }
    }
  }

  /** No printed value holds the marker. */
  ghost predicate Unmarked(t: Targets) {
    forall k :: 0 <= k < |t| ==> Find(Shown(t[k].1.expression), VERSION).None?
  }

  lemma {:induction false} UnmarkedTargets(t: Targets)
    requires TargetsOk(t) && Unmarked(t)
    ensures Find(TargetText(t), VERSION).None?
  {
    if Find(TargetText(t), VERSION).Some? {
      var i := FoundMark(TargetText(t));
      NoMarkInTargets(t, i);
      assert false;
    }
  }

  // ---------- permissions ----------

  ghost predicate Letters(s: string) {
    forall i :: 0 <= i < |s| ==> 'a' <= LowerChar(s[i]) <= 'z'
  }

  lemma {:induction false} LowerAt(s: string, i: nat)
    requires i < |s|
    ensures |Lower(s)| == |s| && Lower(s)[i] == LowerChar(s[i])
  {
    if i > 0 {
      LowerAt(s[1..], i - 1);
    } else if |s| > 1 {
      LowerAt(s[1..], 0);
    }
  }

  /** Capital letters become small ones, and nothing else changes. */
  lemma {:induction false} LowerCharIs(c: char, k: nat)
    ensures k < 26 && c as int == 'A' as int + k ==> LowerChar(c) as int == 'a' as int + k
    ensures !('A' <= c <= 'Z') ==> LowerChar(c) == c
  {
  }

  lemma {:induction false} KnownIsLower(known: string, i: nat)
    requires known in PERMISSIONS && i < |known|
    ensures 'a' <= known[i] <= 'z'
  {
  }

  /** A permission that passes validation consists of letters. */
  lemma {:induction false} PermissionHasLetters(p: string)
    requires Lower(p) in PERMISSIONS
    ensures Letters(p)
  {
    forall i | 0 <= i < |p|
      ensures 'a' <= LowerChar(p[i]) <= 'z'
    {
      LowerAt(p, i);
      KnownIsLower(Lower(p), i);
    }
  }

  lemma {:induction false} JoinedLetters(items: seq<string>)
    requires forall i :: 0 <= i < |items| ==> Letters(items[i])
    ensures All(NotParen, Join(items, ",")) && All(Not(' '), Join(items, ",")) && All(Line, Join(items, ","))
  {
    if |items| > 1 {
      JoinedLetters(items[1..]);
    }
  }

  /** The printed permissions split back into the list. */
  lemma {:induction false} PermissionsComeBack(items: seq<string>)
    requires items != [] && forall i :: 0 <= i < |items| ==> Lower(items[i]) in PERMISSIONS
    ensures All(NotParen, Join(items, ",")) && All(Line, Join(items, ","))
    ensures SplitOn(WithoutAll(Join(items, ","), ' '), ',') == items
  {
    forall i | 0 <= i < |items|
      ensures Letters(items[i]) && All(Not(','), items[i])
    {
      PermissionHasLetters(items[i]);
    }
    JoinedLetters(items);
    WithoutNone(Join(items, ","), ' ');
    SplitJoin(items, ',');
  }

  // ---------- sorting ----------

  lemma {:induction false} AtMostTotal(a: string, b: string)
    ensures AtMost(a, b) || AtMost(b, a)
  {
    if a != "" && b != "" && a[0] == b[0] {
      AtMostTotal(a[1..], b[1..]);
    }
  }

  /** Two texts compare as their first different characters do, and a text comes after its beginnings. */
  lemma {:induction false} AtMostAt(same: string, x: char, a: string, y: char, b: string)
    requires x < y
    ensures AtMost(same + ([x] + a), same + ([y] + b)) && !AtMost(same + ([y] + b), same + ([x] + a))
    ensures AtMost(same, same + ([x] + a)) && !AtMost(same + ([x] + a), same)
  {
    if same == "" {
      assert same + ([x] + a) == [x] + a && same + ([y] + b) == [y] + b;
    } else {
      AtMostAt(same[1..], x, a, y, b);
      assert (same + ([x] + a))[1..] == same[1..] + ([x] + a) && (same + ([y] + b))[1..] == same[1..] + ([y] + b);
    }
  }

  /** Neighbours are in order. */
  predicate InOrder(t: Targets) {
    |t| <= 1 || (AtMost(t[0].0, t[1].0) && InOrder(t[1..]))
  }

  lemma {:induction false} InsertKeepsOrder(x: (string, Rule), t: Targets)
    requires InOrder(t)
    ensures InOrder(Insert(x, t))
  {
    if t != [] && !AtMost(x.0, t[0].0) {
      AtMostTotal(x.0, t[0].0);
      InsertKeepsOrder(x, t[1..]);
      var rest := Insert(x, t[1..]);
      assert ([t[0]] + rest)[1..] == rest;
    } else {
      assert ([x] + t)[1..] == t;
    }
  }

  lemma {:induction false} SortedIsInOrder(t: Targets)
    ensures InOrder(Sorted(t))
  {
    if t != [] {
      SortedIsInOrder(t[1..]);
      InsertKeepsOrder(t[0], Sorted(t[1..]));
    }
  }

  lemma {:induction false} SortedStays(t: Targets)
    requires InOrder(t)
    ensures Sorted(t) == t
  {
    if t != [] {
      SortedStays(t[1..]);
    }
  }

  lemma {:induction false} InsertAdds(x: (string, Rule), t: Targets)
    ensures multiset(Insert(x, t)) == multiset(t) + multiset{x}
  {
    if t != [] && !AtMost(x.0, t[0].0) {
      InsertAdds(x, t[1..]);
      assert t == [t[0]] + t[1..];
    }
  }

  /** Sorting only reorders. */
  lemma {:induction false} SortedPermutes(t: Targets)
    ensures multiset(Sorted(t)) == multiset(t)
  {
    if t != [] {
      SortedPermutes(t[1..]);
      InsertAdds(t[0], Sorted(t[1..]));
      assert t == [t[0]] + t[1..];
    }
  }

  lemma {:induction false} ReorderKeepsRules(t: Targets, u: Targets)
    requires multiset(t) == multiset(u) && TargetsOk(t)
    ensures TargetsOk(u)
  {
    forall i | 0 <= i < |u|
      ensures TargetOk(u[i].0, u[i].1)
    {
      assert u[i] in multiset(u);
    }
  }

  /** How often a key occurs. */
  function Count(t: Targets, key: string): nat {
    if t == [] then 0 else (if t[0].0 == key then 1 else 0) + Count(t[1..], key)
  }

  lemma {:induction false} InsertCounts(x: (string, Rule), t: Targets, key: string)
    ensures Count(Insert(x, t), key) == Count([x], key) + Count(t, key)
  {
    if t == [] || AtMost(x.0, t[0].0) {
      assert ([x] + t)[1..] == t;
    } else {
      InsertCounts(x, t[1..], key);
      var rest := Insert(x, t[1..]);
      assert ([t[0]] + rest)[1..] == rest;
    }
  }

  lemma {:induction false} SortedCounts(t: Targets, key: string)
    ensures Count(Sorted(t), key) == Count(t, key)
  {
    if t != [] {
      SortedCounts(t[1..], key);
      InsertCounts(t[0], Sorted(t[1..]), key);
    }
  }

  lemma {:induction false} CountFind(t: Targets, key: string) returns (i: nat)
    requires Count(t, key) >= 1
    ensures i < |t| && t[i].0 == key
  {
    if t[0].0 == key {
      i := 0;
    } else {
      i := CountFind(t[1..], key);
      i := i + 1;
    }
  }

  lemma {:induction false} CountPair(t: Targets, key: string) returns (i: nat, j: nat)
    requires Count(t, key) >= 2
    ensures i < j < |t| && t[i].0 == key == t[j].0
  {
    if t[0].0 == key {
      i := 0;
      j := CountFind(t[1..], key);
    } else {
      i, j := CountPair(t[1..], key);
      i := i + 1;
    }
    j := j + 1;
  }

  lemma {:induction false} CountAt(t: Targets, i: nat)
    requires i < |t|
    ensures Count(t, t[i].0) >= 1
  {
    if i > 0 {
      CountAt(t[1..], i - 1);
    }
  }

  lemma {:induction false} CountTwo(t: Targets, i: nat, j: nat)
    requires i < j < |t| && t[i].0 == t[j].0
    ensures Count(t, t[i].0) >= 2
  {
    if i > 0 {
      CountTwo(t[1..], i - 1, j - 1);
    } else {
      CountAt(t[1..], j - 1);
    }
  }

  lemma {:induction false} SortedStaysDistinct(t: Targets)
    requires DistinctKeys(t)
    ensures DistinctKeys(Sorted(t))
  {
    var u := Sorted(t);
    forall i, j | 0 <= i < j < |u|
      ensures u[i].0 != u[j].0
    {
      if u[i].0 == u[j].0 {
        CountTwo(u, i, j);
        SortedCounts(t, u[i].0);
        var a, b := CountPair(t, u[i].0);
        assert false;
      }
    }
  }

  // ---------- the round trip ----------

  /** Instructions whose parts are made of the characters the three patterns and the lexer expect. */
  ghost predicate Printable(f: Fields) {
    && Validated(f)
    && All(Not('"'), f.name)
    && f.action != "" && All(Word, f.action)
    && f.permissions != []
    && BindOk(f.bind)
    && TargetsOk(f.target) && DistinctKeys(f.target)
    && Unmarked(f.target)
  }

  /** What printing and parsing make of an instruction. */
  function Normal(f: Fields): Fields {
    Fields(f.name, NormalTargets(Sorted(f.target)), f.action, Unique(f.permissions), NormalBind(f.bind))
  }

  lemma {:induction false} PermPieces(action: string, permissions: seq<string>, b: Bind)
    ensures PermText(action, permissions, b)
      == action + (" " + ("(" + (Join(permissions, ",") + (")" + (" " + BindText(b))))))
  {
  }

  /** The first pattern reads the right half of a printable instruction. */
  lemma {:induction false} RightMatches(f: Fields)
    requires Printable(f)
    ensures MatchAci(RightText(f)) == Some((f.name, PermText(f.action, f.permissions, f.bind)))
  {
    PermissionsComeBack(f.permissions);
    BindPieces(f.bind);
    PermPieces(f.action, f.permissions, f.bind);
    WholeLine(f.action, Join(f.permissions, ","), BindText(f.bind));
    AciMatches(f.name, PermText(f.action, f.permissions, f.bind));
  }

  /** The second pattern reads its permissions and bind rule. */
  lemma {:induction false} PermsRead(f: Fields)
    requires Printable(f)
    ensures MatchPerms(PermText(f.action, f.permissions, f.bind))
      == Some((f.action, Join(f.permissions, ","), BindText(f.bind)))
  {
    PermissionsComeBack(f.permissions);
    BindPieces(f.bind);
    PermPieces(f.action, f.permissions, f.bind);
    PermsMatch(f.action, Join(f.permissions, ","), BindText(f.bind));
  }

  lemma {:induction false} WholeLine(action: string, permissions: string, bind: string)
    requires action != "" && All(Word, action) && All(Line, permissions) && All(Line, bind)
    ensures var s := action + (" " + ("(" + (permissions + (")" + (" " + bind)))));
      s != "" && !In(Space, s[0]) && All(Line, s)
  {
    assert In(Word, action[0]);
    forall i | 0 <= i < |action|
      ensures In(Line, action[i])
    {
      assert In(Word, action[i]);
    }
  }

  lemma {:induction false} ParseOf(left: string, right: string, name: string, target: Targets, body: string)
    requires Find(left + right, VERSION) == Some(|left| + 1)
    requires MatchAci(right) == Some((name, body)) && ParseTargets(left, false, []) == Ok(target)
    ensures Parse(left + right, []) == ParseBody(name, target, body)
  {
    var s := left + right;
    assert s[..|left|] == left && s[|left|..] == right;
  }

  lemma {:induction false} RightStartsWithVersion(f: Fields) returns (rest: string)
    ensures RightText(f) == "(" + (VERSION + rest)
  {
    rest := RightText(f)[|VERSION| + 1..];
    assert HEAD[..|VERSION| + 1] == "(" + VERSION;
  }

  lemma {:induction false} LeftParses(t: Targets)
    requires TargetsOk(t) && DistinctKeys(t)
    ensures ParseTargets(TargetText(Sorted(t)), false, []) == Ok(NormalTargets(Sorted(t)))
  {
    var u := Sorted(t);
    SortedPermutes(t);
    ReorderKeepsRules(t, u);
    SortedStaysDistinct(t);
    TargetsParse(u, false, []);
    assert [] + NormalTargets(u) == NormalTargets(u);
  }

  lemma {:induction false} SortedUnmarked(t: Targets)
    requires TargetsOk(t) && Unmarked(t)
    ensures Find(TargetText(Sorted(t)), VERSION).None?
  {
    var u := Sorted(t);
    SortedPermutes(t);
    ReorderKeepsRules(t, u);
    forall k | 0 <= k < |u|
      ensures Find(Shown(u[k].1.expression), VERSION).None?
    {
      assert u[k] in multiset(t);
    }
    UnmarkedTargets(u);
  }

  lemma {:induction false} ExportedSplits(f: Fields)
    requires TargetsOk(f.target) && Unmarked(f.target)
    ensures Find(Exported(f), VERSION) == Some(|TargetText(Sorted(f.target))| + 1)
  {
    SortedUnmarked(f.target);
    var rest := RightStartsWithVersion(f);
    VersionFound(TargetText(Sorted(f.target)), rest);
  }

  lemma {:induction false} BodyOf(name: string, target: Targets, body: string, action: string, perms: string, bind: string,
                                  items: seq<string>, b: Bind)
    requires MatchPerms(body) == Some((action, perms, bind)) && ParseBind(bind) == Ok(b)
    requires SplitOn(WithoutAll(perms, ' '), ',') == items
    ensures ParseBody(name, target, body) == Ok(Fields(name, target, action, Unique(items), b))
  {
  }

  lemma {:induction false} BodyParses(f: Fields)
    requires Printable(f)
    ensures ParseBody(f.name, NormalTargets(Sorted(f.target)), PermText(f.action, f.permissions, f.bind)) == Ok(Normal(f))
  {
    PermsRead(f);
    BindParses(f.bind);
    PermissionsComeBack(f.permissions);
    BodyOf(f.name, NormalTargets(Sorted(f.target)), PermText(f.action, f.permissions, f.bind), f.action,
           Join(f.permissions, ","), BindText(f.bind), f.permissions, NormalBind(f.bind));
  }

  lemma {:induction false} LeftHalf(f: Fields)
    requires Printable(f)
    ensures ParseTargets(TargetText(Sorted(f.target)), false, []) == Ok(NormalTargets(Sorted(f.target)))
    ensures Find(TargetText(Sorted(f.target)) + RightText(f), VERSION) == Some(|TargetText(Sorted(f.target))| + 1)
  {
    LeftParses(f.target);
    ExportedSplits(f);
  }

  /** The exported text in two halves, what each reads as, and what their fields are. */
  lemma {:induction false} ExportedHalves(f: Fields) returns (left: string, right: string, target: Targets, body: string)
    requires Printable(f)
    ensures Exported(f) == left + right && Find(left + right, VERSION) == Some(|left| + 1)
    ensures ParseTargets(left, false, []) == Ok(target) && target == NormalTargets(Sorted(f.target))
    ensures MatchAci(right) == Some((f.name, body)) && body == PermText(f.action, f.permissions, f.bind)
  {
    left, target := TargetText(Sorted(f.target)), NormalTargets(Sorted(f.target));
    LeftHalf(f);
    right, body := RightText(f), PermText(f.action, f.permissions, f.bind);
    RightMatches(f);
  }

  /** Parsing what was exported gives the normal form. */
  lemma {:induction false} ParseExported(f: Fields)
    requires Printable(f)
    ensures Parse(Exported(f), []) == Ok(Normal(f))
  {
    var left, right, target, body := ExportedHalves(f);
    BodyParses(f);
    ParseOf(left, right, f.name, target, body);
  }

  // ---------- when nothing is lost ----------

  /** The same name, action, permissions, bind rule and targets. */
  ghost predicate Same(f: Fields, g: Fields) {
    && g.name == f.name && g.action == f.action && g.permissions == f.permissions && g.bind == f.bind
    && multiset(g.target) == multiset(f.target)
  }

  ghost predicate RuleIsUnique(rule: Rule) {
    rule.expression.List? ==> NoDuplicates(rule.expression.items)
  }

  /** No permission and no attribute is listed twice, and the bind expression has no quote. */
  ghost predicate NothingToLose(f: Fields) {
    && NoDuplicates(f.permissions)
    && All(Not('"'), f.bind.expression)
    && forall i :: 0 <= i < |f.target| ==> RuleIsUnique(f.target[i].1)
  }

  lemma {:induction false} UniqueIff(items: seq<string>)
    ensures Unique(items) == items <==> NoDuplicates(items)
  {
    if NoDuplicates(items) {
      UniqueKeeps(items);
    } else {
      UniqueIsUnique(items);
    }
  }

  lemma {:induction false} WithoutHasNone(s: string, c: char)
    ensures All(Not(c), WithoutAll(s, c))
  {
    if s != "" {
      WithoutHasNone(s[1..], c);
    }
  }

  lemma {:induction false} NormalRulesUnique(t: Targets, i: nat)
    requires i < |t|
    ensures |NormalTargets(t)| == |t| && RuleIsUnique(NormalTargets(t)[i].1)
  {
    if t[0].1.expression.List? {
      UniqueIsUnique(t[0].1.expression.items);
    }
    if |t| > 1 {
      NormalRulesUnique(t[1..], if i > 0 then i - 1 else 0);
    }
  }

  lemma {:induction false} NormalKeeps(t: Targets)
    requires forall i :: 0 <= i < |t| ==> RuleIsUnique(t[i].1)
    ensures NormalTargets(t) == t
  {
    if t != [] {
      if t[0].1.expression.List? {
        UniqueKeeps(t[0].1.expression.items);
      }
      NormalKeeps(t[1..]);
    }
  }

  lemma {:induction false} TargetsComeBackIff(t: Targets)
    ensures multiset(NormalTargets(Sorted(t))) == multiset(t) <==> forall i :: 0 <= i < |t| ==> RuleIsUnique(t[i].1)
  {
    var u := Sorted(t);
    SortedPermutes(t);
    if forall i :: 0 <= i < |t| ==> RuleIsUnique(t[i].1) {
      forall i | 0 <= i < |u|
        ensures RuleIsUnique(u[i].1)
      {
        assert u[i] in multiset(t);
      }
      NormalKeeps(u);
    }
    if multiset(NormalTargets(u)) == multiset(t) {
      forall i | 0 <= i < |t|
        ensures RuleIsUnique(t[i].1)
      {
        assert t[i] in multiset(NormalTargets(u));
        var j :| 0 <= j < |NormalTargets(u)| && NormalTargets(u)[j] == t[i];
        NormalCount(u);
        NormalRulesUnique(u, j);
      }
    }
  }

  lemma {:induction false} NormalCount(t: Targets)
    ensures |NormalTargets(t)| == |t|
  {
    if t != [] {
      NormalCount(t[1..]);
    }
  }

  lemma {:induction false} QuotesIff(s: string)
    ensures WithoutAll(s, '"') == s <==> All(Not('"'), s)
  {
    if All(Not('"'), s) {
      WithoutNone(s, '"');
    } else {
      WithoutHasNone(s, '"');
    }
  }

  lemma {:induction false} SameAsNormalIff(f: Fields)
    ensures Same(f, Normal(f)) <==> NothingToLose(f)
  {
    UniqueIff(f.permissions);
    TargetsComeBackIff(f.target);
    QuotesIff(f.bind.expression);
  }

  /** The round trip loses nothing exactly when there is nothing to lose. */
  lemma {:induction false} RoundTripIff(f: Fields)
    requires Printable(f)
    ensures Parse(Exported(f), []).Ok?
    ensures Same(f, Parse(Exported(f), []).value) <==> NothingToLose(f)
  {
    ParseExported(f);
    SameAsNormalIff(f);
  }

  /** And then exporting again gives the same text. */
  lemma {:induction false} ExportedAgain(f: Fields)
    requires Printable(f) && NothingToLose(f)
    ensures Parse(Exported(f), []).Ok? && Exported(Parse(Exported(f), []).value) == Exported(f)
  {
    var t := Sorted(f.target);
    ParseExported(f);
    UniqueKeeps(f.permissions);
    WithoutNone(f.bind.expression, '"');
    SortedPermutes(f.target);
    forall i | 0 <= i < |t|
      ensures RuleIsUnique(t[i].1)
    {
      assert t[i] in multiset(f.target);
    }
    NormalKeeps(t);
    SortedIsInOrder(f.target);
    SortedStays(t);
  }
}
