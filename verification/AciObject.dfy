/** The class `ACI` of ipalib/aci.py, proved against the texts and patterns of the module Aci. */
module AciObject {
  import opened Common
  import opened AciText
  import opened Aci
  import opened AciLayout

  /** Every item followed by the separator. */
  function Bars(items: seq<string>): string {
    if items == [] then "" else items[0] + " || " + Bars(items[1..])
  }

  lemma {:induction false} BarsAreJoined(items: seq<string>)
    requires items != []
    ensures Bars(items) == Join(items, " || ") + " || "
  {
    if |items| > 1 {
      BarsAreJoined(items[1..]);
    }
  }

  /** The loop that prints an attribute list, its last separator cut off. */
  method ShowList(items: seq<string>) returns (text: string)
    ensures text == Join(Unique(items), " || ")
  {
    var unique := UniqueList(items);
    text := "";
    var i := 0;
    while i < |unique|
      invariant 0 <= i <= |unique| && text + Bars(unique[i..]) == Bars(unique)
    {
      assert unique[i..][1..] == unique[i + 1..];
      assert text + (unique[i] + " || " + Bars(unique[i + 1..])) == text + unique[i] + " || " + Bars(unique[i + 1..]);
      text := text + unique[i] + " || ";
      i := i + 1;
    }
    assert text == Bars(unique) by {
      assert unique[i..] == [];
    }
    if unique != [] {
      BarsAreJoined(unique);
      text := text[..|text| - 4];
    }
  }

  method ShowTarget(key: string, rule: Rule) returns (text: string)
    ensures text == Group(key, rule.operator, Shown(rule.expression))
  {
    var shown;
    match rule.expression {
      case List(items) => shown := ShowList(items);
      case Text(value) => shown := value;
    }
    text := "(" + key + " " + rule.operator + " \"" + shown + "\")";
  }

  lemma {:induction false} NextText(before: string, t: Targets, i: nat)
    requires i < |t|
    ensures before + TargetText(t[i..])
      == before + Group(t[i].0, t[i].1.operator, Shown(t[i].1.expression)) + TargetText(t[i + 1..])
  {
    assert t[i..][1..] == t[i + 1..];
  }

  // ---------- what a failed parse leaves behind ----------

  /** The targets held when the token loop stops, whether or not it failed. */
  function Gathered(s: string, seen: bool, t: Targets): Targets
    decreases |s|
  {
    TokenIsShorter(s);
    match NextToken(s)
    case End => t
    case Unclosed => t
    case Token(text, rest) =>
      if text != "(" then if seen then Gathered(rest, true, t) else t
      else
        match ParseGroup(rest)
        case Err(_) => t
        case Ok(p) => Gathered(p.rest, true, SetTarget(t, p.key, p.rule))
  }

  /** A loop that went through holds what it returned. */
  lemma {:induction false} GatheredAll(s: string, seen: bool, t: Targets)
    ensures ParseTargets(s, seen, t).Ok? ==> ParseTargets(s, seen, t).value == Gathered(s, seen, t)
    decreases |s|
  {
    TokenIsShorter(s);
    match NextToken(s)
    case End =>
    case Unclosed =>
    case Token(text, rest) =>
      if text != "(" {
        GatheredAll(rest, true, t);
      } else if ParseGroup(rest).Ok? {
        var p := ParseGroup(rest).value;
        GatheredAll(p.rest, true, SetTarget(t, p.key, p.rule));
      }
  }

  /** The fields after the action, the permissions and the bind rule were read as far as possible. */
  function AfterRules(f: Fields, body: string): Fields {
    match MatchPerms(body)
    case None => f
    case Some((action, perms, bind)) =>
      var g := f.(action := action, permissions := Unique(SplitOn(WithoutAll(perms, ' '), ',')));
      if ParseBind(bind).Ok? then g.(bind := ParseBind(bind).value) else g
  }

  function AfterParts(f: Fields, left: string, name: string, body: string): Fields {
    var g := f.(target := Gathered(left, false, f.target));
    if ParseTargets(left, false, f.target).Ok? then AfterRules(g.(name := name), body) else g
  }

  /** The fields after parsing a text: targets first, then the name, then the rest, up to the first error. */
  function AfterParse(f: Fields, s: string): Fields {
    match Find(s, VERSION)
    case None => f
    case Some(v) =>
      if v == 0 || MatchAci(s[v - 1..]).None? then f
      else AfterParts(f, s[..v - 1], MatchAci(s[v - 1..]).value.0, MatchAci(s[v - 1..]).value.1)
  }

  /** A parse that fails never touches the bind rule, and a field only once everything before it was read. */
  lemma {:induction false} FailedParse(f: Fields, s: string, v: nat, name: string, body: string)
    requires Parse(s, f.target).Err?
    ensures Find(s, VERSION).None? || Find(s, VERSION) == Some(0) ==> AfterParse(f, s) == f
    ensures Find(s, VERSION) == Some(v + 1) && MatchAci(s[v..]).None? ==> AfterParse(f, s) == f
    ensures Find(s, VERSION) == Some(v + 1) && MatchAci(s[v..]) == Some((name, body)) ==>
      match ParseTargets(s[..v], false, f.target)
      case Err(_) => AfterParse(f, s) == f.(target := Gathered(s[..v], false, f.target))
      case Ok(t) =>
        match MatchPerms(body)
        case None => AfterParse(f, s) == f.(target := t, name := name)
        case Some((action, perms, _)) =>
          AfterParse(f, s) == f.(target := t, name := name, action := action,
                                 permissions := Unique(SplitOn(WithoutAll(perms, ' '), ',')))
  {
    if Find(s, VERSION) == Some(v + 1) {
      GatheredAll(s[..v], false, f.target);
    }
  }

  /** The targets gathered by a loop that fails: those of the groups before the failure. */
  lemma {:induction false} GatheredUpTo(ts: seq<Target>, rest: string, seen: bool, t: Targets)
    requires forall i :: 0 <= i < |ts| ==> TargetWritten(ts[i])
    ensures Gathered(TargetsText(ts, rest), seen, t) == Gathered(rest, seen || ts != [], Added(t, ts))
    decreases |ts|
  {
    if ts != [] {
      var tail, next := TargetsText(ts[1..], rest), SetTarget(t, ts[0].key, RuleOf(ts[0].key, ts[0].operator, ts[0].value));
      BlankSkipped(ts[0].layout.before, ['('] + InnerText(ts[0], tail));
      CharToken('(', InnerText(ts[0], tail));
      LaidOutGroup(ts[0], tail);
      GatheredUpTo(ts[1..], rest, true, next);
    }
  }

  class ACI {
    var name: string
    var target: Targets
    var action: string
    var permissions: seq<string>
    var bindrule: Bind

    ghost function Now(): Fields
      reads this
    {
      Fields(name, target, action, permissions, bindrule)
    }

    constructor ()
      ensures Now() == Fields("", [], "allow", ["write"], Bind("", "", ""))
    {
      name, target, action, permissions, bindrule := "", [], "allow", ["write"], Bind("", "", "");
    }

    method Validate() returns (ok: bool)
      ensures ok == Validated(Now())
    {
      for i := 0 to |permissions|
        invariant forall j :: 0 <= j < i ==> Lower(permissions[j]) in PERMISSIONS
      {
        if Lower(permissions[i]) !in PERMISSIONS {
          return false;
        }
      }
      return name != "" && target != [] && bindrule.operator != "" && bindrule.keyword != "" && bindrule.expression != "";
    }

    /** The targets, printed in key order. */
    method ExportTargets() returns (aci: string)
      ensures aci == TargetText(Sorted(target))
    {
      var items := Sorted(target);
      aci := "";
      var i := 0;
      while i < |items|
        invariant 0 <= i <= |items| && aci + TargetText(items[i..]) == TargetText(items)
      {
        NextText(aci, items, i);
        var text := ShowTarget(items[i].0, items[i].1);
        aci := aci + text;
        i := i + 1;
      }
      assert items[i..] == [];
    }

    method ExportToString() returns (r: Result<string, Error>)
      ensures r == if Validated(Now()) then Ok(Exported(Now())) else Err(SyntaxError)
    {
      var ok := Validate();
      if !ok {
        return Err(SyntaxError);
      }
      var left := ExportTargets();
      var right := HEAD + name + "\";" + PermText(action, permissions, bindrule) + ";)";
      return Ok(left + right);
    }

    /** The token loop of `_parse_target`. */
    method ParseTarget(aci: string) returns (e: Option<Error>)
      modifies this`target
      ensures match ParseTargets(aci, false, old(target))
        case Ok(t) => e == None && target == t
        case Err(error) => e == Some(error)
      ensures target == Gathered(aci, false, old(target))
    {
      var rest, seen := aci, false;
      while true
        invariant ParseTargets(rest, seen, target) == ParseTargets(aci, false, old(target))
        invariant Gathered(rest, seen, target) == Gathered(aci, false, old(target))
        decreases |rest|
      {
        TokenIsShorter(rest);
        match NextToken(rest) {
          case End => return None;
          case Unclosed => return Some(NoClosingQuote);
          case Token(text, after) =>
            if text == "(" {
              match ParseGroup(after) {
                case Err(error) => return Some(error);
                case Ok(group) =>
                  target := SetTarget(target, group.key, group.rule);
                  rest, seen := group.rest, true;
              }
            } else if !seen {
              return Some(UnboundLocal);
            } else {
              rest := after;
            }
        }
      }
    }

    method SetBindrule(text: string) returns (e: Option<Error>)
      modifies this`bindrule
      ensures match ParseBind(text)
        case Ok(b) => e == None && bindrule == b
        case Err(error) => e == Some(error) && bindrule == old(bindrule)
    {
      if (text != "" && text[0] == '(') != (text != "" && text[|text| - 1] == ')') {
        return Some(SyntaxError);
      }
      var matched := MatchBind(text);
      if matched.None? {
        return Some(SyntaxError);
      }
      bindrule := matched.value;
      return None;
    }

    /** The action, the permissions and the bind rule. */
    method ParseRules(body: string) returns (e: Option<Error>)
      modifies this`action, this`permissions, this`bindrule
      ensures match ParseBody(name, target, body)
        case Ok(f) => e == None && Now() == f
        case Err(error) => e == Some(error)
      ensures Now() == AfterRules(old(Now()), body)
    {
      var perms := MatchPerms(body);
      if perms.None? {
        return Some(SyntaxError);
      }
      action := perms.value.0;
      permissions := UniqueList(SplitOn(WithoutAll(perms.value.1, ' '), ','));
      e := SetBindrule(perms.value.2);
    }

    method ParseParts(left: string, newName: string, body: string) returns (e: Option<Error>)
      modifies this
      ensures match ParseTargets(left, false, old(target))
        case Err(error) => e == Some(error)
        case Ok(t) =>
          match ParseBody(newName, t, body)
          case Ok(f) => e == None && Now() == f
          case Err(error) => e == Some(error)
      ensures Now() == AfterParts(old(Now()), left, newName, body)
    {
      e := ParseTarget(left);
      if e.None? {
        name := newName;
        e := ParseRules(body);
      }
    }

    method ParseAcistr(s: string) returns (e: Option<Error>)
      modifies this
      ensures match Parse(s, old(target))
        case Ok(f) => e == None && Now() == f
        case Err(error) => e == Some(error)
      ensures Now() == AfterParse(old(Now()), s)
    {
      var found := Find(s, VERSION);
      if found.None? || found.value == 0 {
        return Some(SyntaxError);
      }
      var v := found.value;
      var matched := MatchAci(s[v - 1..]);
      if matched.None? {
        return Some(SyntaxError);
      }
      e := ParseParts(s[..v - 1], matched.value.0, matched.value.1);
    }
  }

  /** A new object built from the exported text of another is its normal form, and its equal if there is nothing to lose. */
  method Reparse(a: ACI) returns (b: ACI, e: Option<Error>)
    ensures fresh(b)
    ensures Printable(a.Now()) ==> e == None && b.Now() == Normal(a.Now())
    ensures Printable(a.Now()) ==> (Same(a.Now(), b.Now()) <==> NothingToLose(a.Now()))
  {
    var r := a.ExportToString();
    b := new ACI();
    match r {
      case Err(error) => e := Some(error);
      case Ok(text) =>
        e := b.ParseAcistr(text);
        if Printable(a.Now()) {
          ParseExported(a.Now());
          SameAsNormalIff(a.Now());
        }
    }
  }
}
