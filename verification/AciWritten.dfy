/**
 The three patterns of ipalib/aci.py on texts as people write them: each matches exactly the texts of a form, with any
 space where the pattern allows it, and reads off their parts.
 */
module AciWritten {
  import opened Common
  import opened AciText
  import opened Aci
  import opened AciLayout

  // ---------- pieces of a pattern ----------

  /** The text does not start with space. */
  predicate Solid(s: string) { s == "" || !In(Space, s[0]) }

  lemma {:induction false} GapSkipped(gap: string, rest: string)
    requires All(Space, gap) && Solid(rest)
    ensures Skip(gap + rest) == rest && Run(Space, gap + rest) == |gap|
  {
    RunStops(Space, gap, rest);
  }

  lemma {:induction false} RunTaken(k: Class, s: string) returns (a: string, b: string)
    ensures s == a + b && |a| == Run(k, s) && All(k, a) && (b == "" || !In(k, b[0]))
  {
    if s == "" || !In(k, s[0]) {
      a, b := "", s;
    } else {
      a, b := RunTaken(k, s[1..]);
      a := [s[0]] + a;
    }
  }

  lemma {:induction false} GapTaken(s: string) returns (gap: string)
    ensures s == gap + Skip(s) && All(Space, gap) && Solid(Skip(s)) && |gap| == Run(Space, s)
  {
    var rest;
    gap, rest := RunTaken(Space, s);
  }

  lemma {:induction false} LitTaken(s: string, lit: string)
    requires Lit(Some(s), lit).Some?
    ensures s == lit + Lit(Some(s), lit).value
  {
  }

  // ---------- the bind rule ----------

  /** No quote before the end of the line. */
  ghost predicate NoQuoteOnLine(s: string) { forall i :: 0 <= i < Run(Line, s) ==> s[i] != '"' }

  lemma {:induction false} LastQuoteIs(s: string, p: nat, n: nat)
    requires p < n <= |s| && s[p] == '"' && forall i :: p < i < n ==> s[i] != '"'
    ensures LastQuote(s, n) == Some(p)
  {
    if n > p + 1 {
      LastQuoteIs(s, p, n - 1);
    }
  }

  lemma {:induction false} LastQuoteFound(s: string, n: nat)
    requires n <= |s|
    ensures match LastQuote(s, n)
      case None => forall i :: 0 <= i < n ==> s[i] != '"'
      case Some(p) => s[p] == '"' && forall i :: p < i < n ==> s[i] != '"'
  {
    if n > 0 {
      LastQuoteFound(s, n - 1);
    }
  }

  lemma {:induction false} RunSum(k: Class, a: string, b: string)
    requires All(k, a)
    ensures Run(k, a + b) == |a| + Run(k, b)
  {
    if a == "" {
      assert a + b == b;
    } else {
      assert (a + b)[1..] == a[1..] + b;
      RunSum(k, a[1..], b);
    }
  }

  lemma {:induction false} QuoteReads(e: string, tail: string)
    requires All(Line, e) && NoQuoteOnLine(tail)
    ensures UpToQuote(e + ("\"" + tail)) == Some(WithoutAll(e, '"'))
  {
    var r := e + ("\"" + tail);
    var front := e + "\"";
    assert r == front + tail;
    RunSum(Line, front, tail);
    LastQuoteIs(r, |e|, Run(Line, r));
    assert r[..|e|] == e;
  }

  lemma {:induction false} QuoteTaken(r: string) returns (e: string, tail: string)
    requires UpToQuote(r).Some?
    ensures r == e + ("\"" + tail) && All(Line, e) && NoQuoteOnLine(tail) && UpToQuote(r).value == WithoutAll(e, '"')
  {
    var line, after := RunTaken(Line, r);
    LastQuoteFound(r, |line|);
    var p := LastQuote(r, |line|).value;
    e, tail := r[..p], r[p + 1..];
    QuoteSplits(r, p, |line|);
  }

  lemma {:induction false} RunRest(k: Class, s: string, p: nat)
    requires p <= Run(k, s)
    ensures Run(k, s[p..]) == Run(k, s) - p && All(k, s[..p])
  {
    if p > 0 {
      RunRest(k, s[1..], p - 1);
      assert s[1..][p - 1..] == s[p..] && s[..p] == [s[0]] + s[1..][..p - 1];
    } else {
      assert s[0..] == s;
    }
  }

  lemma {:induction false} QuoteSplits(r: string, p: nat, n: nat)
    requires p < n == Run(Line, r) <= |r| && r[p] == '"'
    requires forall i :: p < i < n ==> r[i] != '"'
    ensures r == r[..p] + ("\"" + r[p + 1..]) && All(Line, r[..p]) && NoQuoteOnLine(r[p + 1..])
  {
    RunRest(Line, r, p);
    RunRest(Line, r, p + 1);
  }

  /** A bind rule as written, after an opening parenthesis if there is one. */
  datatype BindForm = BindForm(keyword: string, gap: string, operator: string, space: string, expression: string, tail: string)

  ghost predicate BindFormOk(b: BindForm) {
    && b.keyword != "" && All(Keyword, b.keyword) && IsOperator(b.operator)
    && All(Space, b.gap) && All(Space, b.space) && All(Line, b.expression) && NoQuoteOnLine(b.tail)
  }

  function ComparisonForm(b: BindForm): string {
    b.operator + (b.space + ("\"" + (b.expression + ("\"" + b.tail))))
  }

  function BindFormText(b: BindForm): string { b.keyword + (b.gap + ComparisonForm(b)) }

  function BindOfForm(b: BindForm): Bind { Bind(b.keyword, b.operator, WithoutAll(b.expression, '"')) }

  lemma {:induction false} ComparisonFormReads(b: BindForm)
    requires BindFormOk(b)
    ensures MatchComparison(ComparisonForm(b)) == Some((b.operator, WithoutAll(b.expression, '"')))
  {
    var r := b.expression + ("\"" + b.tail);
    var s := ComparisonForm(b);
    assert ("!=" <= s) == (b.operator == "!=") by {
      assert s[0] == b.operator[0];
    }
    LitEats(b.operator, b.space + ("\"" + r));
    GapSkipped(b.space, "\"" + r);
    LitEats("\"", r);
    QuoteReads(b.expression, b.tail);
  }

  lemma {:induction false} ComparisonTaken(s: string) returns (operator: string, space: string, e: string, tail: string)
    requires MatchComparison(s).Some?
    ensures s == operator + (space + ("\"" + (e + ("\"" + tail)))) && IsOperator(operator)
    ensures All(Space, space) && All(Line, e) && NoQuoteOnLine(tail)
    ensures MatchComparison(s).value == (operator, WithoutAll(e, '"'))
  {
    operator := if "!=" <= s then "!=" else "=";
    LitTaken(s, operator);
    var rest := Lit(Some(s), operator).value;
    space := GapTaken(rest);
    LitTaken(Skip(rest), "\"");
    e, tail := QuoteTaken(Lit(Some(Skip(rest)), "\"").value);
  }

  ghost predicate Opens(open: string) { open == "" || open == "(" }

  predicate EndsInParen(s: string) { s != "" && s[|s| - 1] == ')' }

  /** A text of the form gives its keyword, operator and expression, if its parentheses match. */
  lemma {:induction false} BindFormReads(open: string, b: BindForm)
    requires Opens(open) && BindFormOk(b)
    ensures var s := open + BindFormText(b);
      && MatchBind(s) == Some(BindOfForm(b))
      && ParseBind(s) == if (open == "(") == EndsInParen(s) then Ok(BindOfForm(b)) else Err(SyntaxError)
  {
    var text, s := BindFormText(b), open + BindFormText(b);
    assert In(Keyword, b.keyword[0]);
    assert text[0] == b.keyword[0] && text[0] != '(';
    assert (if s[0] == '(' then s[1..] else s) == text;
    BindTextReads(b);
  }

  lemma {:induction false} BindTextReads(b: BindForm)
    requires BindFormOk(b)
    ensures Run(Keyword, BindFormText(b)) == |b.keyword| && BindFormText(b)[..|b.keyword|] == b.keyword
    ensures MatchComparison(Skip(BindFormText(b)[|b.keyword|..])) == Some((b.operator, WithoutAll(b.expression, '"')))
  {
    var rest := b.gap + ComparisonForm(b);
    assert rest[0] == if b.gap == "" then b.operator[0] else b.gap[0];
    assert !In(Keyword, rest[0]);
    RunStops(Keyword, b.keyword, rest);
    GapSkipped(b.gap, ComparisonForm(b));
    ComparisonFormReads(b);
  }

  lemma {:induction false} BindTextTaken(s: string, n: nat) returns (b: BindForm)
    requires 0 < n == Run(Keyword, s) && MatchComparison(Skip(s[n..])).Some?
    ensures BindFormOk(b) && s == BindFormText(b) && b.keyword == s[..n]
    ensures MatchComparison(Skip(s[n..])).value == (b.operator, WithoutAll(b.expression, '"'))
  {
    var keyword, rest := RunTaken(Keyword, s);
    assert s[..n] == keyword && s[n..] == rest;
    var gap := GapTaken(rest);
    var operator, space, e, tail := ComparisonTaken(Skip(rest));
    b := BindForm(keyword, gap, operator, space, e, tail);
  }

  /** And only such a text does. */
  lemma {:induction false} BindTaken(s: string) returns (open: string, b: BindForm)
    requires MatchBind(s).Some?
    ensures Opens(open) && BindFormOk(b) && s == open + BindFormText(b) && MatchBind(s).value == BindOfForm(b)
    ensures ParseBind(s).Ok? <==> (open == "(") == EndsInParen(s)
  {
    var s0 := if s != "" && s[0] == '(' then s[1..] else s;
    open := if s != "" && s[0] == '(' then "(" else "";
    assert s == open + s0;
    b := BindTextTaken(s0, Run(Keyword, s0));
    BindFormReads(open, b);
  }

  // ---------- the permissions ----------

  /** Action, permissions and bind rule as written; `after` is what follows the line of the bind rule. */
  datatype PermForm = PermForm(action: string, gap: string, permissions: string, space: string, bind: string, after: string)

  ghost predicate PermFormOk(m: PermForm) {
    && m.action != "" && All(Word, m.action) && All(Space, m.gap) && All(NotParen, m.permissions) && All(Space, m.space)
    && All(Line, m.bind) && Solid(m.bind + m.after) && (m.after == "" || !In(Line, m.after[0]))
  }

  function PermFormText(m: PermForm): string {
    m.action + (m.gap + ("(" + (m.permissions + (")" + (m.space + (m.bind + m.after))))))
  }

  lemma {:induction false} PermFormReads(m: PermForm)
    requires PermFormOk(m)
    ensures MatchPerms(PermFormText(m)) == Some((m.action, m.permissions, m.bind))
  {
    var list := m.permissions + (")" + (m.space + (m.bind + m.after)));
    var rest := m.gap + ("(" + list);
    assert rest[0] == if m.gap == "" then '(' else m.gap[0];
    assert !In(Word, rest[0]);
    RunStops(Word, m.action, rest);
    GapSkipped(m.gap, "(" + list);
    LitEats("(", list);
    ListFormReads(m);
  }

  lemma {:induction false} ListFormReads(m: PermForm)
    requires PermFormOk(m)
    ensures ParenList(m.permissions + (")" + (m.space + (m.bind + m.after)))) == Some((m.permissions, m.bind))
  {
    var rest := m.space + (m.bind + m.after);
    RunStops(NotParen, m.permissions, ")" + rest);
    LitEats(")", rest);
    GapSkipped(m.space, m.bind + m.after);
    RunStops(Line, m.bind, m.after);
  }

  lemma {:induction false} PermsTaken(s: string) returns (m: PermForm)
    requires MatchPerms(s).Some?
    ensures PermFormOk(m) && s == PermFormText(m) && MatchPerms(s).value == (m.action, m.permissions, m.bind)
  {
    var action, rest := RunTaken(Word, s);
    var gap := GapTaken(rest);
    LitTaken(Skip(rest), "(");
    var r := Lit(Some(Skip(rest)), "(").value;
    var permissions, more := RunTaken(NotParen, r);
    LitTaken(more, ")");
    var after := Lit(Some(more), ")").value;
    var space := GapTaken(after);
    var bind, last := RunTaken(Line, Skip(after));
    m := PermForm(action, gap, permissions, space, bind, last);
  }

  // ---------- the instruction ----------

  ghost predicate AcKeyword(s: string) { s == "acl" || s == "aci" }

  /** The head of an instruction as written, up to the opening quote of the name. */
  datatype HeadForm = HeadForm(gap: string, space: string, keyword: string, quote: string)

  ghost predicate HeadFormOk(h: HeadForm) {
    All(Space, h.gap) && All(Space, h.space) && AcKeyword(h.keyword) && h.quote != "" && All(Space, h.quote)
  }

  function HeadFormText(h: HeadForm, rest: string): string {
    "(" + (VERSION + (h.gap + (";" + (h.space + (h.keyword + (h.quote + ("\"" + rest)))))))
  }

  lemma {:induction false} VersionPieces(rest: string)
    ensures "(" + (VERSION + rest) == "(version" + (" " + ("3" + ("." + ("0" + rest))))
  {
  }

  lemma {:induction false} KeywordReads(h: HeadForm, rest: string)
    requires HeadFormOk(h)
    ensures Lit(SomeSpaces(AcWord(Some(h.keyword + (h.quote + ("\"" + rest))))), "\"") == Some(rest)
  {
    var tail := h.quote + ("\"" + rest);
    var s := h.keyword + tail;
    LitEats(h.keyword, tail);
    assert h.keyword == "aci" ==> s[2] == 'i' && !("acl" <= s);
    GapSkipped(h.quote, "\"" + rest);
    LitEats("\"", rest);
  }

  lemma {:induction false} HeadReads(h: HeadForm, rest: string)
    requires HeadFormOk(h)
    ensures AfterHead(HeadFormText(h, rest)) == Some(rest)
  {
    var word := h.keyword + (h.quote + ("\"" + rest));
    var semi := ";" + (h.space + word);
    VersionPieces(h.gap + semi);
    LitEats("(version", " " + ("3" + ("." + ("0" + (h.gap + semi)))));
    VersionEats(h.gap + semi);
    GapSkipped(h.gap, semi);
    LitEats(";", h.space + word);
    assert word[0] == 'a';
    GapSkipped(h.space, word);
    KeywordReads(h, rest);
  }

  lemma {:induction false} VersionTaken(s: string) returns (space: string, dot: char, rest: string)
    requires Lit(AnyChar(Lit(SomeSpaces(Some(s)), "3")), "0").Some?
    ensures Lit(AnyChar(Lit(SomeSpaces(Some(s)), "3")), "0") == Some(rest)
    ensures s == space + ("3" + ([dot] + ("0" + rest))) && space != "" && All(Space, space)
  {
    space := GapTaken(s);
    LitTaken(Skip(s), "3");
    var more := Lit(Some(Skip(s)), "3").value;
    dot := more[0];
    assert more == [dot] + more[1..];
    LitTaken(more[1..], "0");
    rest := Lit(Some(more[1..]), "0").value;
  }

  lemma {:induction false} KeywordTaken(s: string) returns (keyword: string, quote: string, rest: string)
    requires Lit(SomeSpaces(AcWord(Some(s))), "\"").Some?
    ensures Lit(SomeSpaces(AcWord(Some(s))), "\"") == Some(rest)
    ensures s == keyword + (quote + ("\"" + rest)) && AcKeyword(keyword) && quote != "" && All(Space, quote)
  {
    keyword := if Lit(Some(s), "acl").Some? then "acl" else "aci";
    LitTaken(s, keyword);
    var more := Lit(Some(s), keyword).value;
    quote := GapTaken(more);
    LitTaken(Skip(more), "\"");
    rest := Lit(Some(Skip(more)), "\"").value;
  }

  lemma {:induction false} SemicolonTaken(s: string) returns (gap: string, space: string, rest: string)
    requires Spaces(Lit(Spaces(Some(s)), ";")).Some?
    ensures Spaces(Lit(Spaces(Some(s)), ";")) == Some(rest)
    ensures s == gap + (";" + (space + rest)) && All(Space, gap) && All(Space, space) && Solid(rest)
  {
    gap := GapTaken(s);
    LitTaken(Skip(s), ";");
    var more := Lit(Some(Skip(s)), ";").value;
    space := GapTaken(more);
    rest := Skip(more);
  }

  lemma {:induction false} SemicolonReads(gap: string, space: string, rest: string)
    requires All(Space, gap) && All(Space, space) && Solid(rest)
    ensures Spaces(Lit(Spaces(Some(gap + (";" + (space + rest)))), ";")) == Some(rest)
  {
    GapSkipped(gap, ";" + (space + rest));
    LitEats(";", space + rest);
    GapSkipped(space, rest);
  }

  /** Only texts that start with a head match; the version may be spelled with any character for its dot. */
  lemma {:induction false} HeadTaken(s: string) returns (version: string, dot: char, h: HeadForm, rest: string)
    requires AfterHead(s).Some?
    ensures AfterHead(s) == Some(rest) && HeadFormOk(h) && version != "" && All(Space, version)
    ensures s == "(version" + (version + ("3" + ([dot] + ("0" + (h.gap + (";" + (h.space + (h.keyword + (h.quote + ("\"" + rest))))))))))
  {
    LitTaken(s, "(version");
    var number := Lit(Some(s), "(version").value;
    var semi, word;
    version, dot, semi := VersionTaken(number);
    var gap, space;
    gap, space, word := SemicolonTaken(semi);
    var keyword, quote;
    keyword, quote, rest := KeywordTaken(word);
    h := HeadForm(gap, space, keyword, quote);
  }

  lemma {:induction false} NameFormReads(name: string, gap: string, space: string, line: string)
    requires All(Not('"'), name) && All(Space, gap) && All(Space, space) && Solid(line)
    ensures QuotedName(name + ("\"" + (gap + (";" + (space + line))))) == Some((name, line))
  {
    var rest := gap + (";" + (space + line));
    var r := name + ("\"" + rest);
    RunStops(Not('"'), name, "\"" + rest);
    assert r[|name| + 1..] == rest;
    SemicolonReads(gap, space, line);
  }

  lemma {:induction false} NameTaken(r: string) returns (name: string, gap: string, space: string, line: string)
    requires QuotedName(r).Some?
    ensures QuotedName(r) == Some((name, line)) && r == name + ("\"" + (gap + (";" + (space + line))))
    ensures All(Not('"'), name) && All(Space, gap) && All(Space, space) && Solid(line)
  {
    var tail;
    name, tail := RunTaken(Not('"'), r);
    assert tail == "\"" + tail[1..] && r[|name| + 1..] == tail[1..] && r[..|name|] == name;
    gap, space, line := SemicolonTaken(tail[1..]);
  }

  /** An end of the instruction at position `p`. */
  predicate EndsAt(s: string, p: nat) { p < |s| && s[p] == ';' && Closes(s[p + 1..]) }

  ghost predicate NoEnd(s: string, from: nat, to: nat) { forall i :: from <= i < to ==> !EndsAt(s, i) }

  lemma {:induction false} LastEndStep(s: string, n: nat)
    requires n < |s|
    ensures LastEnd(s, n + 1) == if EndsAt(s, n) then Some(n) else LastEnd(s, n)
  {
  }

  lemma {:induction false} NoEndNext(s: string, from: nat, n: nat)
    requires NoEnd(s, from, n) && !EndsAt(s, n)
    ensures NoEnd(s, from, n + 1)
  {
  }

  lemma {:induction false} LastEndIs(s: string, n: nat)
    requires n <= |s|
    ensures LastEnd(s, n).None? ==> NoEnd(s, 0, n)
    ensures LastEnd(s, n).Some? ==> EndsAt(s, LastEnd(s, n).value) && NoEnd(s, LastEnd(s, n).value + 1, n)
  {
    if n > 0 {
      LastEndStep(s, n - 1);
      if !EndsAt(s, n - 1) {
        LastEndIs(s, n - 1);
        NoEndNext(s, if LastEnd(s, n).Some? then LastEnd(s, n).value + 1 else 0, n - 1);
      }
    }
  }

  lemma {:induction false} LastEndOnly(s: string, p: nat, n: nat)
    requires p < n <= |s| && EndsAt(s, p) && NoEnd(s, p + 1, n)
    ensures LastEnd(s, n) == Some(p)
  {
    LastEndStep(s, n - 1);
    if p < n - 1 {
      LastEndOnly(s, p, n - 1);
    }
  }

  /** The part of a text before its last end on the first line. */
  ghost predicate BeforeEnd(s: string, body: string) {
    body <= s && |body| < Run(Line, s) && EndsAt(s, |body|) && NoEnd(s, |body| + 1, Run(Line, s))
  }

  /** Exactly that part is read. */
  lemma {:induction false} UpToEndIff(s: string, body: string)
    ensures UpToEnd(s) == Some(body) <==> BeforeEnd(s, body)
  {
    if BeforeEnd(s, body) {
      LastEndOnly(s, |body|, Run(Line, s));
      assert s[..|body|] == body;
    }
    if UpToEnd(s) == Some(body) {
      LastEndIs(s, Run(Line, s));
    }
  }

  /** An instruction as written: its head, its name, and permissions and bind rule up to the last end on their line. */
  datatype AciForm = AciForm(head: HeadForm, name: string, gap: string, space: string, body: string, tail: string)

  ghost predicate AciFormOk(a: AciForm) {
    && HeadFormOk(a.head) && All(Not('"'), a.name) && All(Space, a.gap) && All(Space, a.space)
    && Solid(a.body + a.tail) && BeforeEnd(a.body + a.tail, a.body)
  }

  function AciFormText(a: AciForm): string {
    HeadFormText(a.head, a.name + ("\"" + (a.gap + (";" + (a.space + (a.body + a.tail))))))
  }

  lemma {:induction false} AciFormReads(a: AciForm)
    requires AciFormOk(a)
    ensures MatchAci(AciFormText(a)) == Some((a.name, a.body))
  {
    HeadReads(a.head, a.name + ("\"" + (a.gap + (";" + (a.space + (a.body + a.tail))))));
    NameFormReads(a.name, a.gap, a.space, a.body + a.tail);
    UpToEndIff(a.body + a.tail, a.body);
  }

  lemma {:induction false} BodyTaken(line: string) returns (body: string, tail: string)
    requires UpToEnd(line).Some?
    ensures UpToEnd(line) == Some(body) && line == body + tail && BeforeEnd(line, body)
  {
    body := UpToEnd(line).value;
    UpToEndIff(line, body);
    tail := line[|body|..];
  }

  /** Only such a text matches, the spelling of its version aside. */
  lemma {:induction false} AciTaken(s: string) returns (version: string, dot: char, a: AciForm)
    requires MatchAci(s).Some?
    ensures AciFormOk(a) && MatchAci(s).value == (a.name, a.body)
    ensures version != "" && All(Space, version)
    ensures s == "(version" + (version + ("3" + ([dot] + ("0" + AciFormText(a)[|VERSION| + 1..]))))
  {
    var h, rest;
    version, dot, h, rest := HeadTaken(s);
    var name, gap, space, line := NameTaken(rest);
    var body, tail := BodyTaken(line);
    a := AciForm(h, name, gap, space, body, tail);
    HeadRest(h, rest);
  }

  lemma {:induction false} HeadRest(h: HeadForm, rest: string)
    ensures HeadFormText(h, rest)[|VERSION| + 1..]
      == h.gap + (";" + (h.space + (h.keyword + (h.quote + ("\"" + rest)))))
  {
  }

  // ---------- the whole text ----------

  /** An instruction as written. */
  datatype Written = Written(targets: seq<Target>, end: string, aci: AciForm, perms: PermForm, open: string, bind: BindForm)

  ghost predicate WrittenOk(w: Written) {
    && (forall i :: 0 <= i < |w.targets| ==> TargetWritten(w.targets[i])) && Blank(w.end)
    && AciFormOk(w.aci) && w.aci.body == PermFormText(w.perms) && PermFormOk(w.perms)
    && w.perms.bind == w.open + BindFormText(w.bind) && Opens(w.open) && BindFormOk(w.bind)
  }

  function LeftText(w: Written): string { TargetsText(w.targets, w.end) }

  function FieldsOf(w: Written, t: Targets): Fields {
    Fields(w.aci.name, Added(t, w.targets), w.perms.action, Unique(SplitOn(WithoutAll(w.perms.permissions, ' '), ',')),
           BindOfForm(w.bind))
  }

  lemma {:induction false} ParseHalves(left: string, right: string, t: Targets)
    requires Find(left + right, VERSION) == Some(|left| + 1)
    ensures Parse(left + right, t) ==
      match MatchAci(right)
      case None => Err(SyntaxError)
      case Some((name, body)) =>
        match ParseTargets(left, false, t)
        case Err(e) => Err(e)
        case Ok(target) => ParseBody(name, target, body)
  {
    var s := left + right;
    assert s[..|left|] == left && s[|left|..] == right;
  }

  lemma {:induction false} FormStarts(a: AciForm) returns (rest: string)
    ensures AciFormText(a) == "(" + (VERSION + rest)
  {
    var name := a.name + ("\"" + (a.gap + (";" + (a.space + (a.body + a.tail)))));
    rest := a.head.gap + (";" + (a.head.space + (a.head.keyword + (a.head.quote + ("\"" + name)))));
  }

  lemma {:induction false} WrittenBody(w: Written, t: Targets)
    requires WrittenOk(w)
    ensures ParseBody(w.aci.name, t, w.aci.body) ==
      if (w.open == "(") == EndsInParen(w.perms.bind)
      then Ok(FieldsOf(w, []).(target := t)) else Err(SyntaxError)
  {
    PermFormReads(w.perms);
    BindFormReads(w.open, w.bind);
  }

  /**
   However an instruction is written, parsing reads its parts, as long as its targets do not hold the version marker. The
   targets are added to those there are. Parentheses of the bind rule that do not match are refused.
   */
  lemma {:induction false} ParseWritten(w: Written, t: Targets)
    requires WrittenOk(w) && Find(LeftText(w), VERSION).None?
    ensures Parse(LeftText(w) + AciFormText(w.aci), t) ==
      if (w.open == "(") == EndsInParen(w.perms.bind) then Ok(FieldsOf(w, t)) else Err(SyntaxError)
  {
    var right := AciFormText(w.aci);
    var rest := FormStarts(w.aci);
    VersionFound(LeftText(w), rest);
    ParseHalves(LeftText(w), right, t);
    AciFormReads(w.aci);
    LaidOutTargets(w.targets, w.end, false, t);
    WrittenBody(w, Added(t, w.targets));
  }
}
