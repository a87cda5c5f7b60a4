/**
 Access control instructions as people write them (ipalib/aci.py): any space where the lexer and the three patterns allow
 it, values with or without quotes, the keyword `aci` for `acl`, bind rules in parentheses.
 */
module AciLayout {
  import opened Common
  import opened AciText
  import opened Aci

  // ---------- targets ----------

  ghost predicate IsName(s: string) { s != "" && forall i :: 0 <= i < |s| ==> LexWord(s[i]) }

  ghost predicate IsMark(s: string) { |s| == 1 && LexMark(s[0]) && !In(Space, s[0]) }

  /** A value as written: in quotes, or bare if it is a name or a single mark. */
  ghost predicate WrittenAs(value: string, written: string) {
    || (written == "\"" + value + "\"" && All(Not('"'), value))
    || (written == value && (IsName(value) || IsMark(value)))
  }

  /** A target with the space before it, before its key, its operator, its value and its end, and inside a `!=`. */
  datatype Layout = Layout(before: string, open: string, key: string, bang: string, operator: string, end: string)

  ghost predicate LayoutOk(l: Layout) {
    Blank(l.before) && Blank(l.open) && Blank(l.key) && Blank(l.bang) && Blank(l.operator) && Blank(l.end)
  }

  datatype Target = Target(key: string, operator: string, value: string, written: string, layout: Layout)

  ghost predicate TargetWritten(t: Target) {
    IsName(t.key) && IsOperator(t.operator) && WrittenAs(t.value, t.written) && LayoutOk(t.layout)
  }

  function OperatorText(operator: string, bang: string, rest: string): string {
    if operator == "=" then ['='] + rest else ['!'] + (bang + (['='] + rest))
  }

  /** A target after its opening parenthesis, and what follows it. */
  function InnerText(t: Target, rest: string): string {
    var end := t.written + (t.layout.end + ([')'] + rest));
    t.layout.open + (t.key + (t.layout.key + OperatorText(t.operator, t.layout.bang, t.layout.operator + end)))
  }

  lemma {:induction false} DemandSkips(blank: string, s: string)
    requires Blank(blank)
    ensures Demand(blank + s) == Demand(s)
  {
    BlankSkipped(blank, s);
  }

  /** After a word, the space that ends it is gone and any other space is left. */
  lemma {:induction false} WordThen(word: string, gap: string, c: char, rest: string) returns (left: string)
    requires IsWord(word) && Blank(gap) && LexMark(c)
    ensures Demand(word + (gap + ([c] + rest))) == Ok((word, left + ([c] + rest))) && Blank(left)
  {
    if gap == "" {
      left := "";
      WordToken(word, c, rest);
      assert gap + ([c] + rest) == [c] + rest == left + ([c] + rest);
    } else {
      left := gap[1..];
      WordToken(word, gap[0], left + ([c] + rest));
      assert gap + ([c] + rest) == [gap[0]] + (left + ([c] + rest));
    }
  }

  lemma {:induction false} MarkThen(blank: string, c: char, rest: string)
    requires Blank(blank) && LexMark(c)
    ensures Demand(blank + ([c] + rest)) == Ok(([c], rest))
  {
    DemandSkips(blank, [c] + rest);
    CharToken(c, rest);
  }

  lemma {:induction false} OperatorReads(blank: string, operator: string, bang: string, rest: string)
    requires Blank(blank) && Blank(bang) && IsOperator(operator)
    ensures Operator(blank + OperatorText(operator, bang, rest)) == Ok((operator, rest))
  {
    if operator == "=" {
      MarkThen(blank, '=', rest);
    } else {
      MarkThen(blank, '!', bang + (['='] + rest));
      MarkThen(bang, '=', rest);
      assert ['!'] + ['='] == "!=" && !IsOperator(['!']);
    }
  }

  /** The quotes around a value go, and nothing else. */
  lemma {:induction false} ValueBare(value: string, written: string)
    requires WrittenAs(value, written)
    ensures RemoveQuotes(Strip(written)) == value
  {
    if written == "\"" + value + "\"" {
      QuotesRemoved(value);
    } else if IsName(value) {
      assert LexWord(value[0]) && LexWord(value[|value| - 1]);
      NameStripped(value);
    }
  }

  lemma {:induction false} QuotePieces(value: string, tail: string)
    ensures "\"" + value + "\"" + tail == ['"'] + (value + (['"'] + tail)) && "\"" + value + "\"" == ['"'] + value + ['"']
  {
  }

  lemma {:induction false} QuotedReads(value: string, tail: string)
    requires All(Not('"'), value)
    ensures Demand("\"" + value + "\"" + tail) == Ok(("\"" + value + "\"", tail))
  {
    QuotePieces(value, tail);
    DemandQuoted(value, tail, ['"'] + (value + (['"'] + tail)));
  }

  lemma {:induction false} DemandQuoted(value: string, tail: string, s: string)
    requires All(Not('"'), value) && s == ['"'] + (value + (['"'] + tail))
    ensures Demand(s) == Ok((['"'] + value + ['"'], tail))
  {
    QuotedToken('"', value, tail);
  }

  lemma {:induction false} MarkReads(value: string, tail: string)
    requires IsMark(value)
    ensures Demand(value + tail) == Ok((value, tail))
  {
    CharToken(value[0], tail);
    assert value == [value[0]];
  }

  /** The value and the closing parenthesis. */
  lemma {:induction false} ValueReads(value: string, written: string, gap: string, rest: string) returns (left: string)
    requires WrittenAs(value, written) && Blank(gap)
    ensures Demand(written + (gap + ([')'] + rest))) == Ok((written, left)) && Demand(left) == Ok(([')'], rest))
  {
    var tail := gap + ([')'] + rest);
    MarkThen(gap, ')', rest);
    left := tail;
    if written != value {
      QuotedReads(value, tail);
    } else if IsName(value) {
      var gap' := WordThen(value, gap, ')', rest);
      MarkThen(gap', ')', rest);
      left := gap' + ([')'] + rest);
    } else {
      MarkReads(value, tail);
    }
  }

  /** However it is laid out, a target parses to its key, operator and value, and leaves what follows it. */
  lemma {:induction false} LaidOutGroup(t: Target, rest: string)
    requires TargetWritten(t)
    ensures ParseGroup(InnerText(t, rest)) == Ok(Parsed(t.key, RuleOf(t.key, t.operator, t.value), rest))
  {
    var s4 := t.layout.end + ([')'] + rest);
    var s3 := t.written + s4;
    var s2 := t.layout.operator + s3;
    var s1 := OperatorText(t.operator, t.layout.bang, s2);
    var c, more := s1[0], s1[1..];
    assert s1 == [c] + more && LexMark(c);
    DemandSkips(t.layout.open, t.key + (t.layout.key + s1));
    var left := WordThen(t.key, t.layout.key, c, more);
    OperatorReads(left, t.operator, t.layout.bang, s2);
    DemandSkips(t.layout.operator, s3);
    var end := ValueReads(t.value, t.written, t.layout.end, rest);
    GroupOf(InnerText(t, rest), t.key, left + s1, t.operator, s2, t.written, end, rest);
    NameStripped(t.key);
    ValueBare(t.value, t.written);
  }

  /** The targets one after the other, and space after the last. */
  function TargetsText(ts: seq<Target>, end: string): string {
    if ts == [] then end else ts[0].layout.before + (['('] + InnerText(ts[0], TargetsText(ts[1..], end)))
  }

  /** The targets added to those there are; a key that is there already takes its new rule. */
  function Added(before: Targets, ts: seq<Target>): Targets
    decreases |ts|
  {
    if ts == [] then before
    else Added(SetTarget(before, ts[0].key, RuleOf(ts[0].key, ts[0].operator, ts[0].value)), ts[1..])
  }

  lemma {:induction false} LaidOutStep(t: Target, rest: string, seen: bool, before: Targets)
    requires TargetWritten(t)
    ensures ParseTargets(t.layout.before + (['('] + InnerText(t, rest)), seen, before)
      == ParseTargets(rest, true, SetTarget(before, t.key, RuleOf(t.key, t.operator, t.value)))
  {
    BlankSkipped(t.layout.before, ['('] + InnerText(t, rest));
    CharToken('(', InnerText(t, rest));
    LaidOutGroup(t, rest);
  }

  /** Targets parse however they are laid out. */
  lemma {:induction false} LaidOutTargets(ts: seq<Target>, end: string, seen: bool, before: Targets)
    requires Blank(end) && forall i :: 0 <= i < |ts| ==> TargetWritten(ts[i])
    ensures ParseTargets(TargetsText(ts, end), seen, before) == Ok(Added(before, ts))
    decreases |ts|
  {
    if ts == [] {
      BlankEnds(end);
    } else {
      LaidOutStep(ts[0], TargetsText(ts[1..], end), seen, before);
      LaidOutTargets(ts[1..], end, true, SetTarget(before, ts[0].key, RuleOf(ts[0].key, ts[0].operator, ts[0].value)));
    }
  }

  /** A key that is there keeps its place and takes the new rule. */
  lemma {:induction false} SetOldTarget(before: Targets, key: string, was: Rule, after: Targets, rule: Rule)
    requires forall i :: 0 <= i < |before| ==> before[i].0 != key
    ensures SetTarget(before + [(key, was)] + after, key, rule) == before + [(key, rule)] + after
  {
    var t := before + [(key, was)] + after;
    if before == [] {
      assert t[0] == (key, was) && t[1..] == after;
    } else {
      assert t[0] == before[0] && t[1..] == before[1..] + [(key, was)] + after;
      SetOldTarget(before[1..], key, was, after, rule);
      assert [before[0]] + (before[1..] + [(key, rule)] + after) == before + [(key, rule)] + after;
    }
  }

  // ---------- which targets are accepted ----------

  /** The first tokens of a text, at most `n`. */
  function Tokens(s: string, n: nat): seq<string>
    decreases n
  {
    if n == 0 then []
    else match NextToken(s)
      case End => []
      case Unclosed => []
      case Token(text, rest) => [text] + Tokens(rest, n - 1)
  }

  /** How the text ends when it has fewer than `n` tokens. */
  function Shortage(s: string, n: nat): Option<Error>
    decreases n
  {
    if n == 0 then None
    else match NextToken(s)
      case End => Some(StopIteration)
      case Unclosed => Some(NoClosingQuote)
      case Token(_, rest) => Shortage(rest, n - 1)
  }

  /** A token is a single mark, or starts like a word or a quoted text. */
  lemma {:induction false} TokenStarts(s: string)
    ensures NextToken(s).Token? ==> var text := NextToken(s).text;
      text != "" && (|text| == 1 || LexWord(text[0]) || LexQuote(text[0]))
    decreases |s|
  {
    if s != "" {
      if LexSpace(s[0]) {
        TokenStarts(s[1..]);
      } else if s[0] == '#' {
        TokenStarts(NextLine(s[1..]));
      } else if LexWord(s[0]) {
        WordStarts([s[0]], s[1..]);
      }
    }
  }

  lemma {:induction false} WordStarts(word: string, s: string)
    requires word != ""
    ensures RestOfWord(word, s).Token? && RestOfWord(word, s).text != "" && RestOfWord(word, s).text[0] == word[0]
    decreases |s|
  {
    if s != "" {
      if s[0] == '#' {
        WordStarts(word, NextLine(s[1..]));
      } else if LexWord(s[0]) || LexQuote(s[0]) {
        WordStarts(word + [s[0]], s[1..]);
      }
    }
  }

  lemma {:induction false} TokensStep(s: string, n: nat)
    ensures match NextToken(s)
      case End => Tokens(s, n + 1) == [] && Shortage(s, n + 1) == Some(StopIteration)
      case Unclosed => Tokens(s, n + 1) == [] && Shortage(s, n + 1) == Some(NoClosingQuote)
      case Token(text, rest) => Tokens(s, n + 1) == [text] + Tokens(rest, n) && Shortage(s, n + 1) == Shortage(rest, n)
  {
  }

  lemma {:induction false} TwoTokens(first: string, second: string)
    requires first != "" && (|first| == 1 || LexWord(first[0]) || LexQuote(first[0]))
    requires second != "" && !IsOperator(first)
    ensures IsOperator(first + second) <==> first == "!" && second == "="
  {
    if IsOperator(first + second) {
      assert (first + second)[0] == first[0] == '!' && (first + second)[1..] == second;
    }
  }

  /** The operator of a target, in one token or in two. */
  lemma {:induction false} OperatorIff(s: string, n: nat)
    requires n >= 2
    ensures match Operator(s)
      case Ok((operator, rest)) =>
        if operator == "=" then Tokens(s, n) == ["="] + Tokens(rest, n - 1) && Shortage(s, n) == Shortage(rest, n - 1)
        else Tokens(s, n) == ["!", "="] + Tokens(rest, n - 2) && Shortage(s, n) == Shortage(rest, n - 2)
      case Err(e) =>
        && !(Tokens(s, n) != [] && Tokens(s, n)[0] == "=")
        && !(|Tokens(s, n)| > 1 && Tokens(s, n)[0] == "!" && Tokens(s, n)[1] == "=")
        && e == match Shortage(s, 2) case Some(short) => short case None => SyntaxError
  {
    TokensStep(s, n - 1);
    TokensStep(s, 1);
    TokenStarts(s);
    if NextToken(s).Token? {
      var first, rest := NextToken(s).text, NextToken(s).rest;
      if IsOperator(first) {
        assert first == "=";
      } else {
        SecondToken(first, rest, n - 2);
      }
    }
  }

  /** The second token of an operator, if the first was none. */
  lemma {:induction false} SecondToken(first: string, rest: string, n: nat)
    requires first != "" && (|first| == 1 || LexWord(first[0]) || LexQuote(first[0])) && !IsOperator(first)
    ensures match NextToken(rest)
      case End => Tokens(rest, n + 1) == [] && Shortage(rest, 1) == Some(StopIteration)
      case Unclosed => Tokens(rest, n + 1) == [] && Shortage(rest, 1) == Some(NoClosingQuote)
      case Token(second, after) =>
        && Tokens(rest, n + 1) == [second] + Tokens(after, n) && Shortage(rest, n + 1) == Shortage(after, n)
        && Shortage(rest, 1) == None
        && (IsOperator(first + second) <==> first == "!" && second == "=")
  {
    TokensStep(rest, n);
    TokensStep(rest, 0);
    TokenStarts(rest);
    if NextToken(rest).Token? {
      TwoTokens(first, NextToken(rest).text);
    }
  }

  /** The tokens of a target: its key, its operator, its value and its end. */
  ghost predicate TargetTokens(ts: seq<string>) {
    || (|ts| >= 4 && ts[1] == "=" && ts[3] == ")")
    || (|ts| >= 5 && ts[1] == "!" && ts[2] == "=" && ts[4] == ")")
  }

  /** How many tokens it takes to accept or refuse a target. */
  function Demanded(ts: seq<string>): nat {
    if |ts| >= 2 && ts[1] == "=" then 4 else if |ts| >= 3 && ts[1] == "!" && ts[2] == "=" then 5 else 3
  }

  lemma {:induction false} ValueIff(s: string, n: nat)
    requires n >= 2
    ensures match Demand(s)
      case Err(e) => Tokens(s, n) == [] && Shortage(s, 2) == Some(e)
      case Ok((value, rest)) =>
        match Demand(rest)
        case Err(e) => Tokens(s, n) == [value] && Shortage(s, 2) == Some(e)
        case Ok((end, _)) => |Tokens(s, n)| >= 2 && Tokens(s, n)[..2] == [value, end] && Shortage(s, 2) == None
  {
    TokensStep(s, n - 1);
    TokensStep(s, 1);
    if NextToken(s).Token? {
      TokensStep(NextToken(s).rest, n - 2);
      TokensStep(NextToken(s).rest, 0);
    }
  }

  /** What the first tokens of a target say about it. */
  ghost predicate ReadAs(r: Result<Parsed, Error>, ts: seq<string>, short: Option<Error>) {
    match r
    case Ok(p) =>
      && TargetTokens(ts) && p.key == Strip(ts[0])
      && p.rule == if ts[1] == "=" then RuleOf(p.key, "=", RemoveQuotes(Strip(ts[2])))
                   else RuleOf(p.key, "!=", RemoveQuotes(Strip(ts[3])))
    case Err(e) => !TargetTokens(ts) && e == if short.Some? then short.value else SyntaxError
  }

  lemma {:induction false} EqualsRest(s: string, key: string, s1: string, s2: string)
    requires Demand(s) == Ok((key, s1)) && Operator(s1) == Ok(("=", s2))
    ensures Tokens(s, 5) == [key, "="] + Tokens(s2, 3) && Shortage(s, 4) == Shortage(s2, 2)
  {
    TokensStep(s, 4);
    TokensStep(s, 3);
    OperatorIff(s1, 4);
    assert Tokens(s, 5) == [key] + (["="] + Tokens(s2, 3));
    OperatorIff(s1, 3);
  }

  lemma {:induction false} DiffersRest(s: string, key: string, s1: string, s2: string)
    requires Demand(s) == Ok((key, s1)) && Operator(s1) == Ok(("!=", s2))
    ensures Tokens(s, 5) == [key, "!", "="] + Tokens(s2, 2) && Shortage(s, 5) == Shortage(s2, 2)
  {
    TokensStep(s, 4);
    OperatorIff(s1, 4);
  }

  lemma {:induction false} GroupRest(s: string, key: string, s1: string, operator: string, s2: string)
    requires Demand(s) == Ok((key, s1)) && Operator(s1) == Ok((operator, s2))
    ensures ReadAs(ParseGroup(s), Tokens(s, 5), Shortage(s, Demanded(Tokens(s, 5))))
  {
    if operator == "=" {
      EqualsRest(s, key, s1, s2);
      ValueIff(s2, 3);
    } else {
      DiffersRest(s, key, s1, s2);
      ValueIff(s2, 2);
    }
  }

  /** A target is accepted exactly if its tokens are those of a target; otherwise the text is too short or refused. */
  lemma {:induction false} GroupIff(s: string)
    ensures ReadAs(ParseGroup(s), Tokens(s, 5), Shortage(s, Demanded(Tokens(s, 5))))
  {
    TokensStep(s, 4);
    TokensStep(s, 2);
    if NextToken(s).Token? {
      var key, s1 := NextToken(s).text, NextToken(s).rest;
      if Operator(s1).Ok? {
        GroupRest(s, key, s1, Operator(s1).value.0, Operator(s1).value.1);
      } else {
        OperatorIff(s1, 4);
      }
    }
  }

  /** Reading targets fails for a missing parenthesis exactly if the first token is not one. */
  lemma {:induction false} UnboundIff(s: string, t: Targets)
    ensures ParseTargets(s, false, t) == Err(UnboundLocal) <==> NextToken(s).Token? && NextToken(s).text != "("
  {
    if NextToken(s).Token? && NextToken(s).text == "(" && ParseGroup(NextToken(s).rest).Ok? {
      var p := ParseGroup(NextToken(s).rest).value;
      SeenStaysBound(p.rest, SetTarget(t, p.key, p.rule));
    } else if NextToken(s).Token? && NextToken(s).text == "(" {
      GroupIff(NextToken(s).rest);
      ShortageKind(NextToken(s).rest, Demanded(Tokens(NextToken(s).rest, 5)));
    }
  }

  lemma {:induction false} ShortageKind(s: string, n: nat)
    ensures Shortage(s, n) != Some(UnboundLocal)
    decreases n
  {
    if n > 0 && NextToken(s).Token? {
      ShortageKind(NextToken(s).rest, n - 1);
    }
  }

  lemma {:induction false} SeenStaysBound(s: string, t: Targets)
    ensures ParseTargets(s, true, t) != Err(UnboundLocal)
    decreases |s|
  {
    TokenIsShorter(s);
    if NextToken(s).Token? {
      var rest := NextToken(s).rest;
      if NextToken(s).text != "(" {
        SeenStaysBound(rest, t);
      } else {
        GroupIff(rest);
        ShortageKind(rest, Demanded(Tokens(rest, 5)));
        if ParseGroup(rest).Ok? {
          var p := ParseGroup(rest).value;
          SeenStaysBound(p.rest, SetTarget(t, p.key, p.rule));
        }
      }
    }
  }
}
