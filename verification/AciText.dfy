/**
 Scanning helpers for ipalib/aci.py: character classes and the longest runs its regular expressions match, splitting
 and joining, and the tokens of Python's non-POSIX `shlex` with "." added to the word characters. Classes are ASCII.
 */
module AciText {
  import opened Common

  predicate Alnum(c: char) { 'a' <= c <= 'z' || 'A' <= c <= 'Z' || '0' <= c <= '9' }

  const SMALL := "abcdefghijklmnopqrstuvwxyz"
  const CAPITAL := "ABCDEFGHIJKLMNOPQRSTUVWXYZ"
  const DIGITS := "0123456789"

  lemma {:induction false} SmallIff(c: char)
    ensures c in SMALL <==> 'a' <= c <= 'z'
  {
    if 'a' <= c <= 'z' {
      assert SMALL[c as int - 'a' as int] == c;
    }
  }

  lemma {:induction false} CapitalIff(c: char)
    ensures c in CAPITAL <==> 'A' <= c <= 'Z'
  {
    if 'A' <= c <= 'Z' {
      assert CAPITAL[c as int - 'A' as int] == c;
    }
  }

  lemma {:induction false} DigitIff(c: char)
    ensures c in DIGITS <==> '0' <= c <= '9'
  {
    if '0' <= c <= '9' {
      assert DIGITS[c as int - '0' as int] == c;
    }
  }

  lemma {:induction false} AlnumIff(c: char)
    ensures Alnum(c) <==> c in SMALL || c in CAPITAL || c in DIGITS
  {
    SmallIff(c);
    CapitalIff(c);
    DigitIff(c);
  }

  datatype Class =
    | Space
    | Word
    | Keyword
    | Attr
    | NotAttr
    | NotParen
    | Line
    | Not(c: char)

  predicate In(k: Class, c: char) {
    match k
    case Space => c == ' ' || '\t' <= c <= '\r' || '\U{1c}' <= c <= '\U{1f}'
    case Word => Alnum(c) || c == '_'
    case Keyword => Alnum(c) || c == ';' || c == '.'
    case Attr => Alnum(c) || c == ';' || c == '*'
    case NotAttr => !(Alnum(c) || c == ';' || c == '*')
    case NotParen => c != '(' && c != ')'
    case Line => c != '\n'
    case Not(d) => c != d
  }

  lemma {:induction false} SpaceIff(c: char)
    ensures In(Space, c) <==> c in {' ', '\t', '\n', '\U{b}', '\U{c}', '\r', '\U{1c}', '\U{1d}', '\U{1e}', '\U{1f}'}
  {
  }

  ghost predicate All(k: Class, s: string) {
    forall i :: 0 <= i < |s| ==> In(k, s[i])
  }

  /** How many leading characters belong to a class. */
  function Run(k: Class, s: string): (n: nat)
    ensures n <= |s|
  {
    if s == "" || !In(k, s[0]) then 0 else 1 + Run(k, s[1..])
  }

  lemma {:induction false} RunStops(k: Class, a: string, b: string)
    requires All(k, a) && (b == "" || !In(k, b[0]))
    ensures Run(k, a + b) == |a| && (a + b)[..|a|] == a && (a + b)[|a|..] == b
  {
    if a == "" {
      assert a + b == b;
    } else {
      RunStops(k, a[1..], b);
      assert (a + b)[1..] == a[1..] + b;
    }
  }

  lemma {:induction false} RunAll(k: Class, s: string)
    requires All(k, s)
    ensures Run(k, s) == |s|
  {
    if s != "" {
      RunAll(k, s[1..]);
    }
  }

  /** What is left after the whitespace `\s*` matches. */
  function Skip(s: string): string { s[Run(Space, s)..] }

  lemma {:induction false} SkipStops(b: string)
    requires b == "" || !In(Space, b[0])
    ensures Skip(b) == b && Skip(" " + b) == b
  {
    RunStops(Space, "", b);
    assert "" + b == b;
    RunStops(Space, " ", b);
  }

  /** `str.strip`. */
  function Strip(s: string): string
    decreases |s|
  {
    if s != "" && In(Space, s[0]) then Strip(s[1..])
    else if s != "" && In(Space, s[|s| - 1]) then Strip(s[..|s| - 1])
    else s
  }

  // ---------- lists as text ----------

  function Join(items: seq<string>, sep: string): string {
    if items == [] then "" else if |items| == 1 then items[0] else items[0] + sep + Join(items[1..], sep)
  }

  /** `str.split` on one character. */
  function SplitOn(s: string, c: char): seq<string>
    decreases |s|
  {
    var n := Run(Not(c), s);
    if n == |s| then [s] else [s[..n]] + SplitOn(s[n + 1..], c)
  }

  /** `re.split` at the longest runs of characters outside an attribute list. */
  function SplitAttrs(s: string): seq<string>
    decreases |s|
  {
    var n := Run(Attr, s);
    if n == |s| then [s] else
      var rest := s[n..];
      [s[..n]] + SplitAttrs(rest[Run(NotAttr, rest)..])
  }

  lemma {:induction false} SplitJoin(items: seq<string>, c: char)
    requires items != [] && forall i :: 0 <= i < |items| ==> All(Not(c), items[i])
    ensures SplitOn(Join(items, [c]), c) == items
  {
    var first := items[0];
    if |items| == 1 {
      RunAll(Not(c), first);
    } else {
      var rest := Join(items[1..], [c]);
      assert Join(items, [c]) == first + ([c] + rest);
      RunStops(Not(c), first, [c] + rest);
      assert Join(items, [c])[|first| + 1..] == rest;
      SplitJoin(items[1..], c);
    }
  }

  lemma {:induction false} SplitAttrsJoin(items: seq<string>)
    requires items != [] && forall i :: 0 <= i < |items| ==> items[i] != "" && All(Attr, items[i])
    ensures SplitAttrs(Join(items, " || ")) == items
    ensures Join(items, " || ") != "" && In(Attr, Join(items, " || ")[0])
  {
    var first := items[0];
    assert In(Attr, first[0]);
    if |items| == 1 {
      RunAll(Attr, first);
    } else {
      var rest := Join(items[1..], " || ");
      SplitAttrsJoin(items[1..]);
      var whole := Join(items, " || ");
      assert whole == first + (" || " + rest);
      RunStops(Attr, first, " || " + rest);
      RunStops(NotAttr, " || ", rest);
      assert whole[|first|..] == " || " + rest;
    }
  }

  /** Splitting an attribute list, whatever stands between the attributes. */
  lemma {:induction false} SplitAttrsAt(attr: string, between: string, rest: string)
    requires All(Attr, attr) && between != "" && All(NotAttr, between) && (rest == "" || In(Attr, rest[0]))
    ensures SplitAttrs(attr + (between + rest)) == [attr] + SplitAttrs(rest) && SplitAttrs(attr) == [attr]
  {
    var tail := between + rest;
    assert !In(Attr, tail[0]);
    RunStops(Attr, attr, tail);
    RunStops(NotAttr, between, rest);
    RunAll(Attr, attr);
  }

  /** A list without its later duplicates. */
  function Unique(items: seq<string>): seq<string> {
    if items == [] then []
    else
      var before, last := Unique(items[..|items| - 1]), items[|items| - 1];
      if last in before then before else before + [last]
  }

  ghost predicate NoDuplicates(items: seq<string>) {
    forall i, j :: 0 <= i < j < |items| ==> items[i] != items[j]
  }

  lemma {:induction false} UniqueKeeps(items: seq<string>)
    requires NoDuplicates(items)
    ensures Unique(items) == items
  {
    if items != [] {
      UniqueKeeps(items[..|items| - 1]);
    }
  }

  lemma {:induction false} UniqueIsUnique(items: seq<string>)
    ensures NoDuplicates(Unique(items)) && forall x :: x in Unique(items) <==> x in items
  {
    if items != [] {
      var n := |items| - 1;
      UniqueIsUnique(items[..n]);
      assert items == items[..n] + [items[n]];
      assert forall i :: 0 <= i < |Unique(items[..n])| ==> Unique(items[..n])[i] in Unique(items[..n]);
    }
  }

  /** Items are kept in the order in which they first occur: more items only add to the end. */
  lemma {:induction false} UniqueExtends(items: seq<string>, more: seq<string>)
    ensures Unique(items) <= Unique(items + more)
    decreases |more|
  {
    if more == [] {
      assert items + more == items;
    } else {
      var n := |more| - 1;
      UniqueExtends(items, more[..n]);
      assert (items + more)[..|items + more| - 1] == items + more[..n];
    }
  }

  method UniqueList(items: seq<string>) returns (unique: seq<string>)
    ensures unique == Unique(items)
  {
    unique := [];
    for i := 0 to |items|
      invariant unique == Unique(items[..i])
    {
      assert items[..i + 1][..i] == items[..i];
      if items[i] !in unique {
        unique := unique + [items[i]];
      }
    }
    assert items[..|items|] == items;
  }

  // ---------- tokens ----------

  datatype Lexed = End | Unclosed | Token(text: string, rest: string)

  predicate LexSpace(c: char) { c == ' ' || c == '\t' || c == '\r' || c == '\n' }

  predicate LexWord(c: char) { Alnum(c) || c == '_' || c == '.' }

  predicate LexQuote(c: char) { c == '"' || c == '\'' }

  /** What is left after a comment: the next line. */
  function NextLine(s: string): (rest: string)
    ensures |rest| <= |s|
  {
    var n := Run(Line, s);
    if n == |s| then "" else s[n + 1..]
  }

  /** The next token of the text; a character that ends a word is left for the next token. */
  function NextToken(s: string): Lexed
    decreases |s|
  {
    if s == "" then End
    else if LexSpace(s[0]) then NextToken(s[1..])
    else if s[0] == '#' then NextToken(NextLine(s[1..]))
    else if LexWord(s[0]) then RestOfWord([s[0]], s[1..])
    else if LexQuote(s[0]) then RestOfQuote(s[0], s[1..])
    else Token([s[0]], s[1..])
  }

  function RestOfWord(word: string, s: string): Lexed
    decreases |s|
  {
    if s == "" then Token(word, "")
    else if LexSpace(s[0]) then Token(word, s[1..])
    else if s[0] == '#' then RestOfWord(word, NextLine(s[1..]))
    else if LexWord(s[0]) || LexQuote(s[0]) then RestOfWord(word + [s[0]], s[1..])
    else Token(word, s)
  }

  function RestOfQuote(q: char, s: string): Lexed {
    var n := Run(Not(q), s);
    if n == |s| then Unclosed else Token([q] + s[..n] + [q], s[n + 1..])
  }

  lemma {:induction false} TokenIsShorter(s: string)
    ensures NextToken(s).Token? ==> |NextToken(s).rest| < |s|
    decreases |s|
  {
    if s != "" {
      if LexSpace(s[0]) {
        TokenIsShorter(s[1..]);
      } else if s[0] == '#' {
        TokenIsShorter(NextLine(s[1..]));
      } else if LexWord(s[0]) {
        WordIsShorter([s[0]], s[1..]);
      }
    }
  }

  lemma {:induction false} WordIsShorter(word: string, s: string)
    ensures RestOfWord(word, s).Token? && |RestOfWord(word, s).rest| <= |s|
    decreases |s|
  {
    if s != "" {
      if s[0] == '#' {
        WordIsShorter(word, NextLine(s[1..]));
      } else if LexWord(s[0]) || LexQuote(s[0]) {
        WordIsShorter(word + [s[0]], s[1..]);
      }
    }
  }

  // ---------- what each token is ----------

  /** A character that stands for itself. */
  predicate LexMark(c: char) { !LexSpace(c) && c != '#' && !LexWord(c) && !LexQuote(c) }

  ghost predicate Blank(s: string) { forall i :: 0 <= i < |s| ==> LexSpace(s[i]) }

  /** A word: word characters, and quotes after the first. */
  ghost predicate IsWord(s: string) {
    s != "" && LexWord(s[0]) && forall i :: 0 <= i < |s| ==> LexWord(s[i]) || LexQuote(s[i])
  }

  lemma {:induction false} BlankSkipped(blank: string, s: string)
    requires Blank(blank)
    ensures NextToken(blank + s) == NextToken(s)
  {
    if blank == "" {
      assert blank + s == s;
    } else {
      assert (blank + s)[1..] == blank[1..] + s;
      BlankSkipped(blank[1..], s);
    }
  }

  lemma {:induction false} NextLineIs(line: string, s: string)
    requires All(Line, line)
    ensures NextLine(line + ("\n" + s)) == s && NextLine(line) == ""
  {
    RunStops(Line, line, "\n" + s);
    RunAll(Line, line);
    assert (line + ("\n" + s))[|line| + 1..] == s;
  }

  /** A comment is skipped with its line. */
  lemma {:induction false} CommentSkipped(line: string, s: string)
    requires All(Line, line)
    ensures NextToken("#" + (line + ("\n" + s))) == NextToken(s) && NextToken("#" + line) == End
  {
    assert ("#" + (line + ("\n" + s)))[1..] == line + ("\n" + s) && ("#" + line)[1..] == line;
    NextLineIs(line, s);
  }

  lemma {:induction false} WordGoesOn(word: string, more: string, s: string)
    requires forall i :: 0 <= i < |more| ==> LexWord(more[i]) || LexQuote(more[i])
    ensures RestOfWord(word, more + s) == RestOfWord(word + more, s)
    decreases |more|
  {
    if more == "" {
      assert more + s == s && word + more == word;
    } else {
      assert (more + s)[0] == more[0] && (more + s)[1..] == more[1..] + s;
      WordGoesOn(word + [more[0]], more[1..], s);
      assert word + [more[0]] + more[1..] == word + more;
    }
  }

  lemma {:induction false} WordReads(word: string, s: string)
    requires IsWord(word)
    ensures NextToken(word + s) == RestOfWord(word, s)
  {
    assert (word + s)[0] == word[0] && (word + s)[1..] == word[1..] + s;
    WordGoesOn([word[0]], word[1..], s);
    assert [word[0]] + word[1..] == word;
  }

  /** A word ends at a space, which goes with it, at a mark, which stays, or at the end of the text. */
  lemma {:induction false} WordToken(word: string, c: char, rest: string)
    requires IsWord(word)
    ensures NextToken(word) == Token(word, "")
    ensures LexSpace(c) ==> NextToken(word + ([c] + rest)) == Token(word, rest)
    ensures LexMark(c) ==> NextToken(word + ([c] + rest)) == Token(word, [c] + rest)
  {
    WordReads(word, "");
    assert word + "" == word;
    WordReads(word, [c] + rest);
    assert ([c] + rest)[1..] == rest;
  }

  /** A comment inside a word is skipped, and the word goes on in the next line. */
  lemma {:induction false} WordAcrossComment(word: string, line: string, s: string)
    requires IsWord(word) && All(Line, line)
    ensures NextToken(word + ("#" + (line + ("\n" + s)))) == NextToken(word + s)
  {
    var tail := "#" + (line + ("\n" + s));
    assert tail[1..] == line + ("\n" + s);
    WordReads(word, tail);
    NextLineIs(line, s);
    WordReads(word, s);
  }

  /** A name followed by a space is one token. */
  lemma {:induction false} NameToken(name: string, rest: string)
    requires name != "" && forall i :: 0 <= i < |name| ==> LexWord(name[i])
    ensures NextToken(name + " " + rest) == Token(name, rest)
  {
    assert name + " " + rest == name + ([' '] + rest);
    WordToken(name, ' ', rest);
  }

  /** A mark is a token of its own. */
  lemma {:induction false} CharToken(c: char, rest: string)
    requires LexMark(c)
    ensures NextToken([c] + rest) == Token([c], rest)
  {
    assert ([c] + rest)[1..] == rest;
  }

  /** A text between quotes of one kind is one token, quotes included; without the second quote there is none. */
  lemma {:induction false} QuotedToken(q: char, text: string, rest: string)
    requires LexQuote(q) && All(Not(q), text)
    ensures NextToken([q] + (text + ([q] + rest))) == Token([q] + text + [q], rest)
    ensures NextToken([q] + text) == Unclosed
  {
    assert ([q] + (text + ([q] + rest)))[1..] == text + ([q] + rest) && ([q] + text)[1..] == text;
    RunStops(Not(q), text, [q] + rest);
    RunAll(Not(q), text);
    assert (text + ([q] + rest))[|text| + 1..] == rest;
  }

  lemma {:induction false} QuoteToken(text: string, rest: string)
    requires All(Not('"'), text)
    ensures NextToken(" \"" + text + "\"" + rest) == Token("\"" + text + "\"", rest)
  {
    assert " \"" + text + "\"" + rest == " " + (['"'] + (text + (['"'] + rest)));
    BlankSkipped(" ", ['"'] + (text + (['"'] + rest)));
    QuotedToken('"', text, rest);
  }

  /** Nothing but space holds no token. */
  lemma {:induction false} BlankEnds(blank: string)
    requires Blank(blank)
    ensures NextToken(blank) == End
  {
    BlankSkipped(blank, "");
    assert blank + "" == blank;
  }
}
