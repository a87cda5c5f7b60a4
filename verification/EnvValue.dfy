/** The variables of the environment of ipalib/config.py: their names and the conversion of their values. */
module EnvValue {
  import opened Common

  /** A value offered for a variable; `Object` stands for any value of a type that is refused. */
  datatype Value =
    | Str(text: string)
    | Int(n: int)
    | Float(printed: string)
    | Bool(b: bool)
    | Null
    | Dn(dn: string)
    | Object

  datatype Error =
    | Locked
    | AlreadySet
    | BadName
    | BadValue(key: string)
    | AlreadyCalled
    | EnvironmentError
    | Crash

  type Item = (string, Value)

  // ---------- names and values ----------

  predicate Lower(c: char) { 'a' <= c <= 'z' }

  predicate Digit(c: char) { '0' <= c <= '9' }

  predicate Space(c: char) { c == ' ' || '\t' <= c <= '\r' || '\U{1c}' <= c <= '\U{1f}' }

  predicate NameOk(name: string) {
    && name != "" && Lower(name[0]) && name[|name| - 1] != '_'
    && forall i :: 0 <= i < |name| ==> Lower(name[i]) || Digit(name[i]) || name[i] == '_'
  }

  lemma {:induction false} SpaceIff(c: char)
    ensures Space(c) <==> c in {' ', '\t', '\n', '\U{b}', '\U{c}', '\r', '\U{1c}', '\U{1d}', '\U{1e}', '\U{1f}'}
  {
  }

  lemma {:induction false} LowerIff(c: char)
    ensures Lower(c) <==> c in "abcdefghijklmnopqrstuvwxyz"
  {
    if Lower(c) {
      assert "abcdefghijklmnopqrstuvwxyz"[c as int - 'a' as int] == c;
    }
  }

  function StripLeft(s: string): string {
    if s != "" && Space(s[0]) then StripLeft(s[1..]) else s
  }

  function StripRight(s: string): string {
    if s != "" && Space(s[|s| - 1]) then StripRight(s[..|s| - 1]) else s
  }

  function Number(s: string): int {
    if s == "" then 0 else Number(s[..|s| - 1]) * 10 + (s[|s| - 1] as int - '0' as int)
  }

  predicate AllDigits(s: string) { s != "" && forall i :: 0 <= i < |s| ==> Digit(s[i]) }

  /** The value kept for what was offered under a name. */
  function Converted(key: string, value: Value): Value {
    match value
    case Str(text) =>
      var s := StripRight(StripLeft(text));
      if s == "True" then Bool(true)
      else if s == "False" then Bool(false)
      else if s == "None" || s == "" then Null
      else if AllDigits(s) then Int(Number(s))
      else if key == "basedn" then Dn(s)
      else Str(s)
    case _ => value
  }

  /** No space at either end. */
  predicate Trimmed(s: string) { s != "" ==> !Space(s[0]) && !Space(s[|s| - 1]) }

  lemma {:induction false} LeftStripped(s: string)
    ensures StripLeft(s) != "" ==> !Space(StripLeft(s)[0])
  {
    if s != "" && Space(s[0]) {
      LeftStripped(s[1..]);
    }
  }

  lemma {:induction false} RightStripped(s: string)
    requires s != "" ==> !Space(s[0])
    ensures Trimmed(StripRight(s))
  {
    if s != "" && Space(s[|s| - 1]) {
      RightStripped(s[..|s| - 1]);
    }
  }

  /** A kept value offered again is kept as it is. */
  lemma {:induction false} ConvertedTwice(key: string, value: Value)
    ensures Converted(key, Converted(key, value)) == Converted(key, value)
  {
    if value.Str? {
      LeftStripped(value.text);
      RightStripped(StripLeft(value.text));
    }
  }

  // ---------- what a text means ----------

  function Decimal(n: nat): string {
    if n < 10 then [(n + '0' as int) as char] else Decimal(n / 10) + [(n % 10 + '0' as int) as char]
  }

  ghost predicate Blank(s: string) { forall i :: 0 <= i < |s| ==> Space(s[i]) }

  ghost predicate Zeros(s: string) { forall i :: 0 <= i < |s| ==> s[i] == '0' }

  /** The digits of a number, leading zeros allowed. */
  ghost predicate Writes(s: string, n: int) {
    n >= 0 && exists zeros :: Zeros(zeros) && s == zeros + Decimal(n)
  }

  /** What a text without space at its ends stands for under a name. */
  ghost predicate Means(key: string, s: string, kept: Value) {
    && (kept == Bool(true) <==> s == "True")
    && (kept == Bool(false) <==> s == "False")
    && (kept == Null <==> s == "None" || s == "")
    && (kept.Int? <==> AllDigits(s)) && (kept.Int? ==> Writes(s, kept.n))
    && (kept.Bool? || kept == Null || kept.Int? || kept == if key == "basedn" then Dn(s) else Str(s))
  }

  lemma {:induction false} LeftBlank(l: string, s: string)
    requires Blank(l) && (s == "" || !Space(s[0]))
    ensures StripLeft(l + s) == s
  {
    if l == "" {
      assert l + s == s;
    } else {
      assert (l + s)[1..] == l[1..] + s;
      LeftBlank(l[1..], s);
    }
  }

  lemma {:induction false} RightBlank(s: string, r: string)
    requires Blank(r) && (s == "" || !Space(s[|s| - 1]))
    ensures StripRight(s + r) == s
    decreases |r|
  {
    if r == "" {
      assert s + r == s;
    } else {
      var n := |r| - 1;
      assert (s + r)[..|s + r| - 1] == s + r[..n];
      RightBlank(s, r[..n]);
    }
  }

  /** Stripping finds what stands between the spaces at both ends. */
  lemma {:induction false} Stripped(l: string, s: string, r: string)
    requires Blank(l) && Trimmed(s) && Blank(r)
    ensures StripRight(StripLeft(l + s + r)) == s
  {
    if s == "" {
      assert l + s + r == l + r + "";
      LeftBlank(l + r, "");
    } else {
      assert l + s + r == l + (s + r);
      LeftBlank(l, s + r);
      RightBlank(s, r);
    }
  }

  /** Every text is one between spaces. */
  lemma {:induction false} TextSplits(text: string) returns (l: string, s: string, r: string)
    ensures Blank(l) && Trimmed(s) && Blank(r) && text == l + s + r
  {
    if text != "" && Space(text[0]) {
      l, s, r := TextSplits(text[1..]);
      l := [text[0]] + l;
    } else if text != "" && Space(text[|text| - 1]) {
      l, s, r := TextSplits(text[..|text| - 1]);
      r := r + [text[|text| - 1]];
    } else {
      l, s, r := "", text, "";
    }
  }

  lemma {:induction false} NumberWritten(s: string)
    requires AllDigits(s)
    ensures Number(s) >= 0 && Writes(s, Number(s))
  {
    var n := |s| - 1;
    var front, last := s[..n], s[n] as int - '0' as int;
    assert s == front + [s[n]];
    assert Digit(s[n]);
    if front == "" || Number(front) == 0 {
      if front != "" {
        NumberWritten(front);
        var zeros :| Zeros(zeros) && front == zeros + Decimal(0);
      }
      assert Zeros(front) && Decimal(Number(s)) == [s[n]];
    } else {
      NumberWritten(front);
      var zeros :| Zeros(zeros) && front == zeros + Decimal(Number(front));
      assert Number(s) / 10 == Number(front) && Number(s) % 10 == last;
      assert s == zeros + Decimal(Number(s));
    }
  }

  /** What is kept for a text is what it stands for once the spaces around it are gone. */
  lemma {:induction false} TextMeans(key: string, l: string, s: string, r: string)
    requires Blank(l) && Trimmed(s) && Blank(r)
    ensures Means(key, s, Converted(key, Str(l + s + r)))
  {
    Stripped(l, s, r);
    assert !AllDigits("True") && !AllDigits("False") && !AllDigits("None") by {
      assert "True"[0] == 'T' && "False"[0] == 'F' && "None"[0] == 'N';
    }
    if AllDigits(s) {
      NumberWritten(s);
    }
  }

  lemma {:induction false} DecimalDigits(n: nat)
    ensures AllDigits(Decimal(n)) && Number(Decimal(n)) == n
  {
    var s := Decimal(n);
    if n < 10 {
      assert s[..0] == "";
    } else {
      DecimalDigits(n / 10);
      assert s[..|s| - 1] == Decimal(n / 10);
    }
  }

  /** A number written in digits is kept as that number. */
  lemma {:induction false} NumberComesBack(key: string, l: string, n: nat, r: string)
    requires Blank(l) && Blank(r)
    ensures Converted(key, Str(l + Decimal(n) + r)) == Int(n)
  {
    var s := Decimal(n);
    DecimalDigits(n);
    assert Digit(s[0]) && Digit(s[|s| - 1]);
    Stripped(l, s, r);
    TextMeans(key, l, s, r);
  }

  /** What is kept for a value: what its text stands for, or the value itself. */
  ghost predicate KeptAs(key: string, value: Value, kept: Value) {
    if value.Str?
    then forall l, s, r :: Blank(l) && Trimmed(s) && Blank(r) && value.text == l + s + r ==> Means(key, s, kept)
    else kept == value
  }

  lemma {:induction false} ConvertedKept(key: string, value: Value)
    ensures KeptAs(key, value, Converted(key, value))
  {
    if value.Str? {
      forall l, s, r | Blank(l) && Trimmed(s) && Blank(r) && value.text == l + s + r
        ensures Means(key, s, Converted(key, value))
      {
        TextMeans(key, l, s, r);
      }
    }
  }

  // ---------- texts of values ----------

  function Shown(v: Value): string {
    match v
    case Str(s) => s
    case Int(n) => if n < 0 then "-" + Decimal(-n) else Decimal(n)
    case Float(s) => s
    case Bool(b) => if b then "True" else "False"
    case Null => "None"
    case Dn(s) => s
    case Object => "object"
  }

  predicate Truthy(v: Value) {
    match v
    case Str(s) => s != ""
    case Int(n) => n != 0
    case Float(s) => s != "0.0" && s != "-0.0"
    case Bool(b) => b
    case Null => false
    case Dn(s) => s != ""
    case Object => true
  }

  function Join(base: string, part: string): string {
    if part != "" && part[0] == '/' then part
    else if base == "" || base[|base| - 1] == '/' then base + part
    else base + "/" + part
  }

  /** What is false in a condition. */
  lemma {:induction false} TruthyIff(v: Value)
    ensures Truthy(v) <==> v !in {Null, Bool(false), Int(0), Str(""), Dn(""), Float("0.0"), Float("-0.0")}
  {
  }

  /** A path below another: one slash between them, unless the second stands alone. */
  lemma {:induction false} JoinIs(dir: string, part: string)
    requires part == "" || part[0] != '/'
    ensures Join(dir, "/" + part) == "/" + part && Join("", part) == part
    ensures Join(dir + "/", part) == dir + "/" + part
    ensures dir != "" && dir[|dir| - 1] != '/' ==> Join(dir, part) == dir + "/" + part
  {
    assert "" + part == part;
  }

  /** The text of a truth value, of nothing or of a number is kept as that value. */
  lemma {:induction false} ShownComesBack(key: string, v: Value)
    requires v.Bool? || v.Null? || (v.Int? && v.n >= 0)
    ensures Converted(key, Str(Shown(v))) == v
  {
    var s := Shown(v);
    assert "" + s + "" == s;
    if v.Int? {
      NumberComesBack(key, "", v.n, "");
    } else {
      Stripped("", s, "");
    }
  }
}
