/**
 Printing distinguished names (ipapython/dn_ctypes.py), after section 2.4 of RFC 4514, against a
 reader that cuts at unescaped commas and pluses and at the first equals sign, then drops escapes.
 */
module DnPrint {
  import opened Common

  datatype Ava = Ava(attr: string, value: string, flag: int)
  datatype Pair = Pair(attr: string, value: string)

  type Rdn = seq<Ava>
  type Dn = seq<Rdn>

  predicate IsEscapeChar(c: char) {
    c in ['"', '+', ',', ';', '<', '>', '\'', '\0']
  }

  predicate IsSeparator(c: char) { c == ',' || c == '+' }

  // ---------- printing ----------

  /** A backslash is put in front of character `i`, leaving the final-space rule aside. */
  predicate MarkedInLoop(v: string, i: nat)
    requires i < |v|
  {
    IsEscapeChar(v[i]) || (i == 0 && (v[0] == '#' || v[0] == ' '))
  }

  predicate Marked(v: string, i: nat)
    requires i < |v|
  {
    MarkedInLoop(v, i) || (i == |v| - 1 && |v| > 1 && v[i] == ' ')
  }

  function LoopPrinted(v: string, i: nat): string
    requires i <= |v|
    decreases |v| - i
  {
    if i == |v| then "" else (if MarkedInLoop(v, i) then ['\\', v[i]] else [v[i]]) + LoopPrinted(v, i + 1)
  }

  /** The printed form of `v[i..]`. */
  function Printed(v: string, i: nat): string
    requires i <= |v|
    decreases |v| - i
  {
    if i == |v| then "" else (if Marked(v, i) then ['\\', v[i]] else [v[i]]) + Printed(v, i + 1)
  }

  function BeforeLast(s: string, c: char): string
    requires s != ""
  {
    s[..|s| - 1] + [c] + s[|s| - 1..]
  }

  lemma {:induction false} BeforeLastOfSum(head: string, rest: string)
    requires rest != ""
    ensures BeforeLast(head + rest, '\\') == head + BeforeLast(rest, '\\')
    ensures (head + rest)[|head + rest| - 1] == rest[|rest| - 1]
  {
  }

  lemma {:induction false} FinalSpace(v: string, i: nat)
    requires i < |v| && |v| > 1
    ensures LoopPrinted(v, i) != "" && LoopPrinted(v, i)[|LoopPrinted(v, i)| - 1] == v[|v| - 1]
    ensures Printed(v, i) == if v[|v| - 1] == ' ' then BeforeLast(LoopPrinted(v, i), '\\') else LoopPrinted(v, i)
    decreases |v| - i
  {
    if i == |v| - 1 {
      assert LoopPrinted(v, i + 1) == "" && Printed(v, i + 1) == "";
    } else {
      FinalSpace(v, i + 1);
      BeforeLastOfSum(if MarkedInLoop(v, i) then ['\\', v[i]] else [v[i]], LoopPrinted(v, i + 1));
    }
  }

  method EscapeDn(dn: string) returns (escaped: string)
    ensures escaped == Printed(dn, 0)
  {
    if |dn| == 0 {
      return "";
    }
    var result := [];
    if dn[0] in ['#', ' '] {
      result := result + ['\\'];
    }
    var k := 0;
    while k < |dn|
      invariant 0 <= k <= |dn|
      invariant k == 0 ==> result == if dn[0] == '#' || dn[0] == ' ' then ['\\'] else []
      invariant k > 0 ==> result != [] && result[|result| - 1] == dn[k - 1]
      invariant k > 0 ==> result + LoopPrinted(dn, k) == LoopPrinted(dn, 0)
    {
      var c := dn[k];
      ghost var before := result;
      if IsEscapeChar(c) {
        result := result + ['\\'];
      }
      result := result + [c];
      assert k > 0 ==> before + LoopPrinted(dn, k) == result + LoopPrinted(dn, k + 1);
      k := k + 1;
    }
    assert result == LoopPrinted(dn, 0);
    if |dn| > 1 {
      FinalSpace(dn, 0);
    }
    if |dn| > 1 && result[|result| - 1] == ' ' {
      result := BeforeLast(result, '\\');
    }
    return result;
  }

  function PrintAva(a: Ava): string { a.attr + "=" + Printed(a.value, 0) }

  function PrintRdn(rdn: Rdn): string {
    if rdn == [] then "" else if |rdn| == 1 then PrintAva(rdn[0]) else PrintAva(rdn[0]) + "+" + PrintRdn(rdn[1..])
  }

  /** `dn2str` */
  function Dn2Str(dn: Dn): string {
    if dn == [] then "" else if |dn| == 1 then PrintRdn(dn[0]) else PrintRdn(dn[0]) + "," + Dn2Str(dn[1..])
  }

  // ---------- reading back ----------

  type Reading = Option<(string, string)>

  function Prepend(c: char, r: Reading): Reading {
    match r
    case None => None
    case Some((v, rest)) => Some(([c] + v, rest))
  }

  /** The value up to the first unescaped separator, and the rest. */
  function ReadValue(s: string): (r: Reading)
    ensures r.Some? ==> |r.value.1| <= |s| && (r.value.1 == "" || IsSeparator(r.value.1[0]))
  {
    if s == "" || IsSeparator(s[0]) then Some(("", s))
    else if s[0] == '\\' then
      if |s| == 1 then None else Prepend(s[1], ReadValue(s[2..]))
    else Prepend(s[0], ReadValue(s[1..]))
  }

  predicate IsAttrChar(c: char) { c != '=' && c != '\\' && !IsSeparator(c) }

  function ReadAttr(s: string): (r: Option<(string, string)>)
    ensures r.Some? ==> |r.value.1| < |s|
  {
    if s == "" then None
    else if s[0] == '=' then Some(("", s[1..]))
    else if !IsAttrChar(s[0]) then None
    else
      match ReadAttr(s[1..])
      case None => None
      case Some((a, rest)) => Some(([s[0]] + a, rest))
  }

  function ReadAvas(s: string): (r: Option<(seq<Pair>, string)>)
    ensures r.Some? ==> |r.value.1| < |s| && (r.value.1 == "" || r.value.1[0] == ',')
    decreases |s|
  {
    match ReadAttr(s)
    case None => None
    case Some((attr, afterAttr)) =>
      match ReadValue(afterAttr)
      case None => None
      case Some((value, rest)) =>
        if rest == "" || rest[0] == ',' then Some(([Pair(attr, value)], rest))
        else
          match ReadAvas(rest[1..])
          case None => None
          case Some((more, rest')) => Some(([Pair(attr, value)] + more, rest'))
  }

  function ReadRdns(s: string): Option<seq<seq<Pair>>>
    decreases |s|
  {
    match ReadAvas(s)
    case None => None
    case Some((rdn, rest)) =>
      if rest == "" then Some([rdn])
      else
        match ReadRdns(rest[1..])
        case None => None
        case Some(more) => Some([rdn] + more)
  }

  function ReadDn(s: string): Option<seq<seq<Pair>>> {
    if s == "" then Some([]) else ReadRdns(s)
  }

  // ---------- one value ----------

  /**
   Every backslash at or after `i` is followed by a character that the printer marks and the reader does
   not cut at: one of `"` `;` `<` `>` `'` NUL, or a final space.
   */
  ghost predicate Readable(v: string, i: nat) {
    forall k :: i <= k < |v| && v[k] == '\\' ==> k + 1 < |v| && Marked(v, k + 1) && !IsSeparator(v[k + 1])
  }

  predicate Boundary(rest: string) { rest == "" || IsSeparator(rest[0]) }

  lemma {:induction false} ReadEscaped(c: char, s: string)
    ensures ReadValue(['\\', c] + s) == Prepend(c, ReadValue(s))
  {
    assert (['\\', c] + s)[2..] == s;
  }

  lemma {:induction false} ReadPlain(c: char, s: string)
    requires c != '\\' && !IsSeparator(c)
    ensures ReadValue([c] + s) == Prepend(c, ReadValue(s))
  {
    assert ([c] + s)[1..] == s;
  }

  /** The printed tail of a value, as the reader meets it. */
  function Tail(v: string, i: nat, rest: string): string
    requires i <= |v|
  {
    Printed(v, i) + rest
  }

  lemma {:induction false} TailStep(v: string, i: nat, rest: string)
    requires i < |v|
    ensures Tail(v, i, rest) == (if Marked(v, i) then ['\\', v[i]] else [v[i]]) + Tail(v, i + 1, rest)
  {
  }

  lemma {:induction false} TailEnd(v: string, rest: string)
    ensures Tail(v, |v|, rest) == rest
  {
  }

  /** Reading the printed form of a character other than a backslash gives that character. */
  lemma {:induction false} ReadTail(v: string, i: nat, rest: string)
    requires i < |v| && v[i] != '\\'
    ensures ReadValue(Tail(v, i, rest)) == Prepend(v[i], ReadValue(Tail(v, i + 1, rest)))
  {
    TailStep(v, i, rest);
    if Marked(v, i) {
      ReadEscaped(v[i], Tail(v, i + 1, rest));
    } else {
      ReadPlain(v[i], Tail(v, i + 1, rest));
    }
  }

  /** A backslash swallows the first character of what follows it. */
  lemma {:induction false} ReadBackslash(v: string, i: nat, rest: string)
    requires i < |v| && v[i] == '\\'
    ensures var s := Tail(v, i + 1, rest);
      ReadValue(Tail(v, i, rest)) == if s == "" then None else Prepend(s[0], ReadValue(s[1..]))
  {
    TailStep(v, i, rest);
    var s := Tail(v, i + 1, rest);
    if s != "" {
      assert ['\\'] + s == ['\\', s[0]] + s[1..];
      ReadEscaped(s[0], s[1..]);
    }
  }

  lemma {:induction false} DropFirst(c: char, mid: string, s: string)
    ensures ([c] + mid + s)[0] == c && ([c] + mid + s)[1..] == mid + s
  {
  }

  /** A backslash followed by a marked character: the backslash is read, the character is met unescaped. */
  lemma {:induction false} ReadBackslashMarked(v: string, i: nat, rest: string)
    requires i + 1 < |v| && v[i] == '\\' && Marked(v, i + 1)
    ensures ReadValue(Tail(v, i, rest)) == Prepend('\\', ReadValue([v[i + 1]] + Tail(v, i + 2, rest)))
  {
    ReadBackslash(v, i, rest);
    TailStep(v, i + 1, rest);
    assert ['\\', v[i + 1]] == ['\\'] + [v[i + 1]];
    DropFirst('\\', [v[i + 1]], Tail(v, i + 2, rest));
  }

  /** A backslash followed by another: one of the two is lost. */
  lemma {:induction false} ReadBackslashTwice(v: string, i: nat, rest: string)
    requires i + 1 < |v| && v[i] == '\\' && v[i + 1] == '\\'
    ensures ReadValue(Tail(v, i, rest)) == Prepend('\\', ReadValue(Tail(v, i + 2, rest)))
  {
    ReadBackslash(v, i, rest);
    TailStep(v, i + 1, rest);
    assert ['\\'] == ['\\'] + [];
    DropFirst('\\', [], Tail(v, i + 2, rest));
  }

  /** Any other backslash is lost, and what is read in its place is not a backslash. */
  lemma {:induction false} ReadBackslashLost(v: string, i: nat, rest: string)
    requires i < |v| && v[i] == '\\' && Boundary(rest)
    requires i + 1 < |v| ==> !Marked(v, i + 1) && v[i + 1] != '\\'
    ensures !Reads(Tail(v, i, rest), v[i..])
  {
    ReadBackslash(v, i, rest);
    if i + 1 < |v| {
      TailStep(v, i + 1, rest);
    } else {
      TailEnd(v, rest);
    }
  }

  predicate Reads(s: string, value: string) {
    ReadValue(s).Some? && ReadValue(s).value.0 == value
  }

  lemma {:induction false} ReadsCons(c: char, r: Reading, value: string)
    ensures Prepend(c, r).Some? && Prepend(c, r).value.0 == value <==>
      r.Some? && value != "" && value[0] == c && r.value.0 == value[1..]
  {
    if r.Some? && value != "" && value[0] == c && r.value.0 == value[1..] {
      assert [c] + value[1..] == value;
    }
  }

  lemma {:induction false} BackslashReadsBack(v: string, i: nat, rest: string)
    requires i + 1 < |v| && v[i] == '\\' && Marked(v, i + 1) && !IsSeparator(v[i + 1])
    requires ReadValue(Tail(v, i + 2, rest)) == Some((v[i + 2..], rest))
    ensures ReadValue(Tail(v, i, rest)) == Some((v[i..], rest))
  {
    ReadBackslashMarked(v, i, rest);
    ReadPlain(v[i + 1], Tail(v, i + 2, rest));
    assert v[i..] == [v[i]] + ([v[i + 1]] + v[i + 2..]);
  }

  lemma {:induction false} ReadableReadsBack(v: string, i: nat, rest: string)
    requires i <= |v| && Readable(v, i) && Boundary(rest)
    ensures ReadValue(Tail(v, i, rest)) == Some((v[i..], rest))
    decreases |v| - i
  {
    if i == |v| {
      TailEnd(v, rest);
    } else if v[i] == '\\' {
      ReadableReadsBack(v, i + 2, rest);
      BackslashReadsBack(v, i, rest);
    } else {
      ReadTail(v, i, rest);
      ReadableReadsBack(v, i + 1, rest);
      assert v[i..] == [v[i]] + v[i + 1..];
    }
  }

  ghost predicate AllBackslash(v: string, j: nat, k: nat) {
    j < k <= |v| && forall m :: j <= m < k ==> v[m] == '\\'
  }

  /** Once the reader has lost a backslash of a run, it can no longer keep up with the value. */
  lemma {:induction false} NeverCatchesUp(v: string, j: nat, k: nat, rest: string)
    requires AllBackslash(v, j, k) && Boundary(rest)
    ensures !Reads(Tail(v, k, rest), v[j..])
    decreases |v| - k
  {
    if k + 1 < |v| && v[k] == '\\' && v[k + 1] == '\\' {
      NeverCatchesUp(v, j + 1, k + 2, rest);
      RunContinues(v, j, k, rest);
    } else if k + 1 < |v| && v[k] == '\\' && Marked(v, k + 1) {
      RunEnds(v, j, k, rest);
    } else {
      FirstDiffers(v, j, k, rest);
    }
  }

  lemma {:induction false} RunContinues(v: string, j: nat, k: nat, rest: string)
    requires j < k && k + 1 < |v| && v[k] == '\\' && v[k + 1] == '\\'
    requires !Reads(Tail(v, k + 2, rest), v[j + 1..])
    ensures !Reads(Tail(v, k, rest), v[j..])
  {
    ReadBackslashTwice(v, k, rest);
    ReadsCons('\\', ReadValue(Tail(v, k + 2, rest)), v[j..]);
    assert v[j..][1..] == v[j + 1..];
  }

  /** The run ends in a marked character: that character comes one position too early. */
  lemma {:induction false} RunEnds(v: string, j: nat, k: nat, rest: string)
    requires AllBackslash(v, j, k) && k + 1 < |v| && v[k] == '\\' && Marked(v, k + 1)
    ensures !Reads(Tail(v, k, rest), v[j..])
  {
    var z := v[k + 1];
    ReadBackslashMarked(v, k, rest);
    ReadsCons('\\', ReadValue([z] + Tail(v, k + 2, rest)), v[j..]);
    assert v[j..][1..] == v[j + 1..];
    assert v[j + 1..][0] == '\\';
    if !IsSeparator(z) {
      ReadPlain(z, Tail(v, k + 2, rest));
      ReadsCons(z, ReadValue(Tail(v, k + 2, rest)), v[j + 1..]);
    }
  }

  /** The first character read is no backslash. */
  lemma {:induction false} FirstDiffers(v: string, j: nat, k: nat, rest: string)
    requires AllBackslash(v, j, k) && Boundary(rest)
    requires k + 1 < |v| && v[k] == '\\' ==> v[k + 1] != '\\' && !Marked(v, k + 1)
    ensures !Reads(Tail(v, k, rest), v[j..])
  {
    assert v[j..][0] == '\\';
    if k == |v| {
      TailEnd(v, rest);
    } else if v[k] != '\\' {
      ReadTail(v, k, rest);
      ReadsCons(v[k], ReadValue(Tail(v, k + 1, rest)), v[j..]);
    } else {
      ReadBackslash(v, k, rest);
      var s := Tail(v, k + 1, rest);
      if k + 1 < |v| {
        TailStep(v, k + 1, rest);
      } else {
        TailEnd(v, rest);
      }
      if s != "" {
        ReadsCons(s[0], ReadValue(s[1..]), v[j..]);
      }
    }
  }

  lemma {:induction false} OnlyReadableReadsBack(v: string, i: nat, rest: string)
    requires i <= |v| && Boundary(rest) && Reads(Tail(v, i, rest), v[i..])
    ensures Readable(v, i)
    decreases |v| - i
  {
    if i < |v| {
      assert v[i..][1..] == v[i + 1..];
      if v[i] != '\\' {
        ReadTail(v, i, rest);
        ReadsCons(v[i], ReadValue(Tail(v, i + 1, rest)), v[i..]);
        OnlyReadableReadsBack(v, i + 1, rest);
      } else if i + 1 < |v| && Marked(v, i + 1) {
        ReadBackslashMarked(v, i, rest);
        var next := [v[i + 1]] + Tail(v, i + 2, rest);
        ReadsCons('\\', ReadValue(next), v[i..]);
        assert !IsSeparator(v[i + 1]);
        ReadPlain(v[i + 1], Tail(v, i + 2, rest));
        ReadsCons(v[i + 1], ReadValue(Tail(v, i + 2, rest)), v[i + 1..]);
        assert v[i + 1..][1..] == v[i + 2..];
        OnlyReadableReadsBack(v, i + 2, rest);
      } else {
        BackslashNotRead(v, i, rest);
        assert false;
      }
    }
  }

  lemma {:induction false} BackslashNotRead(v: string, i: nat, rest: string)
    requires i < |v| && v[i] == '\\' && Boundary(rest)
    requires i + 1 < |v| ==> !Marked(v, i + 1)
    ensures !Reads(Tail(v, i, rest), v[i..])
  {
    if i + 1 < |v| && v[i + 1] == '\\' {
      ReadBackslashTwice(v, i, rest);
      ReadsCons('\\', ReadValue(Tail(v, i + 2, rest)), v[i..]);
      assert v[i..][1..] == v[i + 1..];
      NeverCatchesUp(v, i + 1, i + 2, rest);
    } else {
      ReadBackslashLost(v, i, rest);
    }
  }

  // ---------- whole names ----------

  ghost predicate CleanAttr(attr: string) {
    forall i :: 0 <= i < |attr| ==> IsAttrChar(attr[i])
  }

  ghost predicate WellFormedRdn(rdn: Rdn) {
    rdn != [] && forall i :: 0 <= i < |rdn| ==> CleanAttr(rdn[i].attr)
  }

  ghost predicate WellFormed(dn: Dn) {
    forall i :: 0 <= i < |dn| ==> WellFormedRdn(dn[i])
  }

  ghost predicate ReadableRdn(rdn: Rdn) {
    forall i :: 0 <= i < |rdn| ==> Readable(rdn[i].value, 0)
  }

  ghost predicate ReadableDn(dn: Dn) {
    forall i :: 0 <= i < |dn| ==> ReadableRdn(dn[i])
  }

  function PairsOf(rdn: Rdn): (ps: seq<Pair>)
    ensures |ps| == |rdn|
  {
    seq(|rdn|, i requires 0 <= i < |rdn| => Pair(rdn[i].attr, rdn[i].value))
  }

  function AllPairs(dn: Dn): (ps: seq<seq<Pair>>)
    ensures |ps| == |dn|
  {
    seq(|dn|, i requires 0 <= i < |dn| => PairsOf(dn[i]))
  }

  lemma {:induction false} ReadsAttr(attr: string, rest: string)
    requires CleanAttr(attr)
    ensures ReadAttr(attr + "=" + rest) == Some((attr, rest))
  {
    var s := attr + "=" + rest;
    if attr == "" {
      assert s[1..] == rest;
    } else {
      assert s[1..] == attr[1..] + "=" + rest;
      ReadsAttr(attr[1..], rest);
      assert s[0] == attr[0] && attr == [attr[0]] + attr[1..];
    }
  }

  /** What follows the value of the first AVA of an RDN. */
  function AfterFirst(rdn: Rdn, rest: string): string
    requires rdn != []
  {
    if |rdn| == 1 then rest else "+" + PrintRdn(rdn[1..]) + rest
  }

  lemma {:induction false} Regroup(a: string, p: string, q: string, rest: string)
    ensures a + "=" + p + "+" + q + rest == a + "=" + (p + ("+" + q + rest))
    ensures a + "=" + p + rest == a + "=" + (p + rest)
  {
  }

  lemma {:induction false} PrintedRdn(rdn: Rdn, rest: string)
    requires rdn != []
    ensures PrintRdn(rdn) + rest == rdn[0].attr + "=" + Tail(rdn[0].value, 0, AfterFirst(rdn, rest))
  {
    Regroup(rdn[0].attr, Printed(rdn[0].value, 0), if |rdn| == 1 then "" else PrintRdn(rdn[1..]), rest);
  }

  /** How the reader starts on a printed RDN. */
  lemma {:induction false} ReadFirst(rdn: Rdn, rest: string)
    requires WellFormedRdn(rdn)
    ensures var t := Tail(rdn[0].value, 0, AfterFirst(rdn, rest));
      ReadAttr(PrintRdn(rdn) + rest) == Some((rdn[0].attr, t))
  {
    PrintedRdn(rdn, rest);
    ReadsAttr(rdn[0].attr, Tail(rdn[0].value, 0, AfterFirst(rdn, rest)));
  }

  function Plus(first: Pair, r: Option<(seq<Pair>, string)>): Option<(seq<Pair>, string)> {
    match r
    case None => None
    case Some((more, rest)) => Some(([first] + more, rest))
  }

  lemma {:induction false} ReadAvasUnfold(s: string, attr: string, t: string, value: string, after: string)
    requires ReadAttr(s) == Some((attr, t)) && ReadValue(t) == Some((value, after))
    ensures ReadAvas(s) == if after == "" || after[0] == ',' then Some(([Pair(attr, value)], after))
                           else Plus(Pair(attr, value), ReadAvas(after[1..]))
  {
  }

  lemma {:induction false} ReadFirstValue(rdn: Rdn, rest: string)
    requires WellFormedRdn(rdn) && (rest == "" || rest[0] == ',') && Readable(rdn[0].value, 0)
    ensures ReadValue(Tail(rdn[0].value, 0, AfterFirst(rdn, rest))) == Some((rdn[0].value, AfterFirst(rdn, rest)))
  {
    ReadableReadsBack(rdn[0].value, 0, AfterFirst(rdn, rest));
    assert rdn[0].value[0..] == rdn[0].value;
  }

  lemma {:induction false} AfterPlus(rdn: Rdn, rest: string)
    requires |rdn| > 1
    ensures var after := AfterFirst(rdn, rest);
      after != "" && after[0] == '+' && after[1..] == PrintRdn(rdn[1..]) + rest
  {
    var more := PrintRdn(rdn[1..]);
    assert ("+" + more + rest)[1..] == more + rest;
  }

  /** One readable value: the reader goes on with the remaining AVAs. */
  lemma {:induction false} ReadFirstReadable(rdn: Rdn, rest: string)
    requires WellFormedRdn(rdn) && (rest == "" || rest[0] == ',') && Readable(rdn[0].value, 0)
    ensures var first := Pair(rdn[0].attr, rdn[0].value);
      ReadAvas(PrintRdn(rdn) + rest) ==
        if |rdn| == 1 then Some(([first], rest)) else Plus(first, ReadAvas(PrintRdn(rdn[1..]) + rest))
  {
    var after := AfterFirst(rdn, rest);
    ReadFirst(rdn, rest);
    ReadFirstValue(rdn, rest);
    ReadAvasUnfold(PrintRdn(rdn) + rest, rdn[0].attr, Tail(rdn[0].value, 0, after), rdn[0].value, after);
    if |rdn| > 1 {
      AfterPlus(rdn, rest);
    }
  }

  /** One unreadable value: what is read for it is something else. */
  lemma {:induction false} ReadFirstUnreadable(rdn: Rdn, rest: string)
    requires WellFormedRdn(rdn) && (rest == "" || rest[0] == ',') && !Readable(rdn[0].value, 0)
    ensures var r := ReadAvas(PrintRdn(rdn) + rest);
      r.Some? ==> |r.value.0| > 0 && r.value.0[0].value != rdn[0].value
  {
    var v, after := rdn[0].value, AfterFirst(rdn, rest);
    ReadFirst(rdn, rest);
    assert v[0..] == v;
    if Reads(Tail(v, 0, after), v) {
      OnlyReadableReadsBack(v, 0, after);
      assert false;
    }
  }

  lemma {:induction false} ReadableTail(rdn: Rdn)
    requires rdn != []
    ensures ReadableRdn(rdn) <==> Readable(rdn[0].value, 0) && ReadableRdn(rdn[1..])
  {
    if Readable(rdn[0].value, 0) && ReadableRdn(rdn[1..]) {
      assert forall i :: 0 < i < |rdn| ==> rdn[i] == rdn[1..][i - 1];
    }
  }

  lemma {:induction false} PairsCons(rdn: Rdn)
    requires rdn != []
    ensures PairsOf(rdn) == [Pair(rdn[0].attr, rdn[0].value)] + PairsOf(rdn[1..])
  {
  }

  lemma {:induction false} ReadableRdnReads(rdn: Rdn, rest: string)
    requires WellFormedRdn(rdn) && (rest == "" || rest[0] == ',') && ReadableRdn(rdn)
    ensures ReadAvas(PrintRdn(rdn) + rest) == Some((PairsOf(rdn), rest))
    decreases |rdn|
  {
    ReadFirstReadable(rdn, rest);
    PairsCons(rdn);
    if |rdn| > 1 {
      ReadableTail(rdn);
      ReadableRdnReads(rdn[1..], rest);
    } else {
      assert PairsOf(rdn) == [Pair(rdn[0].attr, rdn[0].value)];
    }
  }

  lemma {:induction false} OnlyReadableRdnReads(rdn: Rdn, rest: string)
    requires WellFormedRdn(rdn) && (rest == "" || rest[0] == ',')
    requires ReadAvas(PrintRdn(rdn) + rest).Some? && ReadAvas(PrintRdn(rdn) + rest).value.0 == PairsOf(rdn)
    ensures ReadableRdn(rdn)
    decreases |rdn|
  {
    if !Readable(rdn[0].value, 0) {
      ReadFirstUnreadable(rdn, rest);
    }
    ReadFirstReadable(rdn, rest);
    ReadableTail(rdn);
    if |rdn| > 1 {
      PairsCons(rdn);
      var more := ReadAvas(PrintRdn(rdn[1..]) + rest).value.0;
      var first := Pair(rdn[0].attr, rdn[0].value);
      assert more == ([first] + more)[1..] == ([first] + PairsOf(rdn[1..]))[1..] == PairsOf(rdn[1..]);
      OnlyReadableRdnReads(rdn[1..], rest);
    }
  }

  function AfterRdn(dn: Dn): string
    requires dn != []
  {
    if |dn| == 1 then "" else "," + Dn2Str(dn[1..])
  }

  lemma {:induction false} PrintedDn(dn: Dn)
    requires dn != []
    ensures Dn2Str(dn) == PrintRdn(dn[0]) + AfterRdn(dn)
  {
  }

  lemma {:induction false} ReadableDnReads(dn: Dn)
    requires WellFormed(dn) && dn != [] && ReadableDn(dn)
    ensures ReadRdns(Dn2Str(dn)) == Some(AllPairs(dn))
    decreases |dn|
  {
    PrintedDn(dn);
    ReadableRdnReads(dn[0], AfterRdn(dn));
    if |dn| == 1 {
      assert AllPairs(dn) == [PairsOf(dn[0])];
    } else {
      assert AfterRdn(dn)[1..] == Dn2Str(dn[1..]);
      ReadableDnReads(dn[1..]);
      assert AllPairs(dn) == [PairsOf(dn[0])] + AllPairs(dn[1..]);
    }
  }

  lemma {:induction false} FirstRdnReads(dn: Dn)
    requires WellFormed(dn) && dn != [] && ReadRdns(Dn2Str(dn)) == Some(AllPairs(dn))
    ensures ReadableRdn(dn[0])
  {
    PrintedDn(dn);
    var r := ReadAvas(Dn2Str(dn));
    assert r.value.0 == AllPairs(dn)[0] == PairsOf(dn[0]);
    OnlyReadableRdnReads(dn[0], AfterRdn(dn));
  }

  lemma {:induction false} RestReads(first: seq<Pair>, more: seq<seq<Pair>>, all: seq<seq<Pair>>)
    requires [first] + more == all
    ensures more == all[1..]
  {
  }

  lemma {:induction false} OtherRdnsRead(dn: Dn)
    requires WellFormed(dn) && |dn| > 1 && ReadableRdn(dn[0]) && ReadRdns(Dn2Str(dn)) == Some(AllPairs(dn))
    ensures ReadRdns(Dn2Str(dn[1..])) == Some(AllPairs(dn[1..]))
  {
    PrintedDn(dn);
    ReadableRdnReads(dn[0], AfterRdn(dn));
    assert AfterRdn(dn)[1..] == Dn2Str(dn[1..]);
    RestReads(PairsOf(dn[0]), ReadRdns(Dn2Str(dn[1..])).value, AllPairs(dn));
    assert AllPairs(dn)[1..] == AllPairs(dn[1..]);
  }

  lemma {:induction false} OnlyReadableDnReads(dn: Dn)
    requires WellFormed(dn) && dn != [] && ReadRdns(Dn2Str(dn)) == Some(AllPairs(dn))
    ensures ReadableDn(dn)
    decreases |dn|
  {
    FirstRdnReads(dn);
    if |dn| > 1 {
      OtherRdnsRead(dn);
      OnlyReadableDnReads(dn[1..]);
      assert forall i :: 0 < i < |dn| ==> dn[i] == dn[1..][i - 1];
    }
  }

  lemma {:induction false} PrintedNotEmpty(dn: Dn)
    requires WellFormed(dn) && dn != []
    ensures Dn2Str(dn) != ""
  {
    PrintedDn(dn);
    PrintedRdn(dn[0], AfterRdn(dn));
  }

  /** `dn2str` can be read back exactly when no value holds a backslash that the printer leaves dangling. */
  lemma {:induction false} Dn2StrInvertibleIff(dn: Dn)
    requires WellFormed(dn)
    ensures ReadDn(Dn2Str(dn)) == Some(AllPairs(dn)) <==> ReadableDn(dn)
  {
    if dn != [] {
      PrintedNotEmpty(dn);
      if ReadableDn(dn) {
        ReadableDnReads(dn);
      } else if ReadRdns(Dn2Str(dn)) == Some(AllPairs(dn)) {
        OnlyReadableDnReads(dn);
        assert false;
      }
    }
  }

  /** In particular every name whose values are free of backslashes is recovered. */
  lemma {:induction false} NoBackslashInvertible(dn: Dn)
    requires WellFormed(dn)
    requires forall i, j :: 0 <= i < |dn| && 0 <= j < |dn[i]| ==> '\\' !in dn[i][j].value
    ensures ReadDn(Dn2Str(dn)) == Some(AllPairs(dn))
  {
    Dn2StrInvertibleIff(dn);
  }

  /** A name with the value a\b is not: the backslash is printed as it stands, and the reader drops it. */
  lemma {:induction false} BackslashLost(dn: Dn)
    requires WellFormed(dn) && |dn| == 1 && |dn[0]| == 1 && dn[0][0].value == ['a', '\\', 'b']
    ensures ReadDn(Dn2Str(dn)) != Some(AllPairs(dn))
  {
    var v := dn[0][0].value;
    assert v[1] == '\\' && !Marked(v, 2);
    assert !Readable(v, 0);
    Dn2StrInvertibleIff(dn);
  }

  // ---------- the ends of a value ----------

  /** The number of backslashes just before position `n`. */
  function Backslashes(s: string, n: nat): nat
    requires n <= |s|
  {
    if n > 0 && s[n - 1] == '\\' then 1 + Backslashes(s, n - 1) else 0
  }

  /** Backslashes pair up from the left, so a character is escaped exactly if their number before it is odd. */
  predicate Escaped(s: string, n: nat)
    requires n <= |s|
  {
    Backslashes(s, n) % 2 == 1
  }

  /** The printed form of the first `n` characters. */
  function PrintedTo(v: string, n: nat): string
    requires n <= |v|
  {
    if n == 0 then "" else PrintedTo(v, n - 1) + if Marked(v, n - 1) then ['\\', v[n - 1]] else [v[n - 1]]
  }

  lemma {:induction false} PrintedInTwo(v: string, n: nat)
    requires n <= |v|
    ensures Printed(v, 0) == PrintedTo(v, n) + Printed(v, n)
  {
    if n > 0 {
      PrintedInTwo(v, n - 1);
    }
  }

  lemma {:induction false} BackslashesOfPrefix(s: string, t: string, n: nat)
    requires n <= |s|
    ensures Backslashes(s + t, n) == Backslashes(s, n)
  {
    if n > 0 && s[n - 1] == '\\' {
      BackslashesOfPrefix(s, t, n - 1);
    }
  }

  /** Printing keeps the backslashes at the end of a prefix: none is added after a marked character or in the run. */
  lemma {:induction false} BackslashesPrinted(v: string, n: nat)
    requires n <= |v|
    ensures Backslashes(PrintedTo(v, n), |PrintedTo(v, n)|) == Backslashes(v, n)
  {
    if n > 0 && v[n - 1] == '\\' {
      BackslashesPrinted(v, n - 1);
      BackslashesOfPrefix(PrintedTo(v, n - 1), ['\\'], |PrintedTo(v, n - 1)|);
    }
  }

  /**
   The printed form of a value that ends in a space ends in one, escaped exactly if an even number of backslashes
   precedes it in the value.
   */
  lemma {:induction false} FinalSpaceEscapedIff(v: string)
    requires v != "" && v[|v| - 1] == ' '
    ensures var p := Printed(v, 0);
      && p != "" && p[|p| - 1] == ' '
      && (Escaped(p, |p| - 1) <==> Backslashes(v, |v| - 1) % 2 == 0)
  {
    var n := |v| - 1;
    var head := PrintedTo(v, n);
    PrintedInTwo(v, n);
    assert Printed(v, n + 1) == "";
    assert Printed(v, 0) == (head + ['\\']) + [' '];
    BackslashesPrinted(v, n);
    BackslashesOfPrefix(head, ['\\'], |head|);
    BackslashesOfPrefix(head + ['\\'], [' '], |head| + 1);
  }

  /** The value a, backslash, space is printed with a bare space at its end: its two backslashes escape each other. */
  lemma {:induction false} BareFinalSpace(v: string)
    requires v == ['a', '\\', ' ']
    ensures var p := Printed(v, 0); p == ['a', '\\', '\\', ' '] && !Escaped(p, 3)
  {
    assert Backslashes(v, 2) == 1 + Backslashes(v, 1);
    FinalSpaceEscapedIff(v);
    assert Printed(v, 3) == "" && Printed(v, 2) == ['\\', ' '] && Printed(v, 1) == ['\\', '\\', ' '];
  }

  lemma {:induction false} PrintedLast(v: string, i: nat)
    requires i < |v|
    ensures |Printed(v, i)| > 0 && Printed(v, i)[|Printed(v, i)| - 1] == v[|v| - 1]
    decreases |v| - i
  {
    if i < |v| - 1 {
      PrintedLast(v, i + 1);
    } else {
      assert Printed(v, i + 1) == "";
    }
  }

  /**
   No printed value starts with a bare space or number sign, and none whose value has no backslash before its last
   character ends with a bare space.
   */
  lemma {:induction false} EndsAreEscaped(v: string)
    requires v != ""
    ensures Printed(v, 0)[0] != ' ' && Printed(v, 0)[0] != '#'
    ensures var p := Printed(v, 0);
      p[|p| - 1] == ' ' && (|v| == 1 || v[|v| - 2] != '\\') ==> Escaped(p, |p| - 1)
  {
    PrintedLast(v, 0);
    if v[|v| - 1] == ' ' {
      FinalSpaceEscapedIff(v);
    }
  }

  /** Exactly these are escaped: the special characters of RFC 4514 but the backslash, a quote, NUL, and the ends. */
  lemma {:induction false} EscapedAre(v: string, i: nat)
    requires i < |v|
    ensures Printed(v, 0) == PrintedTo(v, i) + (if Marked(v, i) then ['\\', v[i]] else [v[i]]) + Printed(v, i + 1)
    ensures v[i] in {'"', '+', ',', ';', '<', '>', '\'', '\0'} ==> Marked(v, i)
    ensures v[i] !in {'"', '+', ',', ';', '<', '>', '\'', '\0', '#', ' '} ==> !Marked(v, i)
    ensures v[i] == '#' ==> (Marked(v, i) <==> i == 0)
    ensures v[i] == ' ' ==> (Marked(v, i) <==> i == 0 || i == |v| - 1)
  {
    PrintedInTwo(v, i);
  }
}
