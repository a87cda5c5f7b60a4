/**
 Auditing of nested server-side command calls (ipalib/frontend.py): the outermost call marks the
 thread's context, and only the call whose name matches the mark writes a journal record.
 */
module Audit {
  import opened Common

  /** Command names are class names, hence never empty. */
  type Name = s: string | s != "" witness "x"

  datatype Outcome = Returned | Raised(exception: string)

  /**
   One call as it happened: whether its parameters passed validation, the calls its body made in order
   (a body may catch what they raise), how the body ended and whether a returned value passed validation.
   */
  datatype Call = Call(name: Name, valid: bool, children: seq<Call>, outcome: Outcome, outputOk: bool)

  datatype Record = Record(func: Name, result: string)

  datatype State = State(mark: Option<Name>, journal: seq<Record>)

  function Status(c: Call): string {
    match c.outcome
    case Returned => "SUCCESS"
    case Raised(e) => e
  }

  /** The call gets as far as `__audit_to_journal`. */
  predicate Reaches(c: Call) { c.valid && (c.outcome.Raised? || c.outputOk) }

  // ---------- what a call does to the mark and the journal ----------

  function Enter(c: Call, s: State): State {
    if c.name != "console" && s.mark.None? then s.(mark := Some(c.name)) else s
  }

  function Leave(c: Call, s: State): State {
    if Reaches(c) && s.mark == Some(c.name)
    then State(None, s.journal + [Record(c.name, Status(c))]) else s
  }

  function Run(c: Call, s: State): State
    decreases c, 1
  {
    if !c.valid then s else Leave(c, RunAll(c.children, Enter(c, s)))
  }

  function RunAll(cs: seq<Call>, s: State): State
    decreases cs, 0
  {
    if cs == [] then s else RunAll(cs[1..], Run(cs[0], s))
  }

  lemma {:induction false} RunAppend(cs: seq<Call>, c: Call, s: State)
    ensures RunAll(cs + [c], s) == Run(c, RunAll(cs, s))
    decreases |cs|
  {
    if cs == [] {
      assert cs + [c] == [c];
      assert RunAll([c], s) == RunAll([], Run(c, s));
    } else {
      assert (cs + [c])[1..] == cs[1..] + [c];
      RunAppend(cs[1..], c, Run(cs[0], s));
    }
  }

  class Session {
    var auditAction: Option<Name>
    var journal: seq<Record>

    constructor ()
      ensures auditAction == None && journal == []
    {
      auditAction, journal := None, [];
    }

    ghost function Abs(): State
      reads this
    {
      State(auditAction, journal)
    }

    method AuditToJournal(func: Name, result: string)
      modifies this
      ensures Abs() == if old(auditAction) == Some(func)
                       then State(None, old(journal) + [Record(func, result)]) else old(Abs())
    {
      if auditAction != Some(func) {
        return;
      }
      auditAction := None;
      journal := journal + [Record(func, result)];
    }

    /** `__do_call` on the server; `raised` says whether the caller sees an exception. */
    method DoCall(c: Call) returns (raised: bool)
      modifies this
      ensures Abs() == Run(c, old(Abs()))
      ensures raised <==> !(c.valid && c.outcome.Returned? && c.outputOk)
      decreases c
    {
      if !c.valid {
        return true;
      }
      if c.name != "console" && auditAction.None? {
        auditAction := Some(c.name);
      }
      ghost var entered := Abs();
      var i := 0;
      while i < |c.children|
        invariant 0 <= i <= |c.children|
        invariant Abs() == RunAll(c.children[..i], entered)
      {
        var childRaised := DoCall(c.children[i]);
        assert c.children[..i + 1] == c.children[..i] + [c.children[i]];
        RunAppend(c.children[..i], c.children[i], entered);
        i := i + 1;
      }
      assert c.children[..i] == c.children;
      if c.outcome.Raised? {
        AuditToJournal(c.name, c.outcome.exception);
        return true;
      }
      if !c.outputOk {
        return true;
      }
      AuditToJournal(c.name, "SUCCESS");
      return false;
    }
  }

  // ---------- under a mark, only calls of that name can write ----------

  /** No executed call among `cs`, at any depth, has this name and reaches the audit. */
  ghost predicate Silent(n: Name, cs: seq<Call>)
    decreases cs
  {
    forall i :: 0 <= i < |cs| && cs[i].valid ==>
      !(cs[i].name == n && Reaches(cs[i])) && Silent(n, cs[i].children)
  }

  ghost predicate SilentCall(n: Name, c: Call) {
    c.valid ==> !(c.name == n && Reaches(c)) && Silent(n, c.children)
  }

  lemma {:induction false} JournalGrows(c: Call, s: State)
    ensures s.journal <= Run(c, s).journal
    decreases c, 1
  {
    if c.valid {
      JournalGrowsAll(c.children, Enter(c, s));
    }
  }

  lemma {:induction false} JournalGrowsAll(cs: seq<Call>, s: State)
    ensures s.journal <= RunAll(cs, s).journal
    decreases cs, 0
  {
    if cs != [] {
      JournalGrows(cs[0], s);
      JournalGrowsAll(cs[1..], Run(cs[0], s));
    }
  }

  /** Under mark `n`, a silent call changes nothing; any other call writes a record. */
  lemma {:induction false} MarkedCall(n: Name, c: Call, s: State)
    requires s.mark == Some(n)
    ensures SilentCall(n, c) ==> Run(c, s) == s
    ensures !SilentCall(n, c) ==> |Run(c, s).journal| > |s.journal|
    decreases c, 1
  {
    if c.valid {
      MarkedCalls(n, c.children, s);
    }
  }

  lemma {:induction false} MarkedCalls(n: Name, cs: seq<Call>, s: State)
    requires s.mark == Some(n)
    ensures Silent(n, cs) ==> RunAll(cs, s) == s
    ensures !Silent(n, cs) ==> |RunAll(cs, s).journal| > |s.journal|
    decreases cs, 0
  {
    if cs != [] {
      MarkedCall(n, cs[0], s);
      var rest := cs[1..];
      assert forall i :: 0 <= i < |rest| ==> rest[i] == cs[i + 1];
      if SilentCall(n, cs[0]) {
        MarkedCalls(n, rest, s);
        assert Silent(n, cs) <==> Silent(n, rest) by {
          if Silent(n, rest) {
            assert forall i :: 0 < i < |cs| ==> cs[i] == rest[i - 1];
          }
        }
      } else {
        JournalGrowsAll(rest, Run(cs[0], s));
      }
    }
  }

  // ---------- one record per top-level call ----------

  /** From a clean context, exactly when the root, and nobody below it, writes the one record. */
  lemma {:induction false} TopLevelIff(root: Call, journal: seq<Record>)
    requires root.valid && root.name != "console"
    ensures var clean := State(None, journal);
      (&& RunAll(root.children, Enter(root, clean)).journal == journal
       && Run(root, clean) == State(None, journal + [Record(root.name, Status(root))]))
      <==> Reaches(root) && Silent(root.name, root.children)
  {
    MarkedCalls(root.name, root.children, State(Some(root.name), journal));
  }

  /** A returned value that fails output validation leaves no record and the mark set. */
  lemma {:induction false} BadOutputLeavesMark(root: Call, journal: seq<Record>)
    requires root.valid && root.name != "console" && root.outcome.Returned? && !root.outputOk
    requires Silent(root.name, root.children)
    ensures Run(root, State(None, journal)) == State(Some(root.name), journal)
  {
    MarkedCalls(root.name, root.children, State(Some(root.name), journal));
  }

  /** ... after which no later call of the same context is audited until one of that name completes. */
  lemma {:induction false} StuckMarkSuppresses(root: Call, later: seq<Call>, journal: seq<Record>)
    requires root.valid && root.name != "console" && root.outcome.Returned? && !root.outputOk
    requires Silent(root.name, root.children)
    ensures RunAll([root] + later, State(None, journal)).journal == journal <==> Silent(root.name, later)
  {
    BadOutputLeavesMark(root, journal);
    assert ([root] + later)[1..] == later;
    MarkedCalls(root.name, later, State(Some(root.name), journal));
  }

  // ---------- whole sessions ----------

  /** The call and, for `console`, the calls made from it, are audited as intended. */
  ghost predicate Clean(c: Call)
  {
    c.valid ==>
      if c.name == "console" then forall i :: 0 <= i < |c.children| ==> Clean(c.children[i])
      else Reaches(c) && Silent(c.name, c.children)
  }

  /** One record per accepted call, in order; `console` itself is never audited, only what is called from it. */
  function Log(c: Call): seq<Record>
    decreases c, 1
  {
    if !c.valid then []
    else if c.name == "console" then LogAll(c.children)
    else [Record(c.name, Status(c))]
  }

  function LogAll(cs: seq<Call>): seq<Record>
    decreases cs, 0
  {
    if cs == [] then [] else Log(cs[0]) + LogAll(cs[1..])
  }

  lemma {:induction false} CallIsLogged(c: Call, journal: seq<Record>)
    requires Clean(c)
    ensures Run(c, State(None, journal)) == State(None, journal + Log(c))
    decreases c, 1
  {
    if c.valid {
      if c.name == "console" {
        SessionIsLogged(c.children, journal);
      } else {
        TopLevelIff(c, journal);
      }
    }
  }

  /** Over every session of clean calls the journal is exactly their log, and the mark ends cleared. */
  lemma {:induction false} SessionIsLogged(cs: seq<Call>, journal: seq<Record>)
    requires forall i :: 0 <= i < |cs| ==> Clean(cs[i])
    ensures RunAll(cs, State(None, journal)) == State(None, journal + LogAll(cs))
    decreases cs, 0
  {
    if cs != [] {
      CallIsLogged(cs[0], journal);
      SessionIsLogged(cs[1..], journal + Log(cs[0]));
      assert journal + Log(cs[0]) + LogAll(cs[1..]) == journal + (Log(cs[0]) + LogAll(cs[1..]));
    }
  }

  /** Requests in turn, each in a context of its own: the mark does not outlive the request. */
  function RunRequests(requests: seq<seq<Call>>, journal: seq<Record>): seq<Record> {
    if requests == [] then journal else RunRequests(requests[1..], RunAll(requests[0], State(None, journal)).journal)
  }

  function LogRequests(requests: seq<seq<Call>>): seq<Record> {
    if requests == [] then [] else LogAll(requests[0]) + LogRequests(requests[1..])
  }

  lemma {:induction false} RequestsAreLogged(requests: seq<seq<Call>>, journal: seq<Record>)
    requires forall k, i :: 0 <= k < |requests| && 0 <= i < |requests[k]| ==> Clean(requests[k][i])
    ensures RunRequests(requests, journal) == journal + LogRequests(requests)
  {
    if requests != [] {
      SessionIsLogged(requests[0], journal);
      RequestsAreLogged(requests[1..], journal + LogAll(requests[0]));
    }
  }

  /** A request that ends with the mark set costs its own record and no record of the requests after it. */
  lemma {:induction false} StuckMarkEndsWithRequest(root: Call, later: seq<seq<Call>>, journal: seq<Record>)
    requires root.valid && root.name != "console" && root.outcome.Returned? && !root.outputOk
    requires Silent(root.name, root.children)
    requires forall k, i :: 0 <= k < |later| && 0 <= i < |later[k]| ==> Clean(later[k][i])
    ensures RunRequests([[root]] + later, journal) == journal + LogRequests(later)
  {
    BadOutputLeavesMark(root, journal);
    assert [root][1..] == [];
    assert RunAll([root], State(None, journal)) == RunAll([], Run(root, State(None, journal)));
    assert ([[root]] + later)[1..] == later;
    RequestsAreLogged(later, journal);
  }

  /** The one record of a clean call says SUCCESS if it returned, and names the exception otherwise. */
  lemma {:induction false} RecordSays(c: Call, journal: seq<Record>)
    requires Clean(c) && c.valid && c.name != "console"
    ensures var after := Run(c, State(None, journal)).journal;
      && |after| == |journal| + 1 && after[..|journal|] == journal && after[|journal|].func == c.name
      && (c.outcome.Returned? ==> after[|journal|].result == "SUCCESS")
      && (c.outcome.Raised? ==> after[|journal|].result == c.outcome.exception)
  {
    CallIsLogged(c, journal);
  }

  /** A root whose parameters are valid and whose calls are silent is recorded exactly if it raised or its output is valid. */
  lemma {:induction false} RecordedIff(root: Call, journal: seq<Record>)
    requires root.valid && root.name != "console" && Silent(root.name, root.children)
    ensures var after := Run(root, State(None, journal));
      && (root.outcome.Raised? || root.outputOk ==> |after.journal| == |journal| + 1 && after.mark == None)
      && (root.outcome.Returned? && !root.outputOk ==> after.journal == journal && after.mark == Some(root.name))
  {
    MarkedCalls(root.name, root.children, State(Some(root.name), journal));
  }
}
