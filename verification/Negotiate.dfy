/**
 The Negotiate and cookie authentication loop of `KerbTransport` (ipalib/rpc.py), after section 4 of
 RFC 4559. The server, and the security context it talks to, are a script of replies; a script that
 ends means the server closed the connection.
 */
module Negotiate {
  import opened Common

  datatype Header = Header(name: string, value: string)

  /** One `step()` of a security context: it raises, or returns a token and may then be complete. */
  datatype Step = StepFails | StepOk(token: string, complete: bool)

  /** Starting a security context: creating it may fail before it is stored. */
  datatype Start = NoContext | Started(first: Step)

  /**
   A response: its status, the decoded token of its Negotiate field ("" when there is none), and what
   the pending context would do with that token, or a fresh context if one is started now.
   */
  datatype Reply = Reply(status: int, token: string, step: Step, start: Start)

  datatype Outcome = Parsed | ProtocolError(status: int) | KerberosError | Disconnected

  /** The fields of the transport: extra headers, and whether a security context is pending. */
  datatype Transport = Transport(headers: seq<Header>, pending: bool)

  datatype Verdict = Done | Again | Raise

  // ---------- headers ----------

  function Count(hs: seq<Header>, name: string): nat {
    if hs == [] then 0 else (if hs[0].name == name then 1 else 0) + Count(hs[1..], name)
  }

  /** `_remove_extra_header`: drops the first header of that name. */
  function Without(hs: seq<Header>, name: string): seq<Header> {
    if hs == [] then [] else if hs[0].name == name then hs[1..] else [hs[0]] + Without(hs[1..], name)
  }

  function WithAuth(hs: seq<Header>, token: string): seq<Header> {
    Without(hs, "Authorization") + if token == "" then [] else [Header("Authorization", "negotiate " + token)]
  }

  lemma {:induction false} WithoutHead(hs: seq<Header>, i: nat, name: string)
    requires i < |hs|
    ensures hs[i].name == name ==> Without(hs[i..], name) == hs[i + 1..]
    ensures hs[i].name != name ==>
      hs[..i] + Without(hs[i..], name) == hs[..i + 1] + Without(hs[i + 1..], name)
  {
    assert hs[i..][1..] == hs[i + 1..];
    if hs[i].name != name {
      assert Without(hs[i..], name) == [hs[i]] + Without(hs[i + 1..], name);
      assert hs[..i + 1] == hs[..i] + [hs[i]];
    }
  }

  lemma {:induction false} CountSum(a: seq<Header>, b: seq<Header>, name: string)
    ensures Count(a + b, name) == Count(a, name) + Count(b, name)
  {
    if a == [] {
      assert a + b == b;
    } else {
      assert (a + b)[1..] == a[1..] + b;
      CountSum(a[1..], b, name);
    }
  }

  lemma {:induction false} CountWithout(hs: seq<Header>, drop: string, name: string)
    ensures Count(Without(hs, drop), name) ==
      Count(hs, name) - if name == drop && Count(hs, name) > 0 then 1 else 0
  {
    if hs != [] && hs[0].name != drop {
      CountWithout(hs[1..], drop, name);
      assert Without(hs, drop)[1..] == Without(hs[1..], drop);
    }
  }

  lemma {:induction false} CountOne(h: Header, name: string)
    ensures Count([h], name) == if h.name == name then 1 else 0
  {
    assert [h][1..] == [];
  }

  /** At most one Cookie and at most one Authorization header. */
  predicate OneEach(hs: seq<Header>) { Count(hs, "Cookie") <= 1 && Count(hs, "Authorization") <= 1 }

  // ---------- the steps of the loop ----------

  /** `get_auth_info`; the flag says whether it returned. */
  function AuthInfo(t: Transport, cookie: Option<Cookie>, useCookie: bool, start: Start): (Transport, bool) {
    var hs := Without(t.headers, "Cookie");
    if useCookie && cookie.Some? then (Transport(hs + [Header("Cookie", cookie.value)], t.pending), true)
    else
      match start
      case NoContext => (Transport(hs, t.pending), false)
      case Started(StepFails) => (Transport(hs, true), false)
      case Started(StepOk(token, _)) => (Transport(WithAuth(hs, token), true), true)
  }

  /** `_auth_complete`. */
  function AuthComplete(t: Transport, r: Reply): (Transport, Verdict) {
    if t.pending then
      if r.token == "" then (t, Raise)
      else
        match r.step
        case StepFails => (t, Raise)
        case StepOk(token, complete) =>
          if complete then (t.(pending := false), Done)
          else (t.(headers := WithAuth(t.headers, token)), Again)
    else if r.status == 401 then
      var (t', ok) := AuthInfo(t, None, false, r.start);
      (t', if ok then Again else Raise)
    else (t, Done)
  }

  /** What one response leads to. */
  function Respond(t: Transport, r: Reply): (Transport, Verdict, Outcome) {
    if r.status != 200 && r.status != 401 then (t, Done, ProtocolError(r.status))
    else
      var (t', verdict) := AuthComplete(t, r);
      (t', verdict, if verdict == Raise then KerberosError else if r.status == 200 then Parsed else ProtocolError(401))
  }

  /** A request as it went: the headers of each send, how it ended and what it left behind. */
  datatype Run = Run(sends: seq<seq<Header>>, outcome: Outcome, left: Transport)

  function Loop(t: Transport, replies: seq<Reply>): Run
    decreases |replies|
  {
    if replies == [] then Run([t.headers], Disconnected, t)
    else
      var (t', verdict, outcome) := Respond(t, replies[0]);
      if verdict == Again then
        var rest := Loop(t', replies[1..]);
        rest.(sends := [t.headers] + rest.sends)
      else Run([t.headers], outcome, t')
  }

  /** `single_request` on a fresh connection. */
  function Request(t: Transport, cookie: Option<Cookie>, start: Start, replies: seq<Reply>): Run {
    var (t', ok) := AuthInfo(t, cookie, true, start);
    if ok then Loop(t', replies) else Run([], KerberosError, t')
  }

  /** After `sends`, the loop that goes on from `t` with the replies left makes the run `whole`. */
  ghost predicate Leads(sends: seq<seq<Header>>, t: Transport, replies: seq<Reply>, whole: Run) {
    var rest := Loop(t, replies);
    whole == Run(sends + rest.sends, rest.outcome, rest.left)
  }

  lemma {:induction false} LeadsOn(sends: seq<seq<Header>>, t: Transport, replies: seq<Reply>, whole: Run)
    requires replies != [] && Leads(sends, t, replies, whole)
    ensures var (t', verdict, outcome) := Respond(t, replies[0]);
      if verdict == Again then Leads(sends + [t.headers], t', replies[1..], whole)
      else whole == Run(sends + [t.headers], outcome, t')
  {
    var (t', verdict, outcome) := Respond(t, replies[0]);
    if verdict == Again {
      var rest := Loop(t', replies[1..]);
      assert sends + ([t.headers] + rest.sends) == sends + [t.headers] + rest.sends;
    }
  }

  class KerbTransport {
    var extraHeaders: seq<Header>
    var secContext: bool
    var sends: seq<seq<Header>>

    constructor (headers: seq<Header>)
      ensures Abs() == Transport(headers, false) && sends == []
    {
      extraHeaders, secContext, sends := headers, false, [];
    }

    ghost function Abs(): Transport
      reads this
    {
      Transport(extraHeaders, secContext)
    }

    method RemoveExtraHeader(name: string)
      modifies this`extraHeaders
      ensures extraHeaders == Without(old(extraHeaders), name)
    {
      var i := 0;
      while i < |extraHeaders|
        invariant 0 <= i <= |extraHeaders| && extraHeaders == old(extraHeaders)
        invariant Without(extraHeaders, name) == extraHeaders[..i] + Without(extraHeaders[i..], name)
      {
        if extraHeaders[i].name == name {
          WithoutHead(extraHeaders, i, name);
          extraHeaders := extraHeaders[..i] + extraHeaders[i + 1..];
          return;
        }
        WithoutHead(extraHeaders, i, name);
        i := i + 1;
      }
    }

    method SetAuthHeader(token: string)
      modifies this`extraHeaders
      ensures extraHeaders == WithAuth(old(extraHeaders), token)
    {
      RemoveExtraHeader("Authorization");
      if token != "" {
        extraHeaders := extraHeaders + [Header("Authorization", "negotiate " + token)];
      }
    }

    method GetAuthInfo(cookie: Option<Cookie>, useCookie: bool, start: Start) returns (ok: bool)
      modifies this`extraHeaders, this`secContext
      ensures (Abs(), ok) == AuthInfo(old(Abs()), cookie, useCookie, start)
    {
      RemoveExtraHeader("Cookie");
      if useCookie && cookie.Some? {
        extraHeaders := extraHeaders + [Header("Cookie", cookie.value)];
        return true;
      }
      if start.NoContext? {
        return false;
      }
      secContext := true;
      if start.first.StepFails? {
        return false;
      }
      SetAuthHeader(start.first.token);
      return true;
    }

    method CompleteAuth(r: Reply) returns (verdict: Verdict)
      modifies this`extraHeaders, this`secContext
      ensures (Abs(), verdict) == AuthComplete(old(Abs()), r)
    {
      if secContext {
        if r.token == "" || r.step.StepFails? {
          return Raise;
        }
        if r.step.complete {
          secContext := false;
          return Done;
        }
        SetAuthHeader(r.step.token);
        return Again;
      }
      if r.status == 401 {
        var ok := GetAuthInfo(None, false, r.start);
        return if ok then Again else Raise;
      }
      return Done;
    }

    /** What one reply leads to: another send, or the end. */
    method Exchange(r: Reply) returns (again: bool, outcome: Outcome)
      modifies this`extraHeaders, this`secContext
      ensures var (t, verdict, end) := Respond(old(Abs()), r);
        Abs() == t && again == (verdict == Again) && (!again ==> outcome == end)
    {
      if r.status != 200 {
        if r.status != 401 {
          return false, ProtocolError(r.status);
        }
      }
      var verdict := CompleteAuth(r);
      if verdict == Raise {
        return false, KerberosError;
      }
      return verdict == Again, if r.status == 200 then Parsed else ProtocolError(401);
    }

    method SingleRequest(cookie: Option<Cookie>, start: Start, replies: seq<Reply>) returns (outcome: Outcome)
      requires sends == []
      modifies this
      ensures Run(sends, outcome, Abs()) == Request(old(Abs()), cookie, start, replies)
      ensures OneEach(old(extraHeaders)) ==> SendsFor(old(Abs()), cookie, start, replies, sends)
    {
      if OneEach(extraHeaders) {
        SendsAre(Abs(), cookie, start, replies);
      }
      var ok := GetAuthInfo(cookie, true, start);
      if !ok {
        return KerberosError;
      }
      ghost var whole := Loop(Abs(), replies);
      var left := replies;
      assert [] + whole.sends == whole.sends;
      while true
        invariant Leads(sends, Abs(), left, whole)
        decreases |left|
      {
        if left != [] {
          LeadsOn(sends, Abs(), left, whole);
        }
        sends := sends + [extraHeaders];
        if left == [] {
          return Disconnected;
        }
        var again, end := Exchange(left[0]);
        if !again {
          return end;
        }
        left := left[1..];
      }
    }
  }

  // ---------- what every request keeps ----------

  lemma {:induction false} WithAuthOneEach(hs: seq<Header>, token: string)
    requires OneEach(hs)
    ensures OneEach(WithAuth(hs, token))
  {
    var kept := Without(hs, "Authorization");
    var added := if token == "" then [] else [Header("Authorization", "negotiate " + token)];
    CountWithout(hs, "Authorization", "Authorization");
    CountWithout(hs, "Authorization", "Cookie");
    CountSum(kept, added, "Authorization");
    CountSum(kept, added, "Cookie");
    CountOne(Header("Authorization", "negotiate " + token), "Authorization");
    CountOne(Header("Authorization", "negotiate " + token), "Cookie");
  }

  lemma {:induction false} AuthInfoOneEach(t: Transport, cookie: Option<Cookie>, useCookie: bool, start: Start)
    requires OneEach(t.headers)
    ensures OneEach(AuthInfo(t, cookie, useCookie, start).0.headers)
  {
    var hs := Without(t.headers, "Cookie");
    CountWithout(t.headers, "Cookie", "Cookie");
    CountWithout(t.headers, "Cookie", "Authorization");
    if useCookie && cookie.Some? {
      CountSum(hs, [Header("Cookie", cookie.value)], "Cookie");
      CountSum(hs, [Header("Cookie", cookie.value)], "Authorization");
      CountOne(Header("Cookie", cookie.value), "Cookie");
      CountOne(Header("Cookie", cookie.value), "Authorization");
    } else if start.Started? && start.first.StepOk? {
      WithAuthOneEach(hs, start.first.token);
    }
  }

  lemma {:induction false} LoopOneEach(t: Transport, replies: seq<Reply>)
    requires OneEach(t.headers)
    ensures forall hs :: hs in Loop(t, replies).sends ==> OneEach(hs)
    decreases |replies|
  {
    if replies != [] {
      var (t', verdict, outcome) := Respond(t, replies[0]);
      if verdict == Again {
        if t.pending {
          WithAuthOneEach(t.headers, replies[0].step.token);
        } else {
          AuthInfoOneEach(t, None, false, replies[0].start);
        }
        LoopOneEach(t', replies[1..]);
      }
    }
  }

  /** Every send carries at most one Cookie and at most one Authorization header. */
  lemma {:induction false} SendsCarryOneEach(t: Transport, cookie: Option<Cookie>, start: Start, replies: seq<Reply>)
    requires OneEach(t.headers)
    ensures forall hs :: hs in Request(t, cookie, start, replies).sends ==> OneEach(hs)
  {
    AuthInfoOneEach(t, cookie, true, start);
    var (t', ok) := AuthInfo(t, cookie, true, start);
    if ok {
      LoopOneEach(t', replies);
    }
  }

  /** The security-context steps that returned during the first `n` replies of a loop entered with `pending`. */
  function StepsTaken(pending: bool, replies: seq<Reply>, n: nat): nat
    requires n <= |replies|
    decreases n
  {
    if n == 0 then 0
    else if pending then
      (if replies[0].token != "" && replies[0].step.StepOk? then 1 else 0) + StepsTaken(true, replies[1..], n - 1)
    else
      (if replies[0].status == 401 && replies[0].start.Started? && replies[0].start.first.StepOk? then 1 else 0)
      + StepsTaken(true, replies[1..], n - 1)
  }

  /** The last reply the loop looked at completed the security context. */
  ghost predicate CompletedBy(r: Reply) { r.token != "" && r.step.StepOk? && r.step.complete }

  /** The number of replies received: one per send, unless the last send got none. */
  function Answered(run: Run): nat
    requires run.outcome.Disconnected? ==> run.sends != []
  {
    if run.outcome.Disconnected? then |run.sends| - 1 else |run.sends|
  }

  /** Each send but the first follows a step that returned; each such step but a completing one is followed by a send. */
  lemma {:induction false} LoopCountsSteps(t: Transport, replies: seq<Reply>)
    ensures var run := Loop(t, replies);
      && run.sends != []
      && Answered(run) <= |replies|
      && |run.sends| <= 1 + StepsTaken(t.pending, replies, Answered(run))
      && (run.outcome.Parsed? ==>
        && Answered(run) > 0
        && replies[Answered(run) - 1].status == 200
        && !run.left.pending
        && (if !t.pending && |run.sends| == 1 then true else CompletedBy(replies[Answered(run) - 1])))
    decreases |replies|
  {
    if replies != [] {
      var (t', verdict, outcome) := Respond(t, replies[0]);
      if verdict == Again {
        LoopCountsSteps(t', replies[1..]);
      }
    }
  }

  /** All security-context steps of a request that returned, up to reply `n`. */
  function TotalSteps(cookie: Option<Cookie>, start: Start, replies: seq<Reply>, n: nat): nat
    requires n <= |replies|
  {
    (if cookie.None? && start.Started? && start.first.StepOk? then 1 else 0) + StepsTaken(cookie.None?, replies, n)
  }

  /** At most one send with the cookie, and one per security-context step that returned. */
  lemma {:induction false} SendsAreBounded(t: Transport, cookie: Option<Cookie>, start: Start, replies: seq<Reply>)
    requires !t.pending
    ensures var run := Request(t, cookie, start, replies);
      run.sends != [] ==>
        && Answered(run) <= |replies|
        && |run.sends| <= (if cookie.Some? then 1 else 0) + TotalSteps(cookie, start, replies, Answered(run))
  {
    var (t', ok) := AuthInfo(t, cookie, true, start);
    if ok {
      LoopCountsSteps(t', replies);
    }
  }

  /** A response is parsed only on status 200, after the cookie alone or after the context completed. */
  lemma {:induction false} ParsedOnlyWhenAuthenticated(t: Transport, cookie: Option<Cookie>, start: Start, replies: seq<Reply>)
    requires !t.pending && Request(t, cookie, start, replies).outcome.Parsed?
    ensures var run := Request(t, cookie, start, replies);
      var n := |run.sends|;
      && 0 < n <= |replies| && replies[n - 1].status == 200
      && !run.left.pending
      && ((cookie.Some? && n == 1) || CompletedBy(replies[n - 1]))
  {
    var (t', ok) := AuthInfo(t, cookie, true, start);
    LoopCountsSteps(t', replies);
  }

  /** The cookie goes out with the first send only. */
  lemma {:induction false} CookieOnlyOnce(t: Transport, cookie: Option<Cookie>, start: Start, replies: seq<Reply>)
    requires OneEach(t.headers) && !t.pending
    ensures var run := Request(t, cookie, start, replies);
      forall k :: 0 <= k < |run.sends| ==>
        Count(run.sends[k], "Cookie") == if k == 0 && cookie.Some? then 1 else 0
  {
    var (t', ok) := AuthInfo(t, cookie, true, start);
    CountWithout(t.headers, "Cookie", "Cookie");
    var hs := Without(t.headers, "Cookie");
    if cookie.Some? {
      CountSum(hs, [Header("Cookie", cookie.value)], "Cookie");
      CountOne(Header("Cookie", cookie.value), "Cookie");
    } else if ok {
      WithAuthNoCookie(hs, start.first.token);
    }
    if ok {
      assert Count(t'.headers, "Cookie") == if cookie.Some? then 1 else 0;
      LoopCookies(t', replies);
    }
  }

  lemma {:induction false} WithAuthNoCookie(hs: seq<Header>, token: string)
    ensures Count(WithAuth(hs, token), "Cookie") == Count(hs, "Cookie")
  {
    var kept := Without(hs, "Authorization");
    var added := if token == "" then [] else [Header("Authorization", "negotiate " + token)];
    CountWithout(hs, "Authorization", "Cookie");
    CountSum(kept, added, "Cookie");
    CountOne(Header("Authorization", "negotiate " + token), "Cookie");
  }

  lemma {:induction false} LoopCookies(t: Transport, replies: seq<Reply>)
    requires Count(t.headers, "Cookie") <= if t.pending then 0 else 1
    ensures var sends := Loop(t, replies).sends;
      && sends != [] && sends[0] == t.headers
      && forall k :: 1 <= k < |sends| ==> Count(sends[k], "Cookie") == 0
    decreases |replies|
  {
    if replies != [] {
      var (t', verdict, outcome) := Respond(t, replies[0]);
      if verdict == Again {
        if t.pending {
          WithAuthNoCookie(t.headers, replies[0].step.token);
        } else {
          CountWithout(t.headers, "Cookie", "Cookie");
          WithAuthNoCookie(Without(t.headers, "Cookie"), replies[0].start.first.token);
        }
        assert t'.pending && Count(t'.headers, "Cookie") == 0;
        LoopCookies(t', replies[1..]);
        var rest := Loop(t', replies[1..]).sends;
        var sends := Loop(t, replies).sends;
        assert sends == [t.headers] + rest;
        forall k | 1 <= k < |sends|
          ensures Count(sends[k], "Cookie") == 0
        {
          assert sends[k] == rest[k - 1];
        }
      }
    }
  }

  // ---------- a context left pending ----------

  predicate Heard(r: Reply) { r.status == 200 || r.status == 401 }

  /** A reply that takes the pending context one step further, without completing it. */
  predicate Continues(r: Reply) { Heard(r) && r.token != "" && r.step.StepOk? && !r.step.complete }

  predicate Completes(r: Reply) { Heard(r) && r.token != "" && r.step.StepOk? && r.step.complete }

  /** The first reply that ends a negotiation, if the server sends one. */
  function FirstEnd(replies: seq<Reply>): Option<Reply> {
    if replies == [] then None else if Continues(replies[0]) then FirstEnd(replies[1..]) else Some(replies[0])
  }

  predicate CutShort(replies: seq<Reply>) {
    FirstEnd(replies).None? || !Completes(FirstEnd(replies).value)
  }

  /** How a negotiation ends, read off the replies. */
  function NegotiationEnd(replies: seq<Reply>): Outcome {
    match FirstEnd(replies)
    case None => Disconnected
    case Some(r) =>
      if !Heard(r) then ProtocolError(r.status)
      else if !Completes(r) then KerberosError
      else if r.status == 200 then Parsed
      else ProtocolError(401)
  }

  lemma {:induction false} PendingLoop(t: Transport, replies: seq<Reply>)
    requires t.pending
    ensures Loop(t, replies).left.pending <==> CutShort(replies)
    ensures Loop(t, replies).outcome == NegotiationEnd(replies)
    decreases |replies|
  {
    if replies != [] && Continues(replies[0]) {
      PendingLoop(t.(headers := WithAuth(t.headers, replies[0].step.token)), replies[1..]);
    }
  }

  /** A context that was created stays behind if its first step fails or the negotiation is cut short. */
  predicate Abandoned(start: Start, replies: seq<Reply>) {
    start.Started? && (start.first.StepFails? || CutShort(replies))
  }

  function StartEnd(start: Start, replies: seq<Reply>): Outcome {
    if start.Started? && start.first.StepOk? then NegotiationEnd(replies) else KerberosError
  }

  /** A context is left pending, read off what the request starts from and the replies. */
  predicate LeavesPending(pending: bool, cookie: Option<Cookie>, start: Start, replies: seq<Reply>) {
    if cookie.None? then Abandoned(start, replies) || (start.NoContext? && pending)
    else if pending then CutShort(replies)
    else replies != [] && replies[0].status == 401 && Abandoned(replies[0].start, replies[1..])
  }

  /** How a request ends, read off the same. */
  function RequestEnd(pending: bool, cookie: Option<Cookie>, start: Start, replies: seq<Reply>): Outcome {
    if cookie.None? then StartEnd(start, replies)
    else if pending then NegotiationEnd(replies)
    else if replies == [] then Disconnected
    else if replies[0].status == 200 then Parsed
    else if replies[0].status != 401 then ProtocolError(replies[0].status)
    else StartEnd(replies[0].start, replies[1..])
  }

  lemma {:induction false} CookieLoop(t: Transport, replies: seq<Reply>)
    requires !t.pending
    ensures Loop(t, replies).left.pending <==> LeavesPending(false, Some("k"), NoContext, replies)
    ensures Loop(t, replies).outcome == RequestEnd(false, Some("k"), NoContext, replies)
  {
    if replies != [] && replies[0].status == 401 {
      var (t', ok) := AuthInfo(t, None, false, replies[0].start);
      if ok {
        PendingLoop(t', replies[1..]);
      }
    }
  }

  /** Exactly when a request leaves a context pending: one was begun, now or before, and the negotiation was cut short. */
  lemma {:induction false} LeftPendingIff(t: Transport, cookie: Option<Cookie>, start: Start, replies: seq<Reply>)
    ensures Request(t, cookie, start, replies).left.pending <==> LeavesPending(t.pending, cookie, start, replies)
    ensures Request(t, cookie, start, replies).outcome == RequestEnd(t.pending, cookie, start, replies)
  {
    var (t', ok) := AuthInfo(t, cookie, true, start);
    if ok && t'.pending {
      PendingLoop(t', replies);
    } else if ok {
      CookieLoop(t', replies);
    }
  }

  /** With a cookie on a transport with a pending context, only a reply that completes that context is parsed. */
  lemma {:induction false} StaleParsesIff(t: Transport, cookie: Cookie, start: Start, replies: seq<Reply>)
    requires t.pending
    ensures Request(t, Some(cookie), start, replies).outcome.Parsed? <==>
      FirstEnd(replies).Some? && FirstEnd(replies).value.status == 200 && Completes(FirstEnd(replies).value)
    ensures Request(t, Some(cookie), start, replies).outcome.KerberosError? <==>
      FirstEnd(replies).Some? && Heard(FirstEnd(replies).value) && !Completes(FirstEnd(replies).value)
  {
    LeftPendingIff(t, Some(cookie), start, replies);
  }

  /** A pending context left behind makes the next request fail on a 200 that a clean transport would parse. */
  lemma {:induction false} StaleContextFails(headers: seq<Header>, cookie: Cookie, r: Reply, rest: seq<Reply>)
    requires r.status == 200 && r.token == ""
    ensures Request(Transport(headers, true), Some(cookie), NoContext, [r] + rest).outcome == KerberosError
    ensures Request(Transport(headers, false), Some(cookie), NoContext, [r] + rest).outcome == Parsed
  {
  }

  // ---------- what each send carries ----------

  /** The headers of other names, in order. */
  function Except(hs: seq<Header>, name: string): seq<Header> {
    if hs == [] then [] else (if hs[0].name == name then [] else [hs[0]]) + Except(hs[1..], name)
  }

  /** The Authorization header for a token; an empty token has none. */
  function Authorization(token: string): seq<Header> {
    if token == "" then [] else [Header("Authorization", "negotiate " + token)]
  }

  lemma {:induction false} ExceptSum(a: seq<Header>, b: seq<Header>, name: string)
    ensures Except(a + b, name) == Except(a, name) + Except(b, name)
  {
    if a == [] {
      assert a + b == b;
    } else {
      assert (a + b)[1..] == a[1..] + b;
      ExceptSum(a[1..], b, name);
    }
  }

  lemma {:induction false} ExceptOne(h: Header, name: string)
    ensures Except([h], name) == if h.name == name then [] else [h]
  {
    assert [h][1..] == [];
  }

  lemma {:induction false} ExceptNone(hs: seq<Header>, name: string)
    requires Count(hs, name) == 0
    ensures Except(hs, name) == hs
  {
    if hs != [] {
      ExceptNone(hs[1..], name);
    }
  }

  /** Removing a header that is there at most once leaves the headers of other names. */
  lemma {:induction false} WithoutIsExcept(hs: seq<Header>, name: string)
    requires Count(hs, name) <= 1
    ensures Without(hs, name) == Except(hs, name)
  {
    if hs != [] {
      if hs[0].name == name {
        ExceptNone(hs[1..], name);
      } else {
        WithoutIsExcept(hs[1..], name);
      }
    }
  }

  /** Only the first header of the name goes. */
  lemma {:induction false} WithoutFirst(before: seq<Header>, h: Header, after: seq<Header>)
    requires Count(before, h.name) == 0
    ensures Without(before + [h] + after, h.name) == before + after
  {
    var hs := before + [h] + after;
    if before == [] {
      assert hs[0] == h && hs[1..] == after == before + after;
    } else {
      var rest := before[1..] + [h] + after;
      assert hs[0] == before[0] && hs[1..] == rest;
      WithoutFirst(before[1..], h, after);
      assert Without(hs, h.name) == [before[0]] + Without(rest, h.name);
      assert [before[0]] + (before[1..] + after) == before + after;
    }
  }

  lemma {:induction false} WithoutAbsent(hs: seq<Header>, name: string)
    requires Count(hs, name) == 0
    ensures Without(hs, name) == hs
  {
    if hs != [] {
      WithoutAbsent(hs[1..], name);
    }
  }

  lemma {:induction false} WithAuthIs(hs: seq<Header>, token: string)
    requires Count(hs, "Authorization") <= 1
    ensures WithAuth(hs, token) == Except(hs, "Authorization") + Authorization(token)
    ensures Except(WithAuth(hs, token), "Authorization") == Except(hs, "Authorization")
    ensures Count(WithAuth(hs, token), "Authorization") <= 1
  {
    var rest := Except(hs, "Authorization");
    WithoutIsExcept(hs, "Authorization");
    CountWithout(hs, "Authorization", "Authorization");
    CountSum(rest, Authorization(token), "Authorization");
    CountOne(Header("Authorization", "negotiate " + token), "Authorization");
    ExceptSum(rest, Authorization(token), "Authorization");
    ExceptNone(rest, "Authorization");
    ExceptOne(Header("Authorization", "negotiate " + token), "Authorization");
  }

  /** A send that carries on with the token of a step. */
  ghost predicate CarriesOn(plain: seq<Header>, r: Reply, send: seq<Header>) {
    Continues(r) && send == plain + Authorization(r.step.token)
  }

  /** The sends of a loop with a pending context: after the first, each with the token of the last step. */
  ghost predicate StepByStep(plain: seq<Header>, replies: seq<Reply>, sends: seq<seq<Header>>) {
    && 0 < |sends| <= |replies| + 1
    && (forall k :: 0 <= k < |sends| - 1 ==> CarriesOn(plain, replies[k], sends[k + 1]))
    && (|sends| <= |replies| ==> !Continues(replies[|sends| - 1]))
  }

  lemma {:induction false} OneStepMore(plain: seq<Header>, replies: seq<Reply>, first: seq<Header>, rest: seq<seq<Header>>)
    requires replies != [] && rest != [] && CarriesOn(plain, replies[0], rest[0]) && StepByStep(plain, replies[1..], rest)
    ensures StepByStep(plain, replies, [first] + rest)
  {
    var sends := [first] + rest;
    forall k | 0 <= k < |sends| - 1
      ensures CarriesOn(plain, replies[k], sends[k + 1])
    {
      if k > 0 {
        assert CarriesOn(plain, replies[1..][k - 1], rest[k - 1 + 1]);
      }
    }
    assert |sends| <= |replies| ==> replies[|sends| - 1] == replies[1..][|rest| - 1];
  }

  lemma {:induction false} PendingSends(t: Transport, replies: seq<Reply>)
    requires t.pending && Count(t.headers, "Authorization") <= 1
    ensures StepByStep(Except(t.headers, "Authorization"), replies, Loop(t, replies).sends)
    ensures Loop(t, replies).sends[0] == t.headers
    decreases |replies|
  {
    if replies != [] && Continues(replies[0]) {
      var t' := t.(headers := WithAuth(t.headers, replies[0].step.token));
      WithAuthIs(t.headers, replies[0].step.token);
      PendingSends(t', replies[1..]);
      OneStepMore(Except(t.headers, "Authorization"), replies, t.headers, Loop(t', replies[1..]).sends);
    }
  }

  predicate StartOk(start: Start) { start.Started? && start.first.StepOk? }

  /** The transport sends its cookie with the first send, without a context of its own. */
  predicate CookieAlone(t: Transport, cookie: Option<Cookie>) { cookie.Some? && !t.pending }

  /** Whether send `k` is made, the ones before it having been made. */
  predicate LedTo(t: Transport, cookie: Option<Cookie>, start: Start, replies: seq<Reply>, k: nat)
    requires k <= |replies|
  {
    if k == 0 then cookie.Some? || StartOk(start)
    else if k == 1 && CookieAlone(t, cookie) then replies[0].status == 401 && StartOk(replies[0].start)
    else Continues(replies[k - 1])
  }

  /** The token of the step that led to send `k`. */
  function TokenOf(t: Transport, cookie: Option<Cookie>, start: Start, replies: seq<Reply>, k: nat): string
    requires k <= |replies| && LedTo(t, cookie, start, replies, k) && (k == 0 ==> cookie.None?)
  {
    if k == 0 then start.first.token
    else if k == 1 && CookieAlone(t, cookie) then replies[0].start.first.token
    else replies[k - 1].step.token
  }

  /** The given headers that every send carries. */
  function Given(hs: seq<Header>): seq<Header> { Except(Except(hs, "Cookie"), "Authorization") }

  function CookieHeader(cookie: Option<Cookie>): seq<Header> {
    if cookie.Some? then [Header("Cookie", cookie.value)] else []
  }

  /** Send `k` of a request: the cookie goes out first, any other send carries the token of the step that led to it. */
  ghost predicate SendIs(t: Transport, cookie: Option<Cookie>, start: Start, replies: seq<Reply>, k: nat, send: seq<Header>)
    requires k <= |replies|
  {
    && LedTo(t, cookie, start, replies, k)
    && send ==
      if k == 0 && cookie.Some? then Except(t.headers, "Cookie") + CookieHeader(cookie)
      else Given(t.headers) + (if t.pending then CookieHeader(cookie) else [])
           + Authorization(TokenOf(t, cookie, start, replies, k))
  }

  /** The sends of a request, read off what it starts from and the replies: what each carries and how many there are. */
  ghost predicate SendsFor(t: Transport, cookie: Option<Cookie>, start: Start, replies: seq<Reply>, sends: seq<seq<Header>>) {
    && |sends| <= |replies| + 1
    && (forall k :: 0 <= k < |sends| ==> SendIs(t, cookie, start, replies, k, sends[k]))
    && (|sends| <= |replies| ==> !LedTo(t, cookie, start, replies, |sends|))
  }

  /** A context started with `token` on the headers `hs`. */
  lemma {:induction false} StartedSends(hs: seq<Header>, token: string, replies: seq<Reply>)
    requires Count(hs, "Authorization") <= 1
    ensures var sends := Loop(Transport(WithAuth(hs, token), true), replies).sends;
      && StepByStep(Except(hs, "Authorization"), replies, sends)
      && sends[0] == Except(hs, "Authorization") + Authorization(token)
  {
    WithAuthIs(hs, token);
    PendingSends(Transport(WithAuth(hs, token), true), replies);
  }

  /** Without a cookie. */
  lemma {:induction false} SendsWithout(t: Transport, start: Start, replies: seq<Reply>)
    requires OneEach(t.headers)
    ensures SendsFor(t, None, start, replies, Request(t, None, start, replies).sends)
  {
    CountWithout(t.headers, "Cookie", "Authorization");
    WithoutIsExcept(t.headers, "Cookie");
    if StartOk(start) {
      var sends := Request(t, None, start, replies).sends;
      StartedSends(Except(t.headers, "Cookie"), start.first.token, replies);
      assert Given(t.headers) + [] == Given(t.headers);
      forall k | 0 <= k < |sends|
        ensures SendIs(t, None, start, replies, k, sends[k])
      {
        assert k > 0 ==> CarriesOn(Given(t.headers), replies[k - 1], sends[k - 1 + 1]);
      }
    }
  }

  /** The headers of a first send with a cookie, and those of them that stay. */
  lemma {:induction false} CookieHeaders(hs: seq<Header>, cookie: Option<Cookie>)
    requires OneEach(hs) && cookie.Some?
    ensures var first := Except(hs, "Cookie") + CookieHeader(cookie);
      && Without(hs, "Cookie") == Except(hs, "Cookie")
      && Count(first, "Authorization") <= 1 && Count(Except(hs, "Cookie"), "Authorization") <= 1
      && Without(first, "Cookie") == Except(hs, "Cookie")
      && Except(first, "Authorization") == Given(hs) + CookieHeader(cookie)
  {
    var base, header := Except(hs, "Cookie"), Header("Cookie", cookie.value);
    WithoutIsExcept(hs, "Cookie");
    CountWithout(hs, "Cookie", "Authorization");
    CountWithout(hs, "Cookie", "Cookie");
    CountSum(base, [header], "Authorization");
    CountOne(header, "Authorization");
    WithoutFirst(base, header, []);
    assert base + [header] + [] == base + [header] && base + [] == base;
    ExceptSum(base, [header], "Authorization");
    ExceptOne(header, "Authorization");
  }

  /** With a cookie, while a context is pending. */
  lemma {:induction false} SendsStale(t: Transport, cookie: Option<Cookie>, start: Start, replies: seq<Reply>)
    requires OneEach(t.headers) && cookie.Some? && t.pending
    ensures SendsFor(t, cookie, start, replies, Request(t, cookie, start, replies).sends)
  {
    CookieHeaders(t.headers, cookie);
    PendingSends(Transport(Except(t.headers, "Cookie") + CookieHeader(cookie), true), replies);
    var sends := Request(t, cookie, start, replies).sends;
    forall k | 0 <= k < |sends|
      ensures SendIs(t, cookie, start, replies, k, sends[k])
    {
      assert k > 0 ==> CarriesOn(Given(t.headers) + CookieHeader(cookie), replies[k - 1], sends[k - 1 + 1]);
    }
  }

  /** With a cookie on a clean transport. */
  lemma {:induction false} SendsClean(t: Transport, cookie: Option<Cookie>, start: Start, replies: seq<Reply>)
    requires OneEach(t.headers) && CookieAlone(t, cookie)
    ensures SendsFor(t, cookie, start, replies, Request(t, cookie, start, replies).sends)
  {
    CookieHeaders(t.headers, cookie);
    if replies != [] && replies[0].status == 401 && StartOk(replies[0].start) {
      SendsAfterCookie(t, cookie, start, replies);
    }
  }

  /** The cookie is rejected and a context started. */
  lemma {:induction false} SendsAfterCookie(t: Transport, cookie: Option<Cookie>, start: Start, replies: seq<Reply>)
    requires OneEach(t.headers) && CookieAlone(t, cookie)
    requires replies != [] && replies[0].status == 401 && StartOk(replies[0].start)
    ensures SendsFor(t, cookie, start, replies, Request(t, cookie, start, replies).sends)
  {
    var base, token := Except(t.headers, "Cookie"), replies[0].start.first.token;
    CookieHeaders(t.headers, cookie);
    var rest := Loop(Transport(WithAuth(base, token), true), replies[1..]).sends;
    var sends := Request(t, cookie, start, replies).sends;
    assert sends == [base + CookieHeader(cookie)] + rest;
    StartedSends(base, token, replies[1..]);
    assert Given(t.headers) + [] == Given(t.headers);
    forall k | 0 <= k < |sends|
      ensures SendIs(t, cookie, start, replies, k, sends[k])
    {
      if k > 1 {
        assert CarriesOn(Given(t.headers), replies[1..][k - 2], rest[k - 2 + 1]);
      }
    }
    assert |sends| <= |replies| ==> replies[|sends| - 1] == replies[1..][|rest| - 1];
  }

  /**
   Exactly which sends a request makes and what each carries: the cookie goes out first, every other send carries the
   token of the step that led to it, and all other headers stay, in order.
   */
  lemma {:induction false} SendsAre(t: Transport, cookie: Option<Cookie>, start: Start, replies: seq<Reply>)
    requires OneEach(t.headers)
    ensures SendsFor(t, cookie, start, replies, Request(t, cookie, start, replies).sends)
  {
    if cookie.None? {
      SendsWithout(t, start, replies);
    } else if t.pending {
      SendsStale(t, cookie, start, replies);
    } else {
      SendsClean(t, cookie, start, replies);
    }
  }
}
