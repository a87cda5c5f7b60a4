/**
 Server failover and session retries of `RPCClient` (ipalib/rpc.py). DNS, the servers and the cookie
 store are parameters: what each ping or call meets, and which cookie a reconnection loads.
 */
module Failover {
  import opened Common

  // ---------- get_url_list ----------

  function Occurrences(urls: seq<string>, url: string): nat {
    if urls == [] then 0 else (if urls[0] == url then 1 else 0) + Occurrences(urls[1..], url)
  }

  function RemoveFirst(urls: seq<string>, url: string): seq<string> {
    if urls == [] then [] else if urls[0] == url then urls[1..] else [urls[0]] + RemoveFirst(urls[1..], url)
  }

  function UrlList(uri: string, discovered: seq<string>): seq<string> {
    [uri] + RemoveFirst(discovered, uri)
  }

  /** `servers` is `discovered` with the path of the configured URL; the configured URL goes first. */
  method GetUrlList(uri: string, discovered: seq<string>) returns (servers: seq<string>)
    ensures servers == UrlList(uri, discovered)
  {
    servers := discovered;
    var i := 0;
    while i < |discovered| && discovered[i] != uri
      invariant 0 <= i <= |discovered|
      invariant RemoveFirst(discovered, uri) == discovered[..i] + RemoveFirst(discovered[i..], uri)
    {
      RemoveFirstHead(discovered, i, uri);
      i := i + 1;
    }
    if i < |discovered| {
      RemoveFirstHead(discovered, i, uri);
      servers := discovered[..i] + discovered[i + 1..];
    }
    servers := [uri] + servers;
  }

  lemma {:induction false} RemoveFirstHead(urls: seq<string>, i: nat, url: string)
    requires i < |urls|
    ensures urls[i] == url ==> RemoveFirst(urls[i..], url) == urls[i + 1..]
    ensures urls[i] != url ==>
      urls[..i] + RemoveFirst(urls[i..], url) == urls[..i + 1] + RemoveFirst(urls[i + 1..], url)
  {
    assert urls[i..][1..] == urls[i + 1..];
    if urls[i] != url {
      assert RemoveFirst(urls[i..], url) == [urls[i]] + RemoveFirst(urls[i + 1..], url);
      assert urls[..i + 1] == urls[..i] + [urls[i]];
    }
  }

  lemma {:induction false} OccurrencesRemoved(urls: seq<string>, url: string, other: string)
    ensures Occurrences(RemoveFirst(urls, url), other) ==
      Occurrences(urls, other) - if other == url && Occurrences(urls, url) > 0 then 1 else 0
  {
    if urls != [] && urls[0] != url {
      OccurrencesRemoved(urls[1..], url, other);
      assert RemoveFirst(urls, url)[1..] == RemoveFirst(urls[1..], url);
    }
  }

  /** The configured server comes first and keeps all others; it is there just once if DNS listed it at most once. */
  lemma {:induction false} ConfiguredFirst(uri: string, discovered: seq<string>)
    ensures UrlList(uri, discovered)[0] == uri
    ensures Occurrences(UrlList(uri, discovered), uri) == 1 <==> Occurrences(discovered, uri) <= 1
    ensures forall url :: url != uri ==> Occurrences(UrlList(uri, discovered), url) == Occurrences(discovered, url)
  {
    var urls := UrlList(uri, discovered);
    assert urls[1..] == RemoveFirst(discovered, uri);
    OccurrencesRemoved(discovered, uri, uri);
    forall url | url != uri
      ensures Occurrences(urls, url) == Occurrences(discovered, url)
    {
      OccurrencesRemoved(discovered, uri, url);
    }
  }

  /** The other servers keep the order in which DNS listed them. */
  lemma {:induction false} OthersInOrder(uri: string, before: seq<string>, after: seq<string>)
    requires uri !in before
    ensures UrlList(uri, before + [uri] + after) == [uri] + before + after && UrlList(uri, before) == [uri] + before
  {
    RemovedFirst(uri, before, after);
    assert [uri] + (before + after) == [uri] + before + after;
  }

  lemma {:induction false} RemovedFirst(uri: string, before: seq<string>, after: seq<string>)
    requires uri !in before
    ensures RemoveFirst(before + [uri] + after, uri) == before + after && RemoveFirst(before, uri) == before
  {
    var urls := before + [uri] + after;
    if before == [] {
      assert urls[0] == uri && urls[1..] == after == before + after;
    } else {
      var rest := before[1..] + [uri] + after;
      assert urls[0] == before[0] && urls[1..] == rest;
      RemovedFirst(uri, before[1..], after);
      assert [before[0]] + (before[1..] + after) == before + after;
    }
  }

  // ---------- create_connection ----------

  datatype Ping = Pong | KerberosFailure | HttpError(code: int) | OtherError

  datatype Connection = Connected(url: string) | NoServer | Raised(ping: Ping)

  /** What connecting did: the result, the URLs pinged in order, and whether the session cookie is still set. */
  datatype Attempt = Attempt(result: Connection, pings: seq<string>, cookie: bool)

  /** The n-th ping since the start meets `world(n)`. */
  type World = nat -> Ping

  /**
   The plain strategy, after the pings `made` so far: go through the URLs from `i` on in order, once more for
   the one that rejected the session.
   */
  function Plain(urls: seq<string>, i: nat, cookie: bool, fallback: bool, world: World, made: seq<string>): Attempt
    requires i <= |urls|
    decreases |urls| - i, cookie
  {
    if i == |urls| then Attempt(NoServer, made, cookie)
    else
      var ping := world(|made|);
      var made' := made + [urls[i]];
      if ping.Pong? then Attempt(Connected(urls[i]), made', cookie)
      else if ping.KerberosFailure? then Attempt(Raised(ping), made', cookie)
      else if cookie && ping == HttpError(401) then Plain(urls, i, false, fallback, world, made')
      else if !fallback then Attempt(Raised(ping), made', cookie)
      else Plain(urls, i + 1, cookie, fallback, world, made')
  }

  function Connect(urls: seq<string>, cookie: bool, fallback: bool, world: World): Attempt {
    if |urls| == 1 then Attempt(Connected(urls[0]), [], cookie) else Plain(urls, 0, cookie, fallback, world, [])
  }

  /** Up to five tries of one URL: either the end, or the state in which the next URL is tried. */
  method TryUrl(urls: seq<string>, i: nat, cookie: bool, fallback: bool, world: World, made: seq<string>)
    returns (answer: Option<Attempt>, left: bool, pinged: seq<string>)
    requires i < |urls|
    ensures answer.Some? ==> Plain(urls, i, cookie, fallback, world, made) == answer.value
    ensures answer.None? ==>
      Plain(urls, i, cookie, fallback, world, made) == Plain(urls, i + 1, left, fallback, world, pinged)
  {
    answer, left, pinged := None, cookie, made;
    var tryNum := 0;
    while tryNum < 5
      invariant 0 <= tryNum <= 1 && (tryNum == 1 ==> !left)
      invariant Plain(urls, i, cookie, fallback, world, made) == Plain(urls, i, left, fallback, world, pinged)
    {
      var ping := world(|pinged|);
      pinged := pinged + [urls[i]];
      if ping.Pong? {
        return Some(Attempt(Connected(urls[i]), pinged, left)), left, pinged;
      }
      if ping.KerberosFailure? {
        return Some(Attempt(Raised(ping), pinged, left)), left, pinged;
      }
      if left && ping == HttpError(401) {
        left := false;
        tryNum := tryNum + 1;
        continue;
      }
      if !fallback {
        return Some(Attempt(Raised(ping), pinged, left)), left, pinged;
      }
      return None, left, pinged;
    }
    // a cookie is dropped at most once, so the five tries are never used up
    assert false;
  }

  /** `create_connection` from the URL list on; a single URL is handed out without a ping. */
  method CreateConnection(urls: seq<string>, cookie: bool, fallback: bool, world: World) returns (r: Attempt)
    ensures r == Connect(urls, cookie, fallback, world)
  {
    if |urls| == 1 {
      return Attempt(Connected(urls[0]), [], cookie);
    }
    var made: seq<string> := [];
    var hasCookie := cookie;
    var i := 0;
    while i < |urls|
      invariant 0 <= i <= |urls|
      invariant Plain(urls, 0, cookie, fallback, world, []) == Plain(urls, i, hasCookie, fallback, world, made)
    {
      var answer, left, pinged := TryUrl(urls, i, hasCookie, fallback, world, made);
      if answer.Some? {
        return answer.value;
      }
      made, hasCookie := pinged, left;
      i := i + 1;
    }
    return Attempt(NoServer, made, hasCookie);
  }

  /** The pings so far went through `urls[..i]` in order; `urls[d]` was pinged twice if it made the cookie go. */
  ghost predicate InOrder(urls: seq<string>, made: seq<string>, i: nat, d: nat, dropped: bool)
    requires i <= |urls|
  {
    if dropped then d <= i && d < |urls| && made == urls[..d + 1] + urls[d..i] else made == urls[..i]
  }

  lemma {:induction false} NextInOrder(urls: seq<string>, made: seq<string>, i: nat, d: nat, dropped: bool)
    requires i < |urls| && InOrder(urls, made, i, d, dropped)
    ensures InOrder(urls, made + [urls[i]], i + 1, d, dropped)
    ensures !dropped ==> InOrder(urls, made + [urls[i]], i, i, true)
  {
    if dropped {
      assert urls[d..i + 1] == urls[d..i] + [urls[i]];
    } else {
      assert urls[..i + 1] == urls[..i] + [urls[i]];
      assert urls[i..i] == [];
    }
  }

  lemma {:induction false} PlainInOrder(urls: seq<string>, i: nat, cookie: bool, fallback: bool, world: World, made: seq<string>,
                                        had: bool, d: nat)
    returns (m: nat, d': nat)
    requires i <= |urls| && (cookie ==> had) && InOrder(urls, made, i, d, had && !cookie)
    ensures var a := Plain(urls, i, cookie, fallback, world, made);
      m <= |urls| && (a.cookie ==> had) && InOrder(urls, a.pings, m, d', had && !a.cookie)
    decreases |urls| - i, cookie
  {
    m, d' := i, d;
    if i < |urls| {
      NextInOrder(urls, made, i, d, had && !cookie);
      var ping := world(|made|);
      if !ping.Pong? && !ping.KerberosFailure? && cookie && ping == HttpError(401) {
        m, d' := PlainInOrder(urls, i, false, fallback, world, made + [urls[i]], had, i);
      } else if !ping.Pong? && !ping.KerberosFailure? && fallback {
        m, d' := PlainInOrder(urls, i + 1, cookie, fallback, world, made + [urls[i]], had, d);
      } else {
        m := i + 1;
      }
    }
  }

  /**
   URLs are pinged in order, at most one of them twice: at most one ping per URL and one more, because
   the cookie goes at most once and never comes back.
   */
  lemma {:induction false} PingsInOrder(urls: seq<string>, cookie: bool, fallback: bool, world: World) returns (m: nat, d: nat)
    ensures var a := Connect(urls, cookie, fallback, world);
      && m <= |urls| && InOrder(urls, a.pings, m, d, cookie && !a.cookie)
      && (a.cookie ==> cookie)
      && |a.pings| <= |urls| + 1
  {
    m, d := 0, 0;
    if |urls| != 1 {
      m, d := PlainInOrder(urls, 0, cookie, fallback, world, [], cookie, 0);
    }
  }

  /** A connection is the first that answers; none is found only after every URL has failed. */
  lemma {:induction false} FirstAnswerWins(urls: seq<string>, i: nat, cookie: bool, fallback: bool, world: World, made: seq<string>)
    requires i <= |urls|
    ensures var a := Plain(urls, i, cookie, fallback, world, made);
      var k := |a.pings|;
      && |made| <= k
      && (forall n: nat :: |made| <= n < k - 1 ==> !world(n).Pong? && !world(n).KerberosFailure?)
      && (a.result.Connected? <==> k > |made| && world(k - 1).Pong?)
      && (a.result.Connected? ==> a.pings[k - 1] == a.result.url)
      && (a.result.NoServer? ==> k - |made| >= |urls| - i && (k > |made| ==> !world(k - 1).Pong?))
      && (a.result.Raised? ==> k > |made| && a.result.ping == world(k - 1))
    decreases |urls| - i, cookie
  {
    if i < |urls| {
      var ping := world(|made|);
      if !ping.Pong? && !ping.KerberosFailure? {
        if cookie && ping == HttpError(401) {
          FirstAnswerWins(urls, i, false, fallback, world, made + [urls[i]]);
        } else if fallback {
          FirstAnswerWins(urls, i + 1, cookie, fallback, world, made + [urls[i]]);
        }
      }
    }
  }

  // ---------- which pings are made ----------

  /** A ping before the n-th rejected the session. */
  ghost predicate Dropped(had: bool, world: World, n: nat) { had && exists j: nat :: j < n && world(j) == HttpError(401) }

  /** The URL of the n-th ping: the one that rejected the session is pinged once more. */
  ghost function UrlOf(had: bool, world: World, n: nat): int { if Dropped(had, world, n) then n - 1 else n }

  /** The n-th ping ends the search: an answer, a Kerberos failure, or any other failure unless it may be passed over. */
  ghost predicate Ends(had: bool, fallback: bool, world: World, n: nat) {
    || world(n).Pong?
    || world(n).KerberosFailure?
    || (!fallback && !(world(n) == HttpError(401) && had && !Dropped(had, world, n)))
  }

  /** The first `n` pings went in order and none of them ended the search. */
  ghost predicate WentOn(urls: seq<string>, had: bool, fallback: bool, world: World, pings: seq<string>, n: nat) {
    n <= |pings| && forall j :: 0 <= j < n ==>
      !Ends(had, fallback, world, j) && 0 <= UrlOf(had, world, j) < |urls| && pings[j] == urls[UrlOf(had, world, j)]
  }

  /** What connecting did, read off the pings. */
  ghost predicate SearchIs(urls: seq<string>, had: bool, fallback: bool, world: World, a: Attempt) {
    var k := |a.pings|;
    && a.cookie == (had && !Dropped(had, world, k))
    && match a.result
       case NoServer => WentOn(urls, had, fallback, world, a.pings, k) && UrlOf(had, world, k) == |urls|
       case Connected(url) => LastPing(urls, had, fallback, world, a) && world(k - 1).Pong? && url == a.pings[k - 1]
       case Raised(ping) => LastPing(urls, had, fallback, world, a) && !world(k - 1).Pong? && ping == world(k - 1)
  }

  /** The last ping was the first to end the search. */
  ghost predicate LastPing(urls: seq<string>, had: bool, fallback: bool, world: World, a: Attempt) {
    var last := |a.pings| - 1;
    && 0 <= last && WentOn(urls, had, fallback, world, a.pings, last) && Ends(had, fallback, world, last)
    && 0 <= UrlOf(had, world, last) < |urls| && a.pings[last] == urls[UrlOf(had, world, last)]
  }

  lemma {:induction false} DroppedNext(had: bool, world: World, n: nat)
    ensures Dropped(had, world, n + 1) <==> Dropped(had, world, n) || (had && world(n) == HttpError(401))
  {
  }

  lemma {:induction false} WentOnNext(urls: seq<string>, had: bool, fallback: bool, world: World, made: seq<string>)
    requires WentOn(urls, had, fallback, world, made, |made|) && 0 <= UrlOf(had, world, |made|) < |urls|
    ensures var made' := made + [urls[UrlOf(had, world, |made|)]];
      && WentOn(urls, had, fallback, world, made', |made|)
      && (!Ends(had, fallback, world, |made|) ==> WentOn(urls, had, fallback, world, made', |made| + 1))
  {
  }

  /** One ping: the search ends with it, or goes on where the next ping belongs. */
  lemma {:induction false} PlainStep(urls: seq<string>, i: nat, cookie: bool, fallback: bool, world: World, made: seq<string>,
                                     had: bool)
    requires i < |urls| && i == UrlOf(had, world, |made|) && cookie == (had && !Dropped(had, world, |made|))
    requires WentOn(urls, had, fallback, world, made, |made|)
    ensures var n, made' := |made| + 1, made + [urls[i]];
      var rejected := cookie && world(|made|) == HttpError(401);
      if Ends(had, fallback, world, |made|) then SearchIs(urls, had, fallback, world, Plain(urls, i, cookie, fallback, world, made))
      else
        && WentOn(urls, had, fallback, world, made', n)
        && UrlOf(had, world, n) == (if rejected then i else i + 1)
        && (had && !Dropped(had, world, n)) == (cookie && !rejected)
  {
    DroppedNext(had, world, |made|);
    WentOnNext(urls, had, fallback, world, made);
  }

  lemma {:induction false} PlainIs(urls: seq<string>, i: nat, cookie: bool, fallback: bool, world: World, made: seq<string>,
                                   had: bool)
    requires i <= |urls| && i == UrlOf(had, world, |made|) && cookie == (had && !Dropped(had, world, |made|))
    requires WentOn(urls, had, fallback, world, made, |made|)
    ensures SearchIs(urls, had, fallback, world, Plain(urls, i, cookie, fallback, world, made))
    decreases |urls| - i, cookie
  {
    if i < |urls| {
      var made', ping := made + [urls[i]], world(|made|);
      PlainStep(urls, i, cookie, fallback, world, made, had);
      if !Ends(had, fallback, world, |made|) {
        if cookie && ping == HttpError(401) {
          PlainIs(urls, i, false, fallback, world, made', had);
        } else {
          PlainIs(urls, i + 1, cookie, fallback, world, made', had);
        }
      }
    }
  }

  /**
   Exactly which URLs are pinged and how the search ends. The pings go through the URLs in order, the one that first
   rejects the session is pinged twice, and the search goes on past a failure only if it may fall back.
   */
  lemma {:induction false} ConnectIs(urls: seq<string>, cookie: bool, fallback: bool, world: World)
    ensures |urls| == 1 ==> Connect(urls, cookie, fallback, world) == Attempt(Connected(urls[0]), [], cookie)
    ensures |urls| != 1 ==> SearchIs(urls, cookie, fallback, world, Connect(urls, cookie, fallback, world))
  {
    if |urls| != 1 {
      PlainIs(urls, 0, cookie, fallback, world, [], cookie);
    }
  }

  // ---------- forward ----------

  datatype Response = Result | FaultReply | HttpFailure(code: int) | NetworkFailure | MarshalFailure

  /** The thread's context: the session cookie, if any, and the connection in use. */
  datatype Context = Context(cookie: Option<Cookie>, conn: string)

  /** What reconnecting meets: the cookie loaded from the store, the URLs and the pings. */
  datatype Reconnect = Reconnect(loaded: Option<Cookie>, urls: seq<string>, fallback: bool, world: World)

  datatype Ending = Returned | RaisedError | RaisedNetworkError | ReconnectFailed(why: Connection) | TooManyTries

  /** One command call: the connection it went to and the cookie it could use. */
  datatype Sent = Sent(conn: string, cookie: Option<Cookie>)

  datatype Forwarded = Forwarded(sent: seq<Sent>, pings: nat, ending: Ending, context: Context)

  const MAX_TRIES := 5

  /** After one call: the end, or a context in which to try again, with the pings that reconnecting took. */
  datatype CallEnd = Ended(ending: Ending, context: Context, pings: nat) | Retry(context: Context, pings: nat)

  /** Drop the cookie and connect anew. */
  function Reopened(c: Context, r: Reconnect): CallEnd {
    var a := Connect(r.urls, r.loaded.Some?, r.fallback, r.world);
    var cookie := if a.cookie then r.loaded else None;
    if a.result.Connected? then Retry(Context(cookie, a.result.url), |a.pings|)
    else Ended(ReconnectFailed(a.result), Context(cookie, c.conn), |a.pings|)
  }

  function AfterCall(c: Context, response: Response, r: Reconnect): CallEnd {
    match response
    case Result => Ended(Returned, c, 0)
    case FaultReply => Ended(RaisedError, c, 0)
    case MarshalFailure => Ended(RaisedError, c, 0)
    case NetworkFailure => Ended(RaisedNetworkError, c, 0)
    case HttpFailure(code) =>
      if c.cookie.Some? && code == 401 then Reopened(c, r) else Ended(RaisedNetworkError, c, 0)
  }

  /**
   `forward` from try `k` on, after the calls `sent` and `pings` pings: `command` stays bound to the
   connection that was current at the start.
   */
  function ForwardFrom(k: nat, bound: string, c: Context, calls: nat -> Response, reconnects: nat -> Reconnect,
                       sent: seq<Sent>, pings: nat): Forwarded
    decreases MAX_TRIES - k
  {
    if k >= MAX_TRIES then Forwarded(sent, pings, TooManyTries, c)
    else
      var sent' := sent + [Sent(bound, c.cookie)];
      match AfterCall(c, calls(k), reconnects(k))
      case Ended(ending, c', more) => Forwarded(sent', pings + more, ending, c')
      case Retry(c', more) => ForwardFrom(k + 1, bound, c', calls, reconnects, sent', pings + more)
  }

  lemma {:induction false} ForwardStep(k: nat, bound: string, c: Context, calls: nat -> Response, reconnects: nat -> Reconnect,
                                       sent: seq<Sent>, pings: nat, end: CallEnd)
    requires k < MAX_TRIES && end == AfterCall(c, calls(k), reconnects(k))
    ensures ForwardFrom(k, bound, c, calls, reconnects, sent, pings) ==
      var sent' := sent + [Sent(bound, c.cookie)];
      if end.Ended? then Forwarded(sent', pings + end.pings, end.ending, end.context)
      else ForwardFrom(k + 1, bound, end.context, calls, reconnects, sent', pings + end.pings)
  {
  }

  class RpcClient {
    var sessionCookie: Option<Cookie>
    var conn: string
    var sent: seq<Sent>
    var pings: nat

    constructor (cookie: Option<Cookie>, conn: string)
      ensures Abs() == Context(cookie, conn) && sent == [] && pings == 0
    {
      sessionCookie, this.conn, sent, pings := cookie, conn, [], 0;
    }

    ghost function Abs(): Context
      reads this
    {
      Context(sessionCookie, conn)
    }

    /** What `forward` does with a response; `None` means try again. */
    method HandleResponse(response: Response, r: Reconnect) returns (ending: Option<Ending>)
      modifies this`sessionCookie, this`conn, this`pings
      ensures pings >= old(pings)
      ensures AfterCall(old(Abs()), response, r) ==
        if ending.Some? then Ended(ending.value, Abs(), pings - old(pings)) else Retry(Abs(), pings - old(pings))
    {
      if response.Result? {
        return Some(Returned);
      }
      if response.FaultReply? || response.MarshalFailure? {
        return Some(RaisedError);
      }
      if response.NetworkFailure? || sessionCookie.None? || response.code != 401 {
        return Some(RaisedNetworkError);
      }
      sessionCookie := None;
      sessionCookie := r.loaded;
      var attempt := CreateConnection(r.urls, sessionCookie.Some?, r.fallback, r.world);
      if !attempt.cookie {
        sessionCookie := None;
      }
      pings := pings + |attempt.pings|;
      if !attempt.result.Connected? {
        return Some(ReconnectFailed(attempt.result));
      }
      conn := attempt.result.url;
      return None;
    }

    method Forward(calls: nat -> Response, reconnects: nat -> Reconnect) returns (ending: Ending)
      requires sent == [] && pings == 0
      modifies this
      ensures Forwarded(sent, pings, ending, Abs()) == ForwardFrom(0, old(conn), old(Abs()), calls, reconnects, [], 0)
      ensures ForwardedIs(old(Abs()), calls, reconnects, Forwarded(sent, pings, ending, Abs()))
    {
      var bound := conn;
      ghost var whole := ForwardFrom(0, bound, Abs(), calls, reconnects, [], 0);
      var tryNum := 0;
      while tryNum < MAX_TRIES
        invariant 0 <= tryNum <= MAX_TRIES
        invariant whole == ForwardFrom(tryNum, bound, Abs(), calls, reconnects, sent, pings)
      {
        var handled := TryOnce(tryNum, bound, calls, reconnects, whole);
        if handled.Some? {
          ForwardIs(old(Abs()), calls, reconnects);
          return handled.value;
        }
        tryNum := tryNum + 1;
      }
      ForwardIs(old(Abs()), calls, reconnects);
      return TooManyTries;
    }

    /** One try of the loop. */
    method TryOnce(k: nat, bound: string, calls: nat -> Response, reconnects: nat -> Reconnect, ghost whole: Forwarded)
      returns (handled: Option<Ending>)
      requires k < MAX_TRIES && whole == ForwardFrom(k, bound, Abs(), calls, reconnects, sent, pings)
      modifies this
      ensures handled.Some? ==> whole == Forwarded(sent, pings, handled.value, Abs())
      ensures handled.None? ==> whole == ForwardFrom(k + 1, bound, Abs(), calls, reconnects, sent, pings)
    {
      ForwardStep(k, bound, Abs(), calls, reconnects, sent, pings, AfterCall(Abs(), calls(k), reconnects(k)));
      sent := sent + [Sent(bound, sessionCookie)];
      handled := HandleResponse(calls(k), reconnects(k));
    }
  }

  /** Calls made before a retry: on the bound connection, with a cookie, and answered by a 401. */
  ghost predicate Rejected(bound: string, calls: nat -> Response, sent: seq<Sent>, count: nat) {
    count <= |sent| && forall i :: 0 <= i < count ==>
      sent[i].conn == bound && sent[i].cookie.Some? && calls(i) == HttpFailure(401)
  }

  lemma {:induction false} RetryRejected(c: Context, response: Response, r: Reconnect)
    ensures AfterCall(c, response, r).Retry? ==> c.cookie.Some? && response == HttpFailure(401)
  {
  }

  lemma {:induction false} RejectedMore(bound: string, calls: nat -> Response, sent: seq<Sent>, cookie: Option<Cookie>)
    requires Rejected(bound, calls, sent, |sent|) && cookie.Some? && calls(|sent|) == HttpFailure(401)
    ensures Rejected(bound, calls, sent + [Sent(bound, cookie)], |sent| + 1)
  {
  }

  /** How a run of calls on one connection may look. */
  ghost predicate Bounded(f: Forwarded, bound: string, calls: nat -> Response) {
    && |f.sent| <= MAX_TRIES
    && (forall i :: 0 <= i < |f.sent| ==> f.sent[i].conn == bound)
    && Rejected(bound, calls, f.sent, if |f.sent| == 0 || f.ending.TooManyTries? then |f.sent| else |f.sent| - 1)
    && (f.ending.TooManyTries? ==> |f.sent| == MAX_TRIES)
  }

  lemma {:induction false} EndedBounded(bound: string, c: Context, calls: nat -> Response, r: Reconnect, sent: seq<Sent>, pings: nat)
    requires |sent| < MAX_TRIES && Rejected(bound, calls, sent, |sent|) && AfterCall(c, calls(|sent|), r).Ended?
    ensures var end := AfterCall(c, calls(|sent|), r);
      Bounded(Forwarded(sent + [Sent(bound, c.cookie)], pings + end.pings, end.ending, end.context), bound, calls)
  {
  }

  lemma {:induction false} ForwardRejected(k: nat, bound: string, c: Context, calls: nat -> Response, reconnects: nat -> Reconnect,
                                           sent: seq<Sent>, pings: nat)
    requires |sent| == k <= MAX_TRIES && Rejected(bound, calls, sent, k)
    ensures Bounded(ForwardFrom(k, bound, c, calls, reconnects, sent, pings), bound, calls)
    decreases MAX_TRIES - k
  {
    if k < MAX_TRIES {
      var end := AfterCall(c, calls(k), reconnects(k));
      ForwardStep(k, bound, c, calls, reconnects, sent, pings, end);
      if end.Ended? {
        EndedBounded(bound, c, calls, reconnects(k), sent, pings);
      } else {
        RetryRejected(c, calls(k), reconnects(k));
        RejectedMore(bound, calls, sent, c.cookie);
        ForwardRejected(k + 1, bound, end.context, calls, reconnects, sent + [Sent(bound, c.cookie)], pings + end.pings);
      }
    }
  }

  /**
   `forward` ends after at most five calls. Each retry follows a 401 on a call made with a session
   cookie; and every call goes to the connection current at the start, not to the one just opened.
   */
  lemma {:induction false} ForwardRetries(c: Context, calls: nat -> Response, reconnects: nat -> Reconnect)
    ensures var f := ForwardFrom(0, c.conn, c, calls, reconnects, [], 0);
      && 1 <= |f.sent| <= MAX_TRIES
      && (forall i :: 0 <= i < |f.sent| ==> f.sent[i].conn == c.conn)
      && (forall i :: 0 <= i < |f.sent| - 1 ==> f.sent[i].cookie.Some? && calls(i) == HttpFailure(401))
      && (f.ending.TooManyTries? ==> |f.sent| == MAX_TRIES && Rejected(c.conn, calls, f.sent, MAX_TRIES))
  {
    ForwardRejected(0, c.conn, c, calls, reconnects, [], 0);
    ForwardSends(0, c.conn, c, calls, reconnects, [], 0);
  }

  lemma {:induction false} ForwardSends(k: nat, bound: string, c: Context, calls: nat -> Response, reconnects: nat -> Reconnect,
                                        sent: seq<Sent>, pings: nat)
    ensures |ForwardFrom(k, bound, c, calls, reconnects, sent, pings).sent| >= |sent| + if k < MAX_TRIES then 1 else 0
    decreases MAX_TRIES - k
  {
    if k < MAX_TRIES {
      var end := AfterCall(c, calls(k), reconnects(k));
      if end.Retry? {
        ForwardSends(k + 1, bound, end.context, calls, reconnects, sent + [Sent(bound, c.cookie)], pings + end.pings);
      }
    }
  }

  /** When the store no longer yields a cookie, there is at most one retry. */
  lemma {:induction false} NoCookieNoSecondRetry(c: Context, calls: nat -> Response, reconnects: nat -> Reconnect)
    requires reconnects(0).loaded.None?
    ensures |ForwardFrom(0, c.conn, c, calls, reconnects, [], 0).sent| <= 2
  {
    var end := AfterCall(c, calls(0), reconnects(0));
    if end.Retry? {
      var m, d := PingsInOrder(reconnects(0).urls, false, reconnects(0).fallback, reconnects(0).world);
      assert end.context.cookie.None?;
      var sent := [Sent(c.conn, c.cookie)];
      assert [] + sent == sent;
      assert AfterCall(end.context, calls(1), reconnects(1)).Ended?;
    }
  }

  // ---------- which calls are made, and how it ends ----------

  ghost function Reached(r: Reconnect): Attempt { Connect(r.urls, r.loaded.Some?, r.fallback, r.world) }

  /** The cookie of call `i`: the one the last reconnection loaded, unless a ping made it go. */
  ghost function CookieOf(c: Context, reconnects: nat -> Reconnect, i: nat): Option<Cookie> {
    if i == 0 then c.cookie else if Reached(reconnects(i - 1)).cookie then reconnects(i - 1).loaded else None
  }

  /** The connection in use when call `i` is made. */
  ghost function ConnOf(c: Context, reconnects: nat -> Reconnect, i: nat): string {
    if i == 0 then c.conn
    else match Reached(reconnects(i - 1)).result
      case Connected(url) => url
      case _ => ""
  }

  /** Call `i` finds its session expired. */
  ghost predicate Expired(c: Context, calls: nat -> Response, reconnects: nat -> Reconnect, i: nat) {
    CookieOf(c, reconnects, i).Some? && calls(i) == HttpFailure(401)
  }

  /** Call `i` is followed by another try. */
  ghost predicate Repeats(c: Context, calls: nat -> Response, reconnects: nat -> Reconnect, i: nat) {
    Expired(c, calls, reconnects, i) && Reached(reconnects(i)).result.Connected?
  }

  /** How it ends, read off the last call. */
  ghost predicate EndsBy(c: Context, calls: nat -> Response, reconnects: nat -> Reconnect, last: nat, ending: Ending) {
    && (ending.Returned? <==> calls(last).Result?)
    && (ending.RaisedError? <==> calls(last).FaultReply? || calls(last).MarshalFailure?)
    && (ending.RaisedNetworkError? <==>
      calls(last).NetworkFailure? || (calls(last).HttpFailure? && !Expired(c, calls, reconnects, last)))
    && (ending.ReconnectFailed? <==> Expired(c, calls, reconnects, last) && !Repeats(c, calls, reconnects, last))
    && (ending.ReconnectFailed? ==> ending.why == Reached(reconnects(last)).result)
    && (ending.TooManyTries? <==> Repeats(c, calls, reconnects, last))
  }

  /** The calls made: all to one connection, each but the last followed by another try. */
  ghost predicate CallsAre(c: Context, calls: nat -> Response, reconnects: nat -> Reconnect, sent: seq<Sent>, n: nat) {
    && n <= |sent| <= n + 1
    && (forall i :: 0 <= i < |sent| ==> sent[i] == Sent(c.conn, CookieOf(c, reconnects, i)))
    && (forall i :: 0 <= i < n ==> Repeats(c, calls, reconnects, i))
  }

  ghost function PingsMade(reconnects: nat -> Reconnect, n: nat): nat {
    if n == 0 then 0 else PingsMade(reconnects, n - 1) + |Reached(reconnects(n - 1)).pings|
  }

  /** The context left and the pings made: one reconnection for each call that found its session expired. */
  ghost predicate LeavesBehind(c: Context, calls: nat -> Response, reconnects: nat -> Reconnect, last: nat, left: Context,
                               pings: nat)
  {
    var n := if Expired(c, calls, reconnects, last) then last + 1 else last;
    && left.cookie == CookieOf(c, reconnects, n)
    && left.conn == ConnOf(c, reconnects, if Repeats(c, calls, reconnects, last) then last + 1 else last)
    && pings == PingsMade(reconnects, n)
  }

  ghost predicate ForwardedIs(c: Context, calls: nat -> Response, reconnects: nat -> Reconnect, f: Forwarded) {
    var last := |f.sent| - 1;
    && 0 <= last < MAX_TRIES
    && CallsAre(c, calls, reconnects, f.sent, last)
    && (Repeats(c, calls, reconnects, last) ==> last == MAX_TRIES - 1)
    && EndsBy(c, calls, reconnects, last, f.ending)
    && LeavesBehind(c, calls, reconnects, last, f.context, f.pings)
  }

  lemma {:induction false} CallGives(c: Context, calls: nat -> Response, reconnects: nat -> Reconnect, i: nat)
    ensures var end := AfterCall(Context(CookieOf(c, reconnects, i), ConnOf(c, reconnects, i)), calls(i), reconnects(i));
      && (end.Retry? <==> Repeats(c, calls, reconnects, i))
      && (end.Retry? ==> end.context == Context(CookieOf(c, reconnects, i + 1), ConnOf(c, reconnects, i + 1)))
      && (end.Ended? ==> EndsBy(c, calls, reconnects, i, end.ending))
      && LeavesBehind(c, calls, reconnects, i, end.context, PingsMade(reconnects, i) + end.pings)
  {
  }

  lemma {:induction false} CallsMore(c: Context, calls: nat -> Response, reconnects: nat -> Reconnect, sent: seq<Sent>)
    requires CallsAre(c, calls, reconnects, sent, |sent|)
    ensures var sent' := sent + [Sent(c.conn, CookieOf(c, reconnects, |sent|))];
      && CallsAre(c, calls, reconnects, sent', |sent|)
      && (Repeats(c, calls, reconnects, |sent|) ==> CallsAre(c, calls, reconnects, sent', |sent| + 1))
  {
  }

  /** The calls end with one that is not repeated. */
  lemma {:induction false} EndedIs(c: Context, calls: nat -> Response, reconnects: nat -> Reconnect, sent: seq<Sent>, end: CallEnd)
    requires |sent| < MAX_TRIES && CallsAre(c, calls, reconnects, sent, |sent|) && end.Ended?
    requires end == AfterCall(Context(CookieOf(c, reconnects, |sent|), ConnOf(c, reconnects, |sent|)), calls(|sent|),
                              reconnects(|sent|))
    ensures var sent' := sent + [Sent(c.conn, CookieOf(c, reconnects, |sent|))];
      ForwardedIs(c, calls, reconnects,
                  Forwarded(sent', PingsMade(reconnects, |sent|) + end.pings, end.ending, end.context))
  {
    CallGives(c, calls, reconnects, |sent|);
    CallsMore(c, calls, reconnects, sent);
  }

  lemma {:induction false} RetriedIs(c: Context, calls: nat -> Response, reconnects: nat -> Reconnect, sent: seq<Sent>, end: CallEnd)
    requires |sent| < MAX_TRIES && CallsAre(c, calls, reconnects, sent, |sent|) && end.Retry?
    requires end == AfterCall(Context(CookieOf(c, reconnects, |sent|), ConnOf(c, reconnects, |sent|)), calls(|sent|),
                              reconnects(|sent|))
    ensures CallsAre(c, calls, reconnects, sent + [Sent(c.conn, CookieOf(c, reconnects, |sent|))], |sent| + 1)
    ensures end.context == Context(CookieOf(c, reconnects, |sent| + 1), ConnOf(c, reconnects, |sent| + 1))
    ensures PingsMade(reconnects, |sent|) + end.pings == PingsMade(reconnects, |sent| + 1)
  {
    CallGives(c, calls, reconnects, |sent|);
    CallsMore(c, calls, reconnects, sent);
  }

  lemma {:induction false} ForwardFromIs(k: nat, c: Context, now: Context, calls: nat -> Response, reconnects: nat -> Reconnect,
                                         sent: seq<Sent>, pings: nat, whole: Forwarded)
    requires k == |sent| <= MAX_TRIES && CallsAre(c, calls, reconnects, sent, k) && pings == PingsMade(reconnects, k)
    requires now == Context(CookieOf(c, reconnects, k), ConnOf(c, reconnects, k))
    requires whole == ForwardFrom(k, c.conn, now, calls, reconnects, sent, pings)
    ensures ForwardedIs(c, calls, reconnects, whole)
    decreases MAX_TRIES - k
  {
    if k == MAX_TRIES {
      LastRepeats(c, calls, reconnects, sent);
    } else {
      var end := AfterCall(now, calls(k), reconnects(k));
      ForwardStep(k, c.conn, now, calls, reconnects, sent, pings, end);
      if end.Ended? {
        EndedIs(c, calls, reconnects, sent, end);
      } else {
        RetriedIs(c, calls, reconnects, sent, end);
        ForwardFromIs(k + 1, c, end.context, calls, reconnects, sent + [Sent(c.conn, now.cookie)], pings + end.pings, whole);
      }
    }
  }

  /** After five tries the last call is one that would be repeated. */
  lemma {:induction false} LastRepeats(c: Context, calls: nat -> Response, reconnects: nat -> Reconnect, sent: seq<Sent>)
    requires |sent| == MAX_TRIES && CallsAre(c, calls, reconnects, sent, MAX_TRIES)
    ensures var now := Context(CookieOf(c, reconnects, MAX_TRIES), ConnOf(c, reconnects, MAX_TRIES));
      ForwardedIs(c, calls, reconnects, Forwarded(sent, PingsMade(reconnects, MAX_TRIES), TooManyTries, now))
  {
    assert Repeats(c, calls, reconnects, MAX_TRIES - 1);
  }

  /**
   Exactly which calls are made, with which cookie, and how it ends: a call is followed by another if and only if it was
   made with a cookie, met a 401, was not the fifth, and reconnecting found a server.
   */
  lemma {:induction false} ForwardIs(c: Context, calls: nat -> Response, reconnects: nat -> Reconnect)
    ensures ForwardedIs(c, calls, reconnects, ForwardFrom(0, c.conn, c, calls, reconnects, [], 0))
  {
    assert c == Context(CookieOf(c, reconnects, 0), ConnOf(c, reconnects, 0));
    ForwardFromIs(0, c, c, calls, reconnects, [], 0, ForwardFrom(0, c.conn, c, calls, reconnects, [], 0));
  }
}
