/**
 The DNS domain search of ipaclient/discovery.py: `check_domain` walks up from a domain, skipping what an earlier walk
 has tried; the loop of `search` does so for every candidate domain. The DNS answers are fixed for the search.
 */
module DomainSearch {
  import opened Common

  /** The LDAP servers DNS knows for each domain; a domain without an answer has none. */
  type Dns = map<string, seq<string>>

  function Servers(dns: Dns, domain: string): seq<string> {
    if domain in dns then dns[domain] else []
  }

  /** A domain to start from; `valid` is the verdict of `validate_domain_name`. */
  datatype Candidate = Candidate(domain: string, reason: string, valid: bool)

  /** Where the search ended: the domain that answered and why it was looked at. */
  datatype Hit = Hit(servers: seq<string>, domain: string, reason: string)

  // ---------- the search without pruning ----------

  /** The position of the first dot, or the length. */
  function Dot(domain: string): (p: nat)
    ensures p <= |domain|
  {
    if domain == "" || domain[0] == '.' then 0 else 1 + Dot(domain[1..])
  }

  /** The domain without its first label. */
  function Parent(domain: string): Option<string> {
    if Dot(domain) == |domain| then None else Some(domain[Dot(domain) + 1..])
  }

  /** A domain and all the domains above it. */
  function Suffixes(domain: string): seq<string>
    decreases |domain|
  {
    match Parent(domain)
    case None => [domain]
    case Some(up) => [domain] + Suffixes(up)
  }

  function FirstHit(dns: Dns, domains: seq<string>, reason: string): Option<Hit> {
    if domains == [] then None
    else if Servers(dns, domains[0]) != [] then Some(Hit(Servers(dns, domains[0]), domains[0], reason))
    else FirstHit(dns, domains[1..], reason)
  }

  /** Every valid candidate in turn, each with all its suffixes. */
  function FullSearch(dns: Dns, candidates: seq<Candidate>): Option<Hit> {
    if candidates == [] then None
    else
      var c := candidates[0];
      var here := if c.valid then FirstHit(dns, Suffixes(c.domain), c.reason) else None;
      if here.Some? then here else FullSearch(dns, candidates[1..])
  }

  lemma {:induction false} FirstHitIff(dns: Dns, domains: seq<string>, reason: string)
    ensures FirstHit(dns, domains, reason).None? <==> forall d :: d in domains ==> Servers(dns, d) == []
  {
    if domains != [] {
      FirstHitIff(dns, domains[1..], reason);
      assert domains == [domains[0]] + domains[1..];
    }
  }

  /** The full search fails exactly when no suffix of a valid candidate has a server. */
  lemma {:induction false} FullSearchFailsIff(dns: Dns, candidates: seq<Candidate>)
    ensures FullSearch(dns, candidates).None? <==>
      forall c :: c in candidates && c.valid ==> forall d :: d in Suffixes(c.domain) ==> Servers(dns, d) == []
  {
    if candidates != [] {
      FirstHitIff(dns, Suffixes(candidates[0].domain), candidates[0].reason);
      FullSearchFailsIff(dns, candidates[1..]);
      assert candidates == [candidates[0]] + candidates[1..];
    }
  }

  // ---------- what the set of tried domains keeps ----------

  ghost predicate Missed(dns: Dns, tried: set<string>) {
    forall d :: d in tried ==> Servers(dns, d) == []
  }

  /** Everything above a tried domain was tried too, `open` aside. */
  ghost predicate ClosedBut(tried: set<string>, open: Option<string>) {
    forall d :: d in tried ==> Parent(d).None? || Parent(d) == open || Parent(d).value in tried
  }

  /** Every tried domain was a miss, and so was everything above it. */
  ghost predicate Settled(dns: Dns, tried: set<string>) {
    Missed(dns, tried) && ClosedBut(tried, None)
  }

  lemma {:induction false} SettledMisses(dns: Dns, tried: set<string>, domain: string, reason: string)
    requires Settled(dns, tried) && domain in tried
    ensures FirstHit(dns, Suffixes(domain), reason) == None
    decreases |domain|
  {
    match Parent(domain)
    case None =>
    case Some(up) =>
      SettledMisses(dns, tried, up, reason);
      FirstOf(dns, domain, Suffixes(up), reason);
  }

  lemma {:induction false} FirstOf(dns: Dns, domain: string, above: seq<string>, reason: string)
    requires Servers(dns, domain) == []
    ensures FirstHit(dns, [domain] + above, reason) == FirstHit(dns, above, reason)
  {
    assert ([domain] + above)[1..] == above;
  }

  ghost predicate NoRepeats(asked: seq<string>) {
    forall i, j :: 0 <= i < j < |asked| ==> asked[i] != asked[j]
  }

  ghost predicate Logged(before: set<string>, asked: seq<string>, after: set<string>) {
    && NoRepeats(asked)
    && (forall d :: d in asked ==> d !in before)
    && (forall d :: d in after <==> d in before || d in asked)
  }

  lemma {:induction false} LogOne(before: set<string>, asked: seq<string>, after: set<string>, domain: string)
    requires Logged(before, asked, after) && domain !in after
    ensures Logged(before, asked + [domain], after + {domain})
  {
    assert forall i :: 0 <= i < |asked| ==> asked[i] in asked;
  }

  lemma {:induction false} LogMore(s0: set<string>, a: seq<string>, s1: set<string>, b: seq<string>, s2: set<string>)
    requires Logged(s0, a, s1) && Logged(s1, b, s2)
    ensures Logged(s0, a + b, s2)
  {
    assert forall i :: 0 <= i < |a| ==> a[i] in a;
    assert forall i :: 0 <= i < |b| ==> b[i] in b;
  }

  // ---------- check_domain and the loop of search ----------

  method FindDot(domain: string) returns (p: int)
    ensures p == if Dot(domain) == |domain| then -1 else Dot(domain)
  {
    p := 0;
    while p < |domain| && domain[p] != '.'
      invariant 0 <= p <= |domain|
      invariant Dot(domain) == p + Dot(domain[p..])
    {
      assert domain[p..][1..] == domain[p + 1..];
      p := p + 1;
    }
    if p == |domain| {
      p := -1;
    }
  }

  /** Walk up from a domain, asking about each one not tried before. */
  method CheckDomain(dns: Dns, start: string, before: set<string>, reason: string)
    returns (hit: Option<Hit>, tried: set<string>, asked: seq<string>)
    requires Settled(dns, before)
    ensures hit == FirstHit(dns, Suffixes(start), reason)
    ensures Logged(before, asked, tried)
    ensures hit.None? ==> Settled(dns, tried)
  {
    var domain := start;
    tried, asked := before, [];
    while domain !in tried
      invariant FirstHit(dns, Suffixes(domain), reason) == FirstHit(dns, Suffixes(start), reason)
      invariant Missed(dns, tried) && ClosedBut(tried, Some(domain))
      invariant Logged(before, asked, tried)
      decreases |domain|
    {
      LogOne(before, asked, tried, domain);
      tried := tried + {domain};
      asked := asked + [domain];
      var servers := Servers(dns, domain);
      if servers != [] {
        return Some(Hit(servers, domain, reason)), tried, asked;
      }
      var p := FindDot(domain);
      if p == -1 {
        return None, tried, asked;
      }
      FirstOf(dns, domain, Suffixes(domain[p + 1..]), reason);
      domain := domain[p + 1..];
    }
    SettledMisses(dns, tried, domain, reason);
    return None, tried, asked;
  }

  /** The pruned search finds what the full search finds and asks DNS about no domain twice. */
  method Search(dns: Dns, candidates: seq<Candidate>) returns (hit: Option<Hit>, asked: seq<string>)
    ensures hit == FullSearch(dns, candidates)
    ensures NoRepeats(asked)
  {
    var tried: set<string> := {};
    asked := [];
    var i := 0;
    while i < |candidates|
      invariant 0 <= i <= |candidates|
      invariant FullSearch(dns, candidates) == FullSearch(dns, candidates[i..])
      invariant Settled(dns, tried) && Logged({}, asked, tried)
    {
      var c := candidates[i];
      assert candidates[i..][0] == c && candidates[i..][1..] == candidates[i + 1..];
      if c.valid {
        var here, after, more := CheckDomain(dns, c.domain, tried, c.reason);
        LogMore({}, asked, tried, more, after);
        tried, asked := after, asked + more;
        if here.Some? {
          return here, asked;
        }
      }
      i := i + 1;
    }
    hit := None;
  }

  // ---------- what is searched, and what is found ----------

  lemma {:induction false} DotIs(part: string, up: string)
    requires forall i :: 0 <= i < |part| ==> part[i] != '.'
    ensures Dot(part + ("." + up)) == |part| && Dot(part) == |part|
  {
    if part == "" {
      assert (part + ("." + up))[0] == '.';
    } else {
      assert (part + ("." + up))[1..] == part[1..] + ("." + up);
      DotIs(part[1..], up);
    }
  }

  /** A domain of labels, from the most special one on. */
  function Dotted(labels: seq<string>): string
    requires labels != []
  {
    if |labels| == 1 then labels[0] else labels[0] + ("." + Dotted(labels[1..]))
  }

  /** The domains searched are those left by dropping labels from the front, one by one. */
  lemma {:induction false} SuffixesAre(labels: seq<string>, k: nat)
    requires k < |labels| && forall i, j :: 0 <= i < |labels| && 0 <= j < |labels[i]| ==> labels[i][j] != '.'
    ensures |Suffixes(Dotted(labels))| == |labels| && Suffixes(Dotted(labels))[k] == Dotted(labels[k..])
    decreases |labels|
  {
    var domain := Dotted(labels);
    if |labels| == 1 {
      DotIs(labels[0], "");
      assert labels[0..] == labels;
    } else {
      var up := Dotted(labels[1..]);
      DotIs(labels[0], up);
      assert domain[|labels[0]| + 1..] == up;
      SuffixesAre(labels[1..], if k > 0 then k - 1 else 0);
      if k > 0 {
        assert labels[1..][k - 1..] == labels[k..];
      } else {
        assert labels[0..] == labels;
      }
    }
  }

  /** The first domain that has servers is found, with them. */
  lemma {:induction false} FirstHitIs(dns: Dns, domains: seq<string>, reason: string, i: nat)
    requires i < |domains| && domains[i] in dns && dns[domains[i]] != []
    requires forall j :: 0 <= j < i ==> domains[j] !in dns || dns[domains[j]] == []
    ensures FirstHit(dns, domains, reason) == Some(Hit(dns[domains[i]], domains[i], reason))
  {
    if i > 0 {
      assert domains[0] !in dns || dns[domains[0]] == [];
      FirstHitIs(dns, domains[1..], reason, i - 1);
    }
  }

  /** The first valid candidate that has a hit decides. */
  lemma {:induction false} FullSearchIs(dns: Dns, candidates: seq<Candidate>, i: nat)
    requires i < |candidates| && candidates[i].valid
    requires FirstHit(dns, Suffixes(candidates[i].domain), candidates[i].reason).Some?
    requires forall j :: 0 <= j < i && candidates[j].valid ==>
      FirstHit(dns, Suffixes(candidates[j].domain), candidates[j].reason).None?
    ensures FullSearch(dns, candidates) == FirstHit(dns, Suffixes(candidates[i].domain), candidates[i].reason)
  {
    if i > 0 {
      FullSearchIs(dns, candidates[1..], i - 1);
    }
  }
}
