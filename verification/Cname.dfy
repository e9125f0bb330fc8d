/** Following CNAME records from the query name (crates/agent/src/dns_observation.rs; section 3.6.2 of RFC 1034). */
module Cname {
  import opened Base

  type Name = string

  const TTL_MAX: nat := 0xFFFF_FFFF

  datatype Data = A(v4: nat) | Aaaa(v6: nat) | Cname(target: Name)

  datatype Answer = Answer(name: Name, ttl: nat, data: Data)

  datatype Response = Response(qname: Name, noError: bool, answers: seq<Answer>)

  /** A name on the path, with the time to live of all that led to it. */
  datatype Hop = Hop(name: Name, ttl: nat)

  predicate Leads(a: Answer, name: Name) {
    a.name == name && a.data.Cname?
  }

  /** The first CNAME record of a name, or the number of answers. */
  function FirstCname(answers: seq<Answer>, name: Name): (i: nat)
    ensures i <= |answers|
    ensures i < |answers| ==> Leads(answers[i], name)
    ensures forall j :: 0 <= j < i ==> !Leads(answers[j], name)
  {
    if |answers| == 0 then 0
    else if Leads(answers[0], name) then 0
    else 1 + FirstCname(answers[1..], name)
  }

  predicate OnPath(path: seq<Hop>, name: Name) {
    exists i :: 0 <= i < |path| && path[i].name == name
  }

  /** `next` follows `hop` through the first CNAME record of its name. */
  predicate Follows(answers: seq<Answer>, hop: Hop, next: Hop) {
    var i := FirstCname(answers, hop.name);
    i < |answers| && next == Hop(answers[i].data.target, Min(hop.ttl, answers[i].ttl))
  }

  /** A chain from the query name, without repetition. */
  predicate IsChain(r: Response, path: seq<Hop>) {
    && |path| > 0 && path[0] == Hop(r.qname, TTL_MAX)
    && (forall i :: 0 <= i < |path| - 1 ==> Follows(r.answers, path[i], path[i + 1]))
    && (forall i, j :: 0 <= i < j < |path| ==> path[i].name != path[j].name)
  }

  /** The chain cannot go on: no CNAME record continues it, or only back to a name it has. */
  predicate IsMaximal(r: Response, path: seq<Hop>)
    requires |path| > 0
  {
    var i := FirstCname(r.answers, path[|path| - 1].name);
    i < |r.answers| ==> OnPath(path, r.answers[i].data.target)
  }

  /** The numbers below `n`. */
  function Below(n: nat): (s: set<nat>)
    ensures |s| == n && forall x: nat :: x in s <==> x < n
  {
    if n == 0 then {} else Below(n - 1) + {(n - 1) as nat}
  }

  /** A set of `n` numbers below `n` has them all. */
  lemma {:induction false} FullSubset(s: set<nat>, n: nat, x: nat)
    requires s <= Below(n) && |s| == n && x < n
    ensures x in s
  {
    var rest := Below(n) - s;
    assert |rest| + |s| == n by {
      assert rest + s == Below(n) && rest !! s;
    }
    assert rest == {};
    assert x in Below(n);
  }

  /** The records that the first `k` hops of a chain go through are `k` different ones. */
  lemma RecordsAreDistinct(r: Response, path: seq<Hop>, k: nat) returns (used: set<nat>)
    requires IsChain(r, path) && k < |path|
    ensures |used| == k
    ensures forall x <- used :: x < |r.answers| && exists i :: 0 <= i < k && path[i].name == r.answers[x].name
  {
    if k == 0 {
      used := {};
    } else {
      var before := RecordsAreDistinct(r, path, k - 1);
      var last := FirstCname(r.answers, path[k - 1].name);
      assert Follows(r.answers, path[k - 1], path[k]);
      assert last !in before;
      used := before + {last};
      forall x <- used
        ensures x < |r.answers| && exists i :: 0 <= i < k && path[i].name == r.answers[x].name
      {
        if x == last {
          assert path[k - 1].name == r.answers[x].name;
        } else {
          var i :| 0 <= i < k - 1 && path[i].name == r.answers[x].name;
          assert i < k;
        }
      }
    }
  }

  /** Pigeonhole: a chain with one hop for every answer has nowhere to go. */
  lemma LongChainIsMaximal(r: Response, path: seq<Hop>)
    requires IsChain(r, path) && |path| == |r.answers| + 1
    ensures IsMaximal(r, path)
  {
    var n := |r.answers|;
    var next := FirstCname(r.answers, path[n].name);
    if next < n {
      var used := RecordsAreDistinct(r, path, n);
      FullSubset(used, n, next);
      assert false;
    }
  }

  /** The path, found in as many steps as there are answers, reaches the end of its chain, cycles included. */
  method CnamePath(r: Response) returns (path: seq<Hop>)
    ensures IsChain(r, path) && IsMaximal(r, path)
  {
    path := [Hop(r.qname, TTL_MAX)];
    for n := 0 to |r.answers|
      invariant |path| == n + 1 && IsChain(r, path)
    {
      var current := path[|path| - 1];
      var i := FirstCname(r.answers, current.name);
      if i == |r.answers| {
        return;
      }
      var target := r.answers[i].data.target;
      if OnPath(path, target) {
        return;
      }
      path := path + [Hop(target, Min(current.ttl, r.answers[i].ttl))];
    }
    LongChainIsMaximal(r, path);
  }

  lemma ChainsAgree(r: Response, p: seq<Hop>, q: seq<Hop>, i: nat)
    requires IsChain(r, p) && IsChain(r, q) && i < |p| && i < |q|
    ensures p[i] == q[i]
  {
    if i > 0 {
      ChainsAgree(r, p, q, i - 1);
      assert Follows(r.answers, p[i - 1], p[i]) && Follows(r.answers, q[i - 1], q[i]);
    }
  }

  lemma ShorterIsNotMaximal(r: Response, p: seq<Hop>, q: seq<Hop>)
    requires IsChain(r, p) && IsChain(r, q) && |p| < |q|
    ensures !IsMaximal(r, p)
  {
    var n := |p|;
    ChainsAgree(r, p, q, n - 1);
    assert Follows(r.answers, q[n - 1], q[n]);
    if i :| 0 <= i < n && p[i].name == q[n].name {
      ChainsAgree(r, p, q, i);
      assert false;
    }
  }

  /** There is only one maximal chain. */
  lemma MaximalChainIsUnique(r: Response, p: seq<Hop>, q: seq<Hop>)
    requires IsChain(r, p) && IsMaximal(r, p) && IsChain(r, q) && IsMaximal(r, q)
    ensures p == q
  {
    if |p| < |q| {
      ShorterIsNotMaximal(r, p, q);
    } else if |q| < |p| {
      ShorterIsNotMaximal(r, q, p);
    }
    forall i | 0 <= i < |p| && i < |q|
      ensures p[i] == q[i]
    {
      ChainsAgree(r, p, q, i);
    }
  }

  /** The TTL of the CNAME record that hop `i` goes through. */
  function RecordTtl(r: Response, path: seq<Hop>, i: nat): nat
    requires IsChain(r, path) && i < |path| - 1
  {
    assert Follows(r.answers, path[i], path[i + 1]);
    r.answers[FirstCname(r.answers, path[i].name)].ttl
  }

  /** The TTL of a hop is the least of all the CNAME records before it. */
  lemma HopTtlIsMinimum(r: Response, path: seq<Hop>, k: nat)
    requires IsChain(r, path) && k < |path|
    ensures path[k].ttl <= TTL_MAX && forall i :: 0 <= i < k ==> path[k].ttl <= RecordTtl(r, path, i)
    ensures path[k].ttl == TTL_MAX || exists i :: 0 <= i < k && path[k].ttl == RecordTtl(r, path, i)
  {
    if k > 0 {
      HopTtlIsMinimum(r, path, k - 1);
      assert Follows(r.answers, path[k - 1], path[k]);
      assert path[k].ttl == Min(path[k - 1].ttl, RecordTtl(r, path, k - 1));
      if path[k].ttl != RecordTtl(r, path, k - 1) && path[k].ttl != TTL_MAX {
        var i :| 0 <= i < k - 1 && path[k - 1].ttl == RecordTtl(r, path, i);
        assert path[k].ttl == RecordTtl(r, path, i);
      }
    }
  }

  datatype Observation = Observation(domain: Name, v6: bool, address: nat, ttl: nat)

  /** The TTL of the first hop with this name. */
  function PathTtl(path: seq<Hop>, name: Name): Option<nat> {
    if |path| == 0 then None
    else if path[0].name == name then Some(path[0].ttl)
    else PathTtl(path[1..], name)
  }

  function Observed(domain: Name, path: seq<Hop>, a: Answer): seq<Observation> {
    var ttl := PathTtl(path, a.name);
    if ttl.None? then []
    else
      match a.data
      case A(v4) => [Observation(domain, false, v4, Min(a.ttl, ttl.value))]
      case Aaaa(v6) => [Observation(domain, true, v6, Min(a.ttl, ttl.value))]
      case Cname(_) => []
  }

  function AllObserved(domain: Name, path: seq<Hop>, answers: seq<Answer>): seq<Observation> {
    if |answers| == 0 then [] else Observed(domain, path, answers[0]) + AllObserved(domain, path, answers[1..])
  }

  /** `o` is what answer `i` says about the query name, by way of hop `k`. */
  predicate Explains(r: Response, path: seq<Hop>, i: nat, k: nat, o: Observation)
    requires i < |r.answers| && k < |path|
  {
    var a := r.answers[i];
    && a.name == path[k].name && !a.data.Cname?
    && o == Observation(r.qname, a.data.Aaaa?, if a.data.Aaaa? then a.data.v6 else a.data.v4, Min(a.ttl, path[k].ttl))
  }

  lemma {:induction false} PathTtlAt(path: seq<Hop>, name: Name)
    ensures PathTtl(path, name).None? <==> !OnPath(path, name)
    ensures PathTtl(path, name).Some? ==> exists k :: 0 <= k < |path| && path[k] == Hop(name, PathTtl(path, name).value)
  {
    if |path| > 0 {
      var rest := path[1..];
      PathTtlAt(rest, name);
      if OnPath(rest, name) {
        var i :| 0 <= i < |rest| && rest[i].name == name;
        assert path[i + 1].name == name;
      }
      if PathTtl(path, name).Some? && path[0].name != name {
        var k :| 0 <= k < |rest| && rest[k] == Hop(name, PathTtl(rest, name).value);
        assert path[k + 1] == rest[k];
      }
    }
  }

  lemma {:induction false} ObservedAt(domain: Name, path: seq<Hop>, answers: seq<Answer>, o: Observation)
    ensures o in AllObserved(domain, path, answers) <==>
            exists i :: 0 <= i < |answers| && o in Observed(domain, path, answers[i])
  {
    if |answers| > 0 {
      var rest := answers[1..];
      ObservedAt(domain, path, rest, o);
      if i :| 0 <= i < |rest| && o in Observed(domain, path, rest[i]) {
        assert rest[i] == answers[i + 1];
      }
      if i :| 0 < i < |answers| && o in Observed(domain, path, answers[i]) {
        assert rest[i - 1] == answers[i];
      }
    }
  }

  lemma ObservedExactly(r: Response, path: seq<Hop>, i: nat, o: Observation)
    requires IsChain(r, path) && i < |r.answers|
    ensures o in Observed(r.qname, path, r.answers[i]) <==> exists k :: 0 <= k < |path| && Explains(r, path, i, k, o)
  {
    PathTtlAt(path, r.answers[i].name);
    if k :| 0 <= k < |path| && Explains(r, path, i, k, o) {
      assert OnPath(path, r.answers[i].name);
      var k' :| 0 <= k' < |path| && path[k'] == Hop(r.answers[i].name, PathTtl(path, r.answers[i].name).value);
      assert k == k';
    }
    if o in Observed(r.qname, path, r.answers[i]) {
      var k :| 0 <= k < |path| && path[k] == Hop(r.answers[i].name, PathTtl(path, r.answers[i].name).value);
      assert Explains(r, path, i, k, o);
    }
  }

  /** The observations are exactly the address records of names on the maximal chain, none for a failed response. */
  method Observations(r: Response) returns (observed: seq<Observation>, ghost path: seq<Hop>)
    ensures IsChain(r, path) && IsMaximal(r, path)
    ensures !r.noError ==> observed == []
    ensures r.noError ==> observed == AllObserved(r.qname, path, r.answers)
    ensures r.noError ==>
              forall o :: o in observed <==>
                            exists i, k :: 0 <= i < |r.answers| && 0 <= k < |path| && Explains(r, path, i, k, o)
  {
    var found := CnamePath(r);
    path := found;
    if !r.noError {
      return [], path;
    }
    observed := AllObserved(r.qname, found, r.answers);
    forall o
      ensures o in observed <==> exists i, k :: 0 <= i < |r.answers| && 0 <= k < |path| && Explains(r, path, i, k, o)
    {
      AllObservedExactly(r, path, o);
    }
  }

  lemma {:induction false} AllObservedExactly(r: Response, path: seq<Hop>, o: Observation)
    requires IsChain(r, path)
    ensures o in AllObserved(r.qname, path, r.answers) <==>
            exists i, k :: 0 <= i < |r.answers| && 0 <= k < |path| && Explains(r, path, i, k, o)
  {
    ObservedAt(r.qname, path, r.answers, o);
    if o in AllObserved(r.qname, path, r.answers) {
      var i :| 0 <= i < |r.answers| && o in Observed(r.qname, path, r.answers[i]);
      ObservedExactly(r, path, i, o);
    }
    if i, k :| 0 <= i < |r.answers| && 0 <= k < |path| && Explains(r, path, i, k, o) {
      ObservedExactly(r, path, i, o);
    }
  }
}
