/**
 * The discovery deduplication: a map of recently admitted keys and a queue of
 * the same keys in order of admission, pruned by age and bounded in size
 * (crates/agent/src/discovery.rs). It is proved exact against the history of
 * all admissions.
 */
module Dedup {
  import opened Base

  datatype Admission<K> = Admission(time: nat, key: K)

  /** How long and how many admissions a key is remembered for. */
  datatype Limits = Limits(ttl: nat, capacity: nat) {
    predicate Valid() {
      capacity > 0
    }
  }

  /** `Instant::duration_since`, which saturates at zero. */
  function Since(now: nat, seen: nat): nat {
    if now <= seen then 0 else now - seen
  }

  /** Admission `i` of `history` is no longer remembered: too old, or too many came after it. */
  predicate Forgotten<K>(history: seq<Admission<K>>, i: nat, now: nat, l: Limits)
    requires i < |history|
  {
    Since(now, history[i].time) >= l.ttl || |history| - 1 - i >= l.capacity
  }

  /** The specification: `key` was admitted less than the TTL ago, with fewer than CAPACITY admissions since. */
  ghost predicate Suppressed<K>(history: seq<Admission<K>>, key: K, now: nat, l: Limits) {
    exists i :: 0 <= i < |history| && history[i].key == key && !Forgotten(history, i, now, l)
  }

  ghost function Extended<K>(history: seq<Admission<K>>, key: K, now: nat, l: Limits): seq<Admission<K>> {
    if Suppressed(history, key, now, l) then history else history + [Admission(now, key)]
  }

  /** The times do not decrease, and end by `clock`. */
  predicate Ordered<K>(history: seq<Admission<K>>, clock: nat) {
    |history| > 0 ==>
      history[|history| - 1].time <= clock && Ordered(history[..|history| - 1], history[|history| - 1].time)
  }

  lemma {:induction false} OrderedAt<K>(history: seq<Admission<K>>, clock: nat, i: nat, j: nat)
    requires Ordered(history, clock) && i <= j < |history|
    ensures history[i].time <= history[j].time <= clock
  {
    if j < |history| - 1 {
      OrderedAt(history[..|history| - 1], history[|history| - 1].time, i, j);
    } else if i < j {
      OrderedAt(history[..|history| - 1], history[|history| - 1].time, i, i);
    }
  }

  lemma {:induction false} OrderedWithBack<K>(history: seq<Admission<K>>, clock: nat, a: Admission<K>)
    requires Ordered(history, clock) && clock <= a.time
    ensures Ordered(history + [a], a.time)
  {
    OrderedLater(history, clock, a.time);
    assert (history + [a])[..|history|] == history;
  }

  lemma {:induction false} OrderedLater<K>(history: seq<Admission<K>>, clock: nat, later: nat)
    requires Ordered(history, clock) && clock <= later
    ensures Ordered(history, later)
  {
  }

  ghost predicate Listed<K>(queue: seq<Admission<K>>, key: K) {
    exists i :: 0 <= i < |queue| && queue[i].key == key
  }

  /** The map holds exactly the keys of the queue, which are distinct, with their times. */
  predicate Mirrors<K(==)>(recent: map<K, nat>, queue: seq<Admission<K>>) {
    if |queue| == 0 then |recent| == 0
    else
      var front := queue[0];
      && front.key in recent && recent[front.key] == front.time
      && Mirrors(recent - {front.key}, queue[1..])
  }

  lemma {:induction false} MirrorsSize<K>(recent: map<K, nat>, queue: seq<Admission<K>>)
    requires Mirrors(recent, queue)
    ensures |recent| == |queue|
  {
    if |queue| > 0 {
      var rest := recent - {queue[0].key};
      MirrorsSize(rest, queue[1..]);
      assert recent == rest[queue[0].key := queue[0].time];
    }
  }

  lemma {:induction false} MirrorsListed<K>(recent: map<K, nat>, queue: seq<Admission<K>>, key: K)
    requires Mirrors(recent, queue)
    ensures key in recent <==> Listed(queue, key)
  {
    if |queue| > 0 {
      var rest := queue[1..];
      MirrorsListed(recent - {queue[0].key}, rest, key);
      if i :| 0 < i < |queue| && queue[i].key == key {
        assert rest[i - 1].key == key;
      }
      if i :| 0 <= i < |rest| && rest[i].key == key {
        assert queue[i + 1].key == key;
      }
    }
  }

  lemma MirrorsWithBack<K>(recent: map<K, nat>, queue: seq<Admission<K>>, a: Admission<K>)
    requires Mirrors(recent, queue) && a.key !in recent
    ensures Mirrors(recent[a.key := a.time], queue + [a])
  {
    var more := recent[a.key := a.time];
    if |queue| == 0 {
      assert more - {a.key} == recent;
    } else {
      var key := queue[0].key;
      MirrorsWithBack(recent - {key}, queue[1..], a);
      assert more - {key} == (recent - {key})[a.key := a.time];
      assert (queue + [a])[1..] == queue[1..] + [a];
    }
  }

  /** The queue is the history without its first `dropped` admissions, all of them forgotten by `now`. */
  ghost predicate Remembers<K>(queue: seq<Admission<K>>, history: seq<Admission<K>>, now: nat, l: Limits) {
    && |queue| <= |history|
    && queue == history[|history| - |queue|..]
    && (forall i :: 0 <= i < |history| - |queue| ==> Forgotten(history, i, now, l))
  }

  lemma RemembersLater<K>(queue: seq<Admission<K>>, history: seq<Admission<K>>, now: nat, later: nat, l: Limits)
    requires Remembers(queue, history, now, l) && now <= later
    ensures Remembers(queue, history, later, l)
  {
    forall i | 0 <= i < |history| - |queue|
      ensures Forgotten(history, i, later, l)
    {
      assert Forgotten(history, i, now, l);
    }
  }

  lemma RemembersWithoutFront<K>(queue: seq<Admission<K>>, history: seq<Admission<K>>, now: nat, l: Limits)
    requires Remembers(queue, history, now, l) && |queue| > 0
    requires Since(now, queue[0].time) >= l.ttl
    ensures Remembers(queue[1..], history, now, l)
  {
    var dropped := |history| - |queue|;
    assert queue[0] == history[dropped];
    assert queue[1..] == history[dropped + 1..];
  }

  /** An admission to a full queue pushes the oldest one out. */
  lemma RemembersWithBack<K>(queue: seq<Admission<K>>, history: seq<Admission<K>>, a: Admission<K>, now: nat, l: Limits,
                             after: seq<Admission<K>>, more: seq<Admission<K>>)
    requires Remembers(queue, history, now, l) && |queue| <= l.capacity && l.Valid()
    requires after == (if |queue| >= l.capacity then queue[1..] else queue) + [a] && more == history + [a]
    ensures Remembers(after, more, now, l)
  {
    var dropped := |more| - |after|;
    assert after == more[dropped..];
    forall i | 0 <= i < dropped
      ensures Forgotten(more, i, now, l)
    {
      if i < |history| - |queue| {
        assert Forgotten(history, i, now, l);
      }
    }
  }

  /** With every queued admission still young, the queue answers as the history does. */
  lemma ListedIsSuppressed<K>(queue: seq<Admission<K>>, history: seq<Admission<K>>, key: K, now: nat, l: Limits)
    requires Remembers(queue, history, now, l) && |queue| <= l.capacity
    requires forall i :: 0 <= i < |queue| ==> Since(now, queue[i].time) < l.ttl
    ensures Listed(queue, key) <==> Suppressed(history, key, now, l)
  {
    var dropped := |history| - |queue|;
    if i :| 0 <= i < |queue| && queue[i].key == key {
      assert history[dropped + i] == queue[i];
      assert !Forgotten(history, dropped + i, now, l);
    }
    if i :| 0 <= i < |history| && history[i].key == key && !Forgotten(history, i, now, l) {
      assert queue[i - dropped] == history[i];
    }
  }

  lemma {:induction false} AllYoung<K>(queue: seq<Admission<K>>, history: seq<Admission<K>>, clock: nat, now: nat, l: Limits)
    requires Remembers(queue, history, now, l) && Ordered(history, clock)
    requires |queue| == 0 || Since(now, queue[0].time) < l.ttl
    ensures forall i :: 0 <= i < |queue| ==> Since(now, queue[i].time) < l.ttl
  {
    var dropped := |history| - |queue|;
    forall i | 0 <= i < |queue|
      ensures Since(now, queue[i].time) < l.ttl
    {
      OrderedAt(history, clock, dropped, dropped + i);
    }
  }

  class Cache<K(==)> {
    const limits: Limits
    var recent: map<K, nat>
    var expiry: seq<Admission<K>>
    ghost var history: seq<Admission<K>>
    ghost var clock: nat

    ghost predicate Valid()
      reads this
    {
      && limits.Valid()
      && |expiry| <= limits.capacity
      && Ordered(history, clock)
      && Mirrors(recent, expiry)
      && Remembers(expiry, history, clock, limits)
    }

    constructor (limits: Limits)
      requires limits.Valid()
      ensures Valid() && this.limits == limits && |history| == 0 && clock == 0
    {
      this.limits := limits;
      recent, expiry := map[], [];
      history, clock := [], 0;
    }

    /** Takes the oldest key out of the queue and the map; the queue must not be empty. */
    method PopFront()
      requires |expiry| > 0 && Mirrors(recent, expiry)
      modifies `recent, `expiry
      ensures expiry == old(expiry)[1..] && Mirrors(recent, expiry) && recent.Keys <= old(recent).Keys
    {
      var front := expiry[0];
      expiry := expiry[1..];
      recent := recent - {front.key};
    }

    method Prune(now: nat)
      requires Valid() && now >= clock
      modifies this
      ensures Valid() && clock == now && history == old(history)
      ensures forall i :: 0 <= i < |expiry| ==> Since(now, expiry[i].time) < limits.ttl
    {
      RemembersLater(expiry, history, clock, now, limits);
      OrderedLater(history, clock, now);
      clock := now;
      while |expiry| > 0 && Since(now, expiry[0].time) >= limits.ttl
        invariant Valid() && clock == now && history == old(history)
        decreases |expiry|
      {
        RemembersWithoutFront(expiry, history, now, limits);
        PopFront();
      }
      AllYoung(expiry, history, now, now, limits);
    }

    /** Makes room for one more key in a full queue. */
    method MakeRoom()
      requires |expiry| <= limits.capacity && limits.Valid() && Mirrors(recent, expiry)
      modifies `recent, `expiry
      ensures expiry == if |old(expiry)| >= limits.capacity then old(expiry)[1..] else old(expiry)
      ensures Mirrors(recent, expiry) && recent.Keys <= old(recent).Keys
    {
      MirrorsSize(recent, expiry);
      if |recent| >= limits.capacity {
        PopFront();
      }
    }

    /** Admits a key that is not remembered. */
    method Insert(key: K, now: nat)
      requires Valid() && clock == now && key !in recent
      modifies this
      ensures Valid() && clock == now && history == old(history) + [Admission(now, key)]
    {
      ghost var a := Admission(now, key);
      OrderedWithBack(history, clock, a);
      MakeRoom();
      Append(key, now);
      history := history + [a];
      RemembersWithBack(old(expiry), old(history), a, now, limits, expiry, history);
    }

    method Append(key: K, now: nat)
      requires Mirrors(recent, expiry) && key !in recent
      modifies `recent, `expiry
      ensures Mirrors(recent, expiry) && expiry == old(expiry) + [Admission(now, key)]
    {
      MirrorsWithBack(recent, expiry, Admission(now, key));
      recent := recent[key := now];
      expiry := expiry + [Admission(now, key)];
    }

    /**
     * One lookup: `key` is a duplicate if and only if the history says so, and
     * otherwise it is admitted. Neither pop can fail.
     */
    method Admit(key: K, now: nat) returns (duplicate: bool)
      requires Valid() && now >= clock
      modifies this
      ensures Valid() && clock == now
      ensures duplicate <==> Suppressed(old(history), key, now, limits)
      ensures history == Extended(old(history), key, now, limits)
    {
      Prune(now);
      MirrorsListed(recent, expiry, key);
      ListedIsSuppressed(expiry, history, key, now, limits);
      duplicate := key in recent;
      if !duplicate {
        Insert(key, now);
      }
    }
  }

  /** Two admissions of one key are a TTL apart, or CAPACITY other admissions lie between them. */
  ghost predicate Spaced<K>(history: seq<Admission<K>>, l: Limits) {
    forall i, j :: 0 <= i < j < |history| && history[i].key == history[j].key
                   ==> history[j].time - history[i].time >= l.ttl || j - i - 1 >= l.capacity
  }

  lemma AdmissionIsSpaced<K>(history: seq<Admission<K>>, i: nat, key: K, now: nat, l: Limits)
    requires i < |history| && history[i].key == key && !Suppressed(history, key, now, l)
    ensures Forgotten(history, i, now, l)
  {
  }

  lemma {:induction false} SpacedWithBack<K>(history: seq<Admission<K>>, a: Admission<K>, l: Limits)
    requires Spaced(history, l) && Ordered(history, a.time) && !Suppressed(history, a.key, a.time, l)
    ensures Spaced(history + [a], l)
  {
    var more := history + [a];
    forall i, j | 0 <= i < j < |more| && more[i].key == more[j].key
      ensures more[j].time - more[i].time >= l.ttl || j - i - 1 >= l.capacity
    {
      if j == |history| {
        AdmissionIsSpaced(history, i, a.key, a.time, l);
        OrderedAt(history, a.time, i, i);
      } else {
        assert history[i].key == history[j].key;
      }
    }
  }

  lemma {:induction false} ExtendedKeepsSpacing<K>(history: seq<Admission<K>>, key: K, clock: nat, now: nat, l: Limits)
    requires Spaced(history, l) && Ordered(history, clock) && clock <= now
    ensures Spaced(Extended(history, key, now, l), l) && Ordered(Extended(history, key, now, l), now)
  {
    if !Suppressed(history, key, now, l) {
      SpacedWithBack(history, Admission(now, key), l);
      OrderedWithBack(history, clock, Admission(now, key));
    }
  }

  const DEDUP := Limits(1_000_000_000, 16_384)
  const HTTP_USER_AGENT_DEDUP := Limits(60_000_000_000, 4_096)

  const MDNS: nat := 5353
  const SSDP: nat := 1900
  const HTTP: nat := 80

  datatype Key = Key(mac: nat, address: nat, sourcePort: nat, destinationPort: nat, payloadHash: nat)
  {
    predicate Uses(port: nat) {
      sourcePort == port || destinationPort == port
    }
  }

  /** A parsed observation, with the hash of a nonempty user agent if it has one. */
  datatype Observation = Observation(http: bool, agent: Option<nat>)

  datatype Outcome = Failed | Observed(observations: seq<Observation>)

  /** A decoded packet, with what the payload parser makes of it. */
  datatype Event = Event(key: Key, truncated: bool, parsed: Outcome)

  datatype Agent = Agent(mac: nat, hash: nat)

  datatype Counters = Counters(truncated: nat, duplicate: nat, parseFailed: nat, mdnsParsed: nat, mdnsFailed: nat,
                               ssdpParsed: nat, dhcp6Parsed: nat, httpParsed: nat, httpDuplicate: nat, failures: nat)

  const ZERO := Counters(0, 0, 0, 0, 0, 0, 0, 0, 0, 0)

  /** The user agent of the first HTTP observation. */
  function FirstAgent(observations: seq<Observation>): Option<nat> {
    if |observations| == 0 then None
    else if observations[0].http then observations[0].agent
    else FirstAgent(observations[1..])
  }

  function WithoutHttp(observations: seq<Observation>): seq<Observation> {
    if |observations| == 0 then []
    else (if observations[0].http then [] else [observations[0]]) + WithoutHttp(observations[1..])
  }

  function CountOutcome(c: Counters, key: Key, parsed: Outcome): Counters {
    if parsed.Failed? then
      c.(parseFailed := c.parseFailed + 1, failures := c.failures + 1,
      mdnsFailed := if key.Uses(MDNS) then c.mdnsFailed + 1 else c.mdnsFailed)
    else if key.Uses(MDNS) then c.(mdnsParsed := c.mdnsParsed + 1)
    else if key.Uses(SSDP) then c.(ssdpParsed := c.ssdpParsed + 1)
    else if key.sourcePort == 546 && key.destinationPort == 547 then c.(dhcp6Parsed := c.dhcp6Parsed + 1)
    else if key.Uses(HTTP) then c.(httpParsed := c.httpParsed + 1)
    else c
  }

  /** The packets whose user agent is deduplicated: HTTP by port, parsed, and carrying one. */
  function AgentOf(event: Event): Option<Agent> {
    var k := event.key;
    if event.parsed.Observed? && k.Uses(HTTP) && !k.Uses(MDNS) && !k.Uses(SSDP)
       && FirstAgent(event.parsed.observations).Some?
    then Some(Agent(k.mac, FirstAgent(event.parsed.observations).value))
    else None
  }

  /** All that was ever admitted, and the counters: what the processor means. */
  datatype Record = Record(packets: seq<Admission<Key>>, agents: seq<Admission<Agent>>, counters: Counters)

  ghost predicate Repeated(agents: seq<Admission<Agent>>, agent: Option<Agent>, now: nat) {
    agent.Some? && Suppressed(agents, agent.value, now, HTTP_USER_AGENT_DEDUP)
  }

  ghost function AfterAgent(agents: seq<Admission<Agent>>, agent: Option<Agent>, now: nat): seq<Admission<Agent>> {
    if agent.Some? then Extended(agents, agent.value, now, HTTP_USER_AGENT_DEDUP) else agents
  }

  function CountRepeat(c: Counters, repeated: bool): Counters {
    if repeated then c.(httpDuplicate := c.httpDuplicate + 1) else c
  }

  /** An admitted packet is counted by its outcome, and its user agent looked up. */
  ghost function Digested(r: Record, event: Event, now: nat): Record {
    var agent := AgentOf(event);
    Record(r.packets, AfterAgent(r.agents, agent, now),
           CountRepeat(CountOutcome(r.counters, event.key, event.parsed), Repeated(r.agents, agent, now)))
  }

  /** A repeated user agent takes the HTTP observations away. */
  ghost function Filtered(agents: seq<Admission<Agent>>, event: Event, now: nat): Outcome {
    if Repeated(agents, AgentOf(event), now)
    then Observed(WithoutHttp(event.parsed.observations))
    else event.parsed
  }

  ghost function AfterEvent(r: Record, event: Event, now: nat): Record {
    var c := r.counters;
    if event.truncated then r.(counters := c.(truncated := c.truncated + 1))
    else if Suppressed(r.packets, event.key, now, DEDUP) then r.(counters := c.(duplicate := c.duplicate + 1))
    else Digested(r.(packets := Extended(r.packets, event.key, now, DEDUP)), event, now)
  }

  /** Nothing is reported of a truncated or repeated packet. */
  ghost function Reported(r: Record, event: Event, now: nat): Outcome {
    if event.truncated || Suppressed(r.packets, event.key, now, DEDUP) then Observed([])
    else Filtered(r.agents, event, now)
  }

  class Processor {
    const packets: Cache<Key>
    const agents: Cache<Agent>
    var counters: Counters

    ghost predicate Valid()
      reads this, packets, agents
    {
      && (packets as object) != agents
      && packets.Valid() && agents.Valid()
      && packets.limits == DEDUP && agents.limits == HTTP_USER_AGENT_DEDUP
    }

    ghost function State(): Record
      reads this, packets, agents
    {
      Record(packets.history, agents.history, counters)
    }

    constructor ()
      ensures Valid() && fresh(packets) && fresh(agents)
      ensures |packets.history| == 0 && |agents.history| == 0 && counters == ZERO
      ensures packets.clock == 0 && agents.clock == 0
    {
      packets := new Cache(DEDUP);
      agents := new Cache(HTTP_USER_AGENT_DEDUP);
      counters := ZERO;
    }

    method FindAgent(observations: seq<Observation>) returns (found: Option<nat>)
      ensures found == FirstAgent(observations)
    {
      var i := 0;
      while i < |observations| && !observations[i].http
        invariant i <= |observations| && FirstAgent(observations) == FirstAgent(observations[i..])
      {
        i := i + 1;
      }
      found := if i < |observations| then observations[i].agent else None;
    }

    method ProcessEvent(event: Event, now: nat) returns (result: Outcome)
      requires Valid() && now >= packets.clock && now >= agents.clock
      modifies this, packets, agents
      ensures Valid() && packets.clock <= now && agents.clock <= now
      ensures State() == AfterEvent(old(State()), event, now)
      ensures result == Reported(old(State()), event, now)
    {
      if event.truncated {
        counters := counters.(truncated := counters.truncated + 1);
        return Observed([]);
      }
      var duplicate := Recognise(event.key, now);
      if duplicate {
        return Observed([]);
      }
      result := Digest(event, now);
    }

    method Recognise(key: Key, now: nat) returns (duplicate: bool)
      requires Valid() && now >= packets.clock
      modifies `counters, packets
      ensures Valid() && packets.clock == now
      ensures duplicate <==> Suppressed(old(packets.history), key, now, DEDUP)
      ensures packets.history == Extended(old(packets.history), key, now, DEDUP)
      ensures counters == if duplicate then old(counters).(duplicate := old(counters).duplicate + 1) else old(counters)
    {
      duplicate := packets.Admit(key, now);
      if duplicate {
        counters := counters.(duplicate := counters.duplicate + 1);
      }
    }

    method Digest(event: Event, now: nat) returns (result: Outcome)
      requires Valid() && now >= agents.clock
      modifies `counters, agents
      ensures Valid() && agents.clock <= now
      ensures State() == Digested(old(State()), event, now)
      ensures result == Filtered(old(agents.history), event, now)
    {
      result := event.parsed;
      counters := CountOutcome(counters, event.key, result);
      if result.Observed? && event.key.Uses(HTTP) && !event.key.Uses(MDNS) && !event.key.Uses(SSDP) {
        var repeated := DedupUserAgent(event, now);
        if repeated {
          result := Observed(WithoutHttp(result.observations));
        }
      } else {
        assert AgentOf(event) == None;
      }
    }

    method DedupUserAgent(event: Event, now: nat) returns (repeated: bool)
      requires Valid() && now >= agents.clock && event.parsed.Observed?
      requires event.key.Uses(HTTP) && !event.key.Uses(MDNS) && !event.key.Uses(SSDP)
      modifies `counters, agents
      ensures Valid() && agents.clock <= now
      ensures repeated == Repeated(old(agents.history), AgentOf(event), now)
      ensures agents.history == AfterAgent(old(agents.history), AgentOf(event), now)
      ensures counters == CountRepeat(old(counters), repeated)
    {
      repeated := false;
      var agent := FindAgent(event.parsed.observations);
      if agent.Some? {
        repeated := agents.Admit(Agent(event.key.mac, agent.value), now);
        if repeated {
          counters := counters.(httpDuplicate := counters.httpDuplicate + 1);
        }
      }
    }
  }

  /** A run: the events in order, each with its time. */
  datatype Arrival = Arrival(event: Event, now: nat)

  ghost predicate Timely(arrivals: seq<Arrival>) {
    forall i, j :: 0 <= i < j < |arrivals| ==> arrivals[i].now <= arrivals[j].now
  }

  ghost function Run(arrivals: seq<Arrival>): Record {
    if |arrivals| == 0 then Record([], [], ZERO)
    else
      var last := arrivals[|arrivals| - 1];
      AfterEvent(Run(arrivals[..|arrivals| - 1]), last.event, last.now)
  }

  /** The admissions are in order of time and spaced. */
  ghost predicate WellSpaced<K>(history: seq<Admission<K>>, clock: nat, l: Limits) {
    Spaced(history, l) && Ordered(history, clock)
  }

  lemma AgentsStayWellSpaced(agents: seq<Admission<Agent>>, agent: Option<Agent>, clock: nat, now: nat)
    requires WellSpaced(agents, clock, HTTP_USER_AGENT_DEDUP) && clock <= now
    ensures WellSpaced(agents, now, HTTP_USER_AGENT_DEDUP)
    ensures WellSpaced(AfterAgent(agents, agent, now), now, HTTP_USER_AGENT_DEDUP)
  {
    OrderedLater(agents, clock, now);
    if agent.Some? {
      ExtendedKeepsSpacing(agents, agent.value, clock, now, HTTP_USER_AGENT_DEDUP);
    }
  }

  lemma AfterEventKeepsSpacing(r: Record, event: Event, clock: nat, now: nat)
    requires WellSpaced(r.packets, clock, DEDUP) && WellSpaced(r.agents, clock, HTTP_USER_AGENT_DEDUP) && clock <= now
    ensures var s := AfterEvent(r, event, now);
            WellSpaced(s.packets, now, DEDUP) && WellSpaced(s.agents, now, HTTP_USER_AGENT_DEDUP)
  {
    OrderedLater(r.packets, clock, now);
    ExtendedKeepsSpacing(r.packets, event.key, clock, now, DEDUP);
    AgentsStayWellSpaced(r.agents, AgentOf(event), clock, now);
  }

  /** Every packet is counted once: as truncated, as a duplicate, or by its admission. */
  lemma AfterEventCountsOnce(r: Record, event: Event, now: nat)
    ensures var s := AfterEvent(r, event, now);
            s.counters.truncated + s.counters.duplicate + |s.packets|
            == r.counters.truncated + r.counters.duplicate + |r.packets| + 1
  {
  }

  /** Over every run: admissions of one key are spaced, and every packet is counted exactly once. */
  lemma {:induction false} RunsAreExact(arrivals: seq<Arrival>)
    requires Timely(arrivals)
    ensures var r := Run(arrivals);
            var clock := if |arrivals| == 0 then 0 else arrivals[|arrivals| - 1].now;
            && WellSpaced(r.packets, clock, DEDUP) && WellSpaced(r.agents, clock, HTTP_USER_AGENT_DEDUP)
            && r.counters.truncated + r.counters.duplicate + |r.packets| == |arrivals|
  {
    if |arrivals| > 0 {
      var before := arrivals[..|arrivals| - 1];
      var last := arrivals[|arrivals| - 1];
      RunsAreExact(before);
      var clock := if |before| == 0 then 0 else before[|before| - 1].now;
      AfterEventKeepsSpacing(Run(before), last.event, clock, last.now);
      AfterEventCountsOnce(Run(before), last.event, last.now);
    }
  }
}
