/**
 The agent's flow runtime: counter deltas and lifecycle events from successive snapshots of the flow map.

 A flow lifetime is named by the first-seen time of its map entry, which is what its hashed identity is made of.
 */
module FlowRuntime {
  import opened Base

  datatype Counters = Counters(packets: nat, bytes: nat, firstSeenNs: nat, lastSeenNs: nat)

  datatype Phase = Active | Idle | End

  datatype Known = Known(counters: Counters, lastActivity: nat, phase: Phase)

  datatype Event = Event(phase: Phase, lifetime: nat)

  datatype Delta = Delta(lifetime: nat, packets: nat, bytes: nat)

  const ZERO := Counters(0, 0, 0, 0)

  /** What is known of one key and everything emitted for it. */
  datatype Trace = Trace(known: Option<Known>, deltas: seq<Delta>, events: seq<Event>)

  function MonotonicDelta(current: nat, previous: nat): nat {
    if current >= previous then current - previous else current
  }

  /** The map entry was replaced: another lifetime of the same key. */
  predicate Replaced(known: Option<Known>, counters: Counters) {
    && known.Some? && counters.firstSeenNs != 0 && known.value.counters.firstSeenNs != 0
    && counters.firstSeenNs != known.value.counters.firstSeenNs
  }

  /** What the new counters are compared with. */
  function Baseline(known: Option<Known>, counters: Counters, now: nat): Known {
    if Replaced(known, counters) then Known(ZERO, known.value.lastActivity, Idle)
    else if known.Some? then known.value
    else Known(ZERO, now, Idle)
  }

  /** One snapshot record of the key. */
  function Observed(t: Trace, counters: Counters, now: nat): Trace {
    var base := Baseline(t.known, counters, now);
    var packets := MonotonicDelta(counters.packets, base.counters.packets);
    var bytes := MonotonicDelta(counters.bytes, base.counters.bytes);
    var ended := if Replaced(t.known, counters) then [Event(End, t.known.value.counters.firstSeenNs)] else [];
    if packets == 0 && bytes == 0 then Trace(Some(base.(counters := counters)), t.deltas, t.events + ended)
    else
      Trace(Some(Known(counters, now, Active)),
            t.deltas + [Delta(counters.firstSeenNs, packets, bytes)],
            t.events + ended + (if base.phase == Active then [] else [Event(Active, counters.firstSeenNs)]))
  }

  /** The idle sweep at the end of a poll. */
  function Swept(t: Trace, timeout: nat, now: nat): Trace {
    match t.known
    case None => t
    case Some(k) =>
      var inactive := if now > k.lastActivity then now - k.lastActivity else 0;
      if inactive >= timeout then Trace(None, t.deltas, t.events + [Event(End, k.counters.firstSeenNs)])
      else if inactive > 0 && k.phase == Active then
        Trace(Some(k.(phase := Idle)), t.deltas, t.events + [Event(Idle, k.counters.firstSeenNs)])
      else t
  }

  function ObservedAll(t: Trace, records: seq<Counters>, now: nat): Trace {
    if |records| == 0 then t
    else Observed(ObservedAll(t, records[..|records| - 1], now), records[|records| - 1], now)
  }

  /** One poll, as seen by a single key with the given records in the snapshot. */
  function Polled(t: Trace, records: seq<Counters>, now: nat, timeout: nat): Trace {
    Swept(ObservedAll(t, records, now), timeout, now)
  }

  // The runtime itself, for all keys at once

  datatype FlowEvent = FlowEvent(key: FlowKey, event: Event)
  datatype FlowDelta = FlowDelta(key: FlowKey, delta: Delta)
  datatype Record = Record(key: FlowKey, counters: Counters)

  function EventsOf(events: seq<FlowEvent>, key: FlowKey): seq<Event> {
    if |events| == 0 then []
    else EventsOf(events[..|events| - 1], key)
         + (if events[|events| - 1].key == key then [events[|events| - 1].event] else [])
  }

  function DeltasOf(deltas: seq<FlowDelta>, key: FlowKey): seq<Delta> {
    if |deltas| == 0 then []
    else DeltasOf(deltas[..|deltas| - 1], key)
         + (if deltas[|deltas| - 1].key == key then [deltas[|deltas| - 1].delta] else [])
  }

  function RecordsOf(records: seq<Record>, key: FlowKey): seq<Counters> {
    if |records| == 0 then []
    else RecordsOf(records[..|records| - 1], key)
         + (if records[|records| - 1].key == key then [records[|records| - 1].counters] else [])
  }

  function Lookup(flows: map<FlowKey, Known>, key: FlowKey): Option<Known> {
    if key in flows then Some(flows[key]) else None
  }

  function TraceOf(flows: map<FlowKey, Known>, deltas: seq<FlowDelta>, events: seq<FlowEvent>, key: FlowKey): Trace {
    Trace(Lookup(flows, key), DeltasOf(deltas, key), EventsOf(events, key))
  }

  lemma {:induction false} EventAppended(events: seq<FlowEvent>, e: FlowEvent, key: FlowKey)
    ensures EventsOf(events + [e], key) == EventsOf(events, key) + (if e.key == key then [e.event] else [])
  {
    assert (events + [e])[..|events|] == events;
  }

  lemma {:induction false} DeltaAppended(deltas: seq<FlowDelta>, d: FlowDelta, key: FlowKey)
    ensures DeltasOf(deltas + [d], key) == DeltasOf(deltas, key) + (if d.key == key then [d.delta] else [])
  {
    assert (deltas + [d])[..|deltas|] == deltas;
  }

  class Runtime {
    const tcpIdleTimeout: nat
    const udpIdleTimeout: nat
    var flows: map<FlowKey, Known>

    constructor (tcpIdleTimeout: nat, udpIdleTimeout: nat)
      ensures this.tcpIdleTimeout == tcpIdleTimeout && this.udpIdleTimeout == udpIdleTimeout && flows == map[]
    {
      this.tcpIdleTimeout, this.udpIdleTimeout, flows := tcpIdleTimeout, udpIdleTimeout, map[];
    }

    function Timeout(key: FlowKey): nat {
      if key.protocol == UDP then udpIdleTimeout else tcpIdleTimeout
    }

    /** A poll does to every key what `Polled` does to it alone, whatever the other keys do. */
    method Update(current: seq<Record>, now: nat) returns (deltas: seq<FlowDelta>, events: seq<FlowEvent>)
      modifies this
      ensures forall key :: TraceOf(flows, deltas, events, key)
                         == Polled(Trace(old(Lookup(flows, key)), [], []), RecordsOf(current, key), now, Timeout(key))
    {
      deltas, events := [], [];
      for i := 0 to |current|
        invariant forall key :: TraceOf(flows, deltas, events, key)
                             == ObservedAll(Trace(old(Lookup(flows, key)), [], []), RecordsOf(current[..i], key), now)
      {
        label before:
        ghost var deltas0, events0 := deltas, events;
        deltas, events := ObserveRecord(deltas, events, current[i], now);
        forall key
          ensures TraceOf(flows, deltas, events, key)
               == ObservedAll(Trace(old(Lookup(flows, key)), [], []), RecordsOf(current[..i + 1], key), now)
        {
          RecordAppended(current[..i], current[i], key);
          assert current[..i] + [current[i]] == current[..i + 1];
          ObservedAllAppended(Trace(old(Lookup(flows, key)), [], []), RecordsOf(current[..i], key), current[i].counters, now);
          assert TraceOf(old@before(flows), deltas0, events0, key)
              == ObservedAll(Trace(old(Lookup(flows, key)), [], []), RecordsOf(current[..i], key), now);
        }
      }
      assert current[..|current|] == current;
      events := SweepAll(deltas, events, now);
    }

    method ObserveRecord(deltas: seq<FlowDelta>, events: seq<FlowEvent>, record: Record, now: nat)
      returns (deltas': seq<FlowDelta>, events': seq<FlowEvent>)
      modifies this
      ensures TraceOf(flows, deltas', events', record.key)
           == Observed(TraceOf(old(flows), deltas, events, record.key), record.counters, now)
      ensures forall key | key != record.key :: TraceOf(flows, deltas', events', key) == TraceOf(old(flows), deltas, events, key)
    {
      var key, counters := record.key, record.counters;
      deltas', events' := deltas, events;
      if key in flows && counters.firstSeenNs != 0 && flows[key].counters.firstSeenNs != 0
         && counters.firstSeenNs != flows[key].counters.firstSeenNs {
        var ended := FlowEvent(key, Event(End, flows[key].counters.firstSeenNs));
        forall k { EventAppended(events', ended, k); }
        events' := events' + [ended];
        flows := flows[key := Known(ZERO, flows[key].lastActivity, Idle)];
      }
      var state := if key in flows then flows[key] else Known(ZERO, now, Idle);
      var packets := MonotonicDelta(counters.packets, state.counters.packets);
      var bytes := MonotonicDelta(counters.bytes, state.counters.bytes);
      state := state.(counters := counters);
      if packets != 0 || bytes != 0 {
        state := state.(lastActivity := now);
        if state.phase != Active {
          state := state.(phase := Active);
          var active := FlowEvent(key, Event(Active, counters.firstSeenNs));
          forall k { EventAppended(events', active, k); }
          events' := events' + [active];
        }
        var delta := FlowDelta(key, Delta(counters.firstSeenNs, packets, bytes));
        forall k { DeltaAppended(deltas', delta, k); }
        deltas' := deltas' + [delta];
      }
      flows := flows[key := state];
    }

    /** The sweep visits the keys in any order. */
    method SweepAll(ghost deltas: seq<FlowDelta>, events: seq<FlowEvent>, now: nat) returns (events': seq<FlowEvent>)
      modifies this
      ensures forall key :: TraceOf(flows, deltas, events', key)
                         == Swept(TraceOf(old(flows), deltas, events, key), Timeout(key), now)
    {
      events' := events;
      var rest := flows.Keys;
      while rest != {}
        invariant rest <= flows.Keys
        invariant forall key :: TraceOf(flows, deltas, events', key)
                             == if key in rest then TraceOf(old(flows), deltas, events, key)
                                else Swept(TraceOf(old(flows), deltas, events, key), Timeout(key), now)
        decreases rest
      {
        var key :| key in rest;
        assert TraceOf(flows, deltas, events', key) == TraceOf(old(flows), deltas, events, key);
        label before:
        ghost var events0 := events';
        events' := Sweep(deltas, events', key, now);
        rest := rest - {key};
        forall k
          ensures TraceOf(flows, deltas, events', k)
               == if k in rest then TraceOf(old(flows), deltas, events, k)
                  else Swept(TraceOf(old(flows), deltas, events, k), Timeout(k), now)
        {
          if k != key {
            assert TraceOf(flows, deltas, events', k) == TraceOf(old@before(flows), deltas, events0, k);
          }
        }
      }
    }

    method Sweep(ghost deltas: seq<FlowDelta>, events: seq<FlowEvent>, key: FlowKey, now: nat) returns (events': seq<FlowEvent>)
      requires key in flows
      modifies this
      ensures TraceOf(flows, deltas, events', key) == Swept(TraceOf(old(flows), deltas, events, key), Timeout(key), now)
      ensures forall k | k != key :: TraceOf(flows, deltas, events', k) == TraceOf(old(flows), deltas, events, k)
      ensures flows.Keys >= old(flows.Keys) - {key}
    {
      events' := events;
      var state := flows[key];
      var inactive := if now > state.lastActivity then now - state.lastActivity else 0;
      if inactive >= Timeout(key) {
        var ended := FlowEvent(key, Event(End, state.counters.firstSeenNs));
        forall k { EventAppended(events, ended, k); }
        events' := events + [ended];
        flows := flows - {key};
      } else if inactive > 0 && state.phase == Active {
        var idle := FlowEvent(key, Event(Idle, state.counters.firstSeenNs));
        forall k { EventAppended(events, idle, k); }
        events' := events + [idle];
        flows := flows[key := state.(phase := Idle)];
      }
    }
  }

  lemma {:induction false} RecordAppended(records: seq<Record>, r: Record, key: FlowKey)
    ensures RecordsOf(records + [r], key) == RecordsOf(records, key) + (if r.key == key then [r.counters] else [])
  {
    assert (records + [r])[..|records|] == records;
  }

  lemma {:induction false} ObservedAllAppended(t: Trace, records: seq<Counters>, r: Counters, now: nat)
    ensures ObservedAll(t, records + [r], now) == Observed(ObservedAll(t, records, now), r, now)
    ensures records + [] == records
  {
    assert (records + [r])[..|records|] == records;
  }

  // Whole runs of one key

  /** One poll as far as one key is concerned. */
  datatype Snapshot = Snapshot(records: seq<Counters>, now: nat)

  function Run(polls: seq<Snapshot>, timeout: nat): Trace {
    if |polls| == 0 then Trace(None, [], [])
    else
      var last := polls[|polls| - 1];
      Polled(Run(polls[..|polls| - 1], timeout), last.records, last.now, timeout)
  }

  /** What was emitted before stays, and does not matter to what is emitted next. */
  function Behind(before: Trace, t: Trace): Trace {
    Trace(t.known, before.deltas + t.deltas, before.events + t.events)
  }

  /** What is known, with nothing emitted yet. */
  function Clean(t: Trace): Trace {
    Trace(t.known, [], [])
  }

  lemma ObservedAppends(before: Trace, t: Trace, c: Counters, now: nat)
    ensures Observed(Behind(before, t), c, now) == Behind(before, Observed(t, c, now))
  {
    var o := Observed(t, c, now);
    var ended := if Replaced(t.known, c) then [Event(End, t.known.value.counters.firstSeenNs)] else [];
    var active := [Event(Active, c.firstSeenNs)];
    assert before.events + t.events + ended == before.events + (t.events + ended);
    assert before.events + t.events + ended + active == before.events + (t.events + ended + active);
    assert before.events + t.events + ended + [] == before.events + (t.events + ended + []);
    if |o.deltas| > |t.deltas| {
      assert before.deltas + t.deltas + [o.deltas[|t.deltas|]] == before.deltas + o.deltas;
    }
  }

  lemma SweptAppends(before: Trace, t: Trace, timeout: nat, now: nat)
    ensures Swept(Behind(before, t), timeout, now) == Behind(before, Swept(t, timeout, now))
  {
    if t.known.Some? {
      var lifetime := t.known.value.counters.firstSeenNs;
      assert before.events + t.events + [Event(End, lifetime)] == before.events + (t.events + [Event(End, lifetime)]);
      assert before.events + t.events + [Event(Idle, lifetime)] == before.events + (t.events + [Event(Idle, lifetime)]);
    }
  }

  lemma {:induction false} ObservedAllAppends(before: Trace, t: Trace, records: seq<Counters>, now: nat)
    ensures ObservedAll(Behind(before, t), records, now) == Behind(before, ObservedAll(t, records, now))
  {
    if |records| != 0 {
      ObservedAllAppends(before, t, records[..|records| - 1], now);
      ObservedAppends(before, ObservedAll(t, records[..|records| - 1], now), records[|records| - 1], now);
    }
  }

  /** A poll appends to a trace what it emits from what is known alone. */
  lemma PolledAppends(t: Trace, records: seq<Counters>, now: nat, timeout: nat)
    ensures Polled(t, records, now, timeout) == Behind(t, Polled(Clean(t), records, now, timeout))
  {
    assert t.deltas + [] == t.deltas && t.events + [] == t.events;
    ObservedAllAppends(t, Clean(t), records, now);
    SweptAppends(t, ObservedAll(Clean(t), records, now), timeout, now);
  }

  // Whole runs of the runtime

  /** One poll of the agent: the snapshot of all flows, and the time. */
  datatype MapSnapshot = MapSnapshot(current: seq<Record>, now: nat)

  function SnapshotsOf(polls: seq<MapSnapshot>, key: FlowKey): seq<Snapshot> {
    if |polls| == 0 then []
    else
      var last := polls[|polls| - 1];
      SnapshotsOf(polls[..|polls| - 1], key) + [Snapshot(RecordsOf(last.current, key), last.now)]
  }

  lemma {:induction false} EventsConcatenate(a: seq<FlowEvent>, b: seq<FlowEvent>, key: FlowKey)
    ensures EventsOf(a + b, key) == EventsOf(a, key) + EventsOf(b, key)
  {
    if |b| == 0 {
      assert a + b == a;
    } else {
      var e := b[|b| - 1];
      assert a + b == a + b[..|b| - 1] + [e];
      EventAppended(a + b[..|b| - 1], e, key);
      EventsConcatenate(a, b[..|b| - 1], key);
    }
  }

  lemma {:induction false} DeltasConcatenate(a: seq<FlowDelta>, b: seq<FlowDelta>, key: FlowKey)
    ensures DeltasOf(a + b, key) == DeltasOf(a, key) + DeltasOf(b, key)
  {
    if |b| == 0 {
      assert a + b == a;
    } else {
      var d := b[|b| - 1];
      assert a + b == a + b[..|b| - 1] + [d];
      DeltaAppended(a + b[..|b| - 1], d, key);
      DeltasConcatenate(a, b[..|b| - 1], key);
    }
  }

  /** One more poll, for one key: the class emits behind what it emitted before what the run of the key says. */
  lemma {:induction false} PollExtendsRun(polls: seq<MapSnapshot>, p: MapSnapshot, key: FlowKey, timeout: nat, t: Trace, emitted: Trace)
    requires t == Run(SnapshotsOf(polls, key), timeout)
    requires emitted == Polled(Clean(t), RecordsOf(p.current, key), p.now, timeout)
    ensures Behind(t, emitted) == Run(SnapshotsOf(polls + [p], key), timeout)
  {
    var snapshots := SnapshotsOf(polls, key);
    assert (polls + [p])[..|polls|] == polls;
    assert (snapshots + [Snapshot(RecordsOf(p.current, key), p.now)])[..|snapshots|] == snapshots;
    PolledAppends(t, RecordsOf(p.current, key), p.now, timeout);
  }

  /** The same in terms of the runtime's state and of all that it emitted. */
  lemma {:induction false} UpdateExtendsRun(polls: seq<MapSnapshot>, p: MapSnapshot, key: FlowKey, timeout: nat,
                         flows: map<FlowKey, Known>, deltas: seq<FlowDelta>, events: seq<FlowEvent>,
                         flows': map<FlowKey, Known>, deltas': seq<FlowDelta>, events': seq<FlowEvent>)
    requires TraceOf(flows, deltas, events, key) == Run(SnapshotsOf(polls, key), timeout)
    requires TraceOf(flows', deltas', events', key)
          == Polled(Trace(Lookup(flows, key), [], []), RecordsOf(p.current, key), p.now, timeout)
    ensures TraceOf(flows', deltas + deltas', events + events', key) == Run(SnapshotsOf(polls + [p], key), timeout)
  {
    DeltasConcatenate(deltas, deltas', key);
    EventsConcatenate(events, events', key);
    PollExtendsRun(polls, p, key, timeout, TraceOf(flows, deltas, events, key), TraceOf(flows', deltas', events', key));
  }

  /** Any number of polls of a fresh runtime: every key goes through its own run, deltas and events in order. */
  method Follow(runtime: Runtime, polls: seq<MapSnapshot>) returns (deltas: seq<FlowDelta>, events: seq<FlowEvent>)
    requires runtime.flows == map[]
    modifies runtime
    ensures forall key :: TraceOf(runtime.flows, deltas, events, key)
                       == Run(SnapshotsOf(polls, key), runtime.Timeout(key))
  {
    if |polls| == 0 {
      return [], [];
    }
    var before, last := polls[..|polls| - 1], polls[|polls| - 1];
    deltas, events := Follow(runtime, before);
    ghost var flows := runtime.flows;
    var deltas', events' := runtime.Update(last.current, last.now);
    forall key
      ensures TraceOf(runtime.flows, deltas + deltas', events + events', key)
           == Run(SnapshotsOf(polls, key), runtime.Timeout(key))
    {
      assert TraceOf(flows, deltas, events, key) == Run(SnapshotsOf(before, key), runtime.Timeout(key));
      UpdateExtendsRun(before, last, key, runtime.Timeout(key), flows, deltas, events, runtime.flows, deltas', events');
      assert before + [last] == polls;
    }
    deltas, events := deltas + deltas', events + events';
  }

  /** The events of every key with regular records, over any number of polls, follow the grammar. */
  method FollowLifecycles(runtime: Runtime, polls: seq<MapSnapshot>) returns (events: seq<FlowEvent>)
    requires runtime.flows == map[]
    modifies runtime
    ensures forall key | GrammarApplies(SnapshotsOf(polls, key)) :: StageOf(EventsOf(events, key)) != Broken
  {
    var deltas;
    deltas, events := Follow(runtime, polls);
    forall key | GrammarApplies(SnapshotsOf(polls, key))
      ensures StageOf(EventsOf(events, key)) != Broken
    {
      assert TraceOf(runtime.flows, deltas, events, key) == Run(SnapshotsOf(polls, key), runtime.Timeout(key));
      GrammarHolds(SnapshotsOf(polls, key), runtime.Timeout(key));
    }
  }

  // The lifecycle grammar

  /** Where a sequence of events stands in `(Active (Idle Active)* Idle? End)*`. */
  datatype Stage = Closed | Running(lifetime: nat) | Paused(lifetime: nat) | Broken

  function After(stage: Stage, e: Event): Stage {
    match (stage, e.phase)
    case (Closed, Active) => Running(e.lifetime)
    case (Running(l), Idle) => if e.lifetime == l then Paused(l) else Broken
    case (Paused(l), Active) => if e.lifetime == l then Running(l) else Broken
    case (Running(l), End) => if e.lifetime == l then Closed else Broken
    case (Paused(l), End) => if e.lifetime == l then Closed else Broken
    case _ => Broken
  }

  function StageOf(events: seq<Event>): Stage {
    if |events| == 0 then Closed else After(StageOf(events[..|events| - 1]), events[|events| - 1])
  }

  lemma {:induction false} StageAfterOne(events: seq<Event>, e: Event)
    ensures StageOf(events + [e]) == After(StageOf(events), e)
  {
    assert (events + [e])[..|events|] == events;
  }

  lemma {:induction false} StageAfterAny(events: seq<Event>, es: seq<Event>)
    requires |es| <= 1
    ensures StageOf(events + es) == if |es| == 0 then StageOf(events) else After(StageOf(events), es[0])
  {
    if |es| == 0 {
      assert events + es == events;
    } else {
      assert es == [es[0]];
      StageAfterOne(events, es[0]);
    }
  }

  /** A record that counts something and, by its first-seen time, has a lifetime of the given kind. */
  predicate Sound(c: Counters, timeless: bool) {
    (c.packets > 0 || c.bytes > 0) && (c.firstSeenNs == 0 <==> timeless)
  }

  predicate AllSound(polls: seq<Snapshot>, timeless: bool) {
    forall i, j | 0 <= i < |polls| && 0 <= j < |polls[i].records| :: Sound(polls[i].records[j], timeless)
  }

  predicate GrammarApplies(polls: seq<Snapshot>) {
    AllSound(polls, false) || AllSound(polls, true)
  }

  /** What is known of the key agrees with where its events stand. */
  predicate InStep(t: Trace, timeless: bool) {
    match t.known
    case None => StageOf(t.events) == Closed
    case Some(k) =>
      && (k.counters.firstSeenNs == 0 <==> timeless) && k.phase != End
      && StageOf(t.events) == (if k.phase == Active then Running(k.counters.firstSeenNs) else Paused(k.counters.firstSeenNs))
  }

  lemma ObservingStaysInStep(t: Trace, c: Counters, now: nat, timeless: bool)
    requires InStep(t, timeless) && Sound(c, timeless)
    ensures InStep(Observed(t, c, now), timeless)
  {
    var ended := if Replaced(t.known, c) then [Event(End, t.known.value.counters.firstSeenNs)] else [];
    StageAfterAny(t.events, ended);
    StageAfterAny(t.events + ended, []);
    StageAfterAny(t.events + ended, [Event(Active, c.firstSeenNs)]);
  }

  lemma {:induction false} ObservingAllStaysInStep(t: Trace, records: seq<Counters>, now: nat, timeless: bool)
    requires InStep(t, timeless) && forall i | 0 <= i < |records| :: Sound(records[i], timeless)
    ensures InStep(ObservedAll(t, records, now), timeless)
  {
    if |records| != 0 {
      ObservingAllStaysInStep(t, records[..|records| - 1], now, timeless);
      ObservingStaysInStep(ObservedAll(t, records[..|records| - 1], now), records[|records| - 1], now, timeless);
    }
  }

  lemma SweepingStaysInStep(t: Trace, timeout: nat, now: nat, timeless: bool)
    requires InStep(t, timeless)
    ensures InStep(Swept(t, timeout, now), timeless)
  {
    if t.known.Some? {
      StageAfterOne(t.events, Event(End, t.known.value.counters.firstSeenNs));
      StageAfterOne(t.events, Event(Idle, t.known.value.counters.firstSeenNs));
    }
  }

  /** Over every run of sound records the events of a key stand where the runtime thinks. */
  lemma {:induction false} RunStaysInStep(polls: seq<Snapshot>, timeout: nat, timeless: bool)
    requires AllSound(polls, timeless)
    ensures InStep(Run(polls, timeout), timeless)
  {
    if |polls| != 0 {
      var before, last := polls[..|polls| - 1], polls[|polls| - 1];
      RunStaysInStep(before, timeout, timeless);
      ObservingAllStaysInStep(Run(before, timeout), last.records, last.now, timeless);
      SweepingStaysInStep(ObservedAll(Run(before, timeout), last.records, last.now), timeout, last.now, timeless);
    }
  }

  lemma {:induction false} GrammarHolds(polls: seq<Snapshot>, timeout: nat)
    requires GrammarApplies(polls)
    ensures StageOf(Run(polls, timeout).events) != Broken
  {
    RunStaysInStep(polls, timeout, AllSound(polls, true));
  }

  /** A run of one poll with the given records, and one without any after the timeout. */
  function PollAndTimeOut(records: seq<Counters>, timeout: nat): seq<Snapshot> {
    [Snapshot(records, 0), Snapshot([], timeout)]
  }

  /** Whatever a first poll leaves behind ends, at once or after the timeout. */
  lemma {:induction false} TimedOut(records: seq<Counters>, timeout: nat)
    requires ObservedAll(Trace(None, [], []), records, 0).known.Some?
    requires ObservedAll(Trace(None, [], []), records, 0).known.value.lastActivity == 0
    ensures var t := ObservedAll(Trace(None, [], []), records, 0);
            Run(PollAndTimeOut(records, timeout), timeout).events
            == t.events + [Event(End, t.known.value.counters.firstSeenNs)]
  {
    var polls := PollAndTimeOut(records, timeout);
    var t := ObservedAll(Trace(None, [], []), records, 0);
    assert polls[..1] == [Snapshot(records, 0)];
    assert [Snapshot(records, 0)][..0] == [];
    assert Run(polls[..1], timeout) == Swept(t, timeout, 0);
    assert ObservedAll(Swept(t, timeout, 0), [], timeout) == Swept(t, timeout, 0);
    assert Run(polls, timeout) == Swept(Swept(t, timeout, 0), timeout, timeout);
  }

  /** A record that counts nothing breaks the grammar: its flow ends without ever having been active. */
  lemma {:induction false} EmptyRecordBreaksTheGrammar(r: Counters, timeout: nat)
    requires r.packets == 0 && r.bytes == 0
    ensures StageOf(Run(PollAndTimeOut([r], timeout), timeout).events) == Broken
  {
    var start := Trace(None, [], []);
    assert [r][..0] == [];
    assert ObservedAll(start, [], 0) == start;
    assert ObservedAll(start, [r], 0) == Observed(start, r, 0);
    TimedOut([r], timeout);
    StageAfterOne([], Event(End, r.firstSeenNs));
  }

  lemma ObservedTwice(r: Counters, s: Counters)
    requires r.firstSeenNs == 0 && (r.packets > 0 || r.bytes > 0)
    ensures var t := ObservedAll(Trace(None, [], []), [r, s], 0);
            && t.known.Some? && t.known.value.counters == s && t.known.value.lastActivity == 0
            && t.events == [Event(Active, 0)]
  {
    var start, both := Trace(None, [], []), [r, s];
    var once := Observed(start, r, 0);
    assert [r][..0] == [] && both[..1] == [r];
    assert ObservedAll(start, [r], 0) == once;
    assert once.known == Some(Known(r, 0, Active)) && once.events == [Event(Active, 0)];
    assert ObservedAll(start, both, 0) == Observed(once, s, 0);
  }

  lemma OtherLifetimeEnds(firstSeenNs: nat)
    requires firstSeenNs != 0
    ensures StageOf([Event(Active, 0)] + [Event(End, firstSeenNs)]) == Broken
  {
    var active := Event(Active, 0);
    StageAfterOne([], active);
    assert [] + [active] == [active];
    StageAfterOne([active], Event(End, firstSeenNs));
  }

  /** Records with and without a first-seen time break it together: the lifetime changes under way. */
  lemma {:induction false} MixedRecordsBreakTheGrammar(r: Counters, s: Counters, timeout: nat)
    requires r.firstSeenNs == 0 && s.firstSeenNs != 0 && (r.packets > 0 || r.bytes > 0)
    ensures StageOf(Run(PollAndTimeOut([r, s], timeout), timeout).events) == Broken
  {
    ObservedTwice(r, s);
    TimedOut([r, s], timeout);
    OtherLifetimeEnds(s.firstSeenNs);
  }

  ghost predicate DrawnFrom(polls: seq<Snapshot>, records: iset<Counters>) {
    forall i, j | 0 <= i < |polls| && 0 <= j < |polls[i].records| :: polls[i].records[j] in records
  }

  ghost predicate AlwaysGrammatical(records: iset<Counters>, timeout: nat) {
    forall polls | DrawnFrom(polls, records) :: StageOf(Run(polls, timeout).events) != Broken
  }

  /** Every record counts something, and either all or none of them have a first-seen time. */
  ghost predicate Regular(records: iset<Counters>) {
    (forall r <- records :: Sound(r, false)) || (forall r <- records :: Sound(r, true))
  }

  lemma RegularRecordsAreGrammatical(records: iset<Counters>, timeout: nat)
    requires Regular(records)
    ensures AlwaysGrammatical(records, timeout)
  {
    forall polls | DrawnFrom(polls, records)
      ensures StageOf(Run(polls, timeout).events) != Broken
    {
      assert GrammarApplies(polls);
      GrammarHolds(polls, timeout);
    }
  }

  lemma IrregularRecordsAreNot(records: iset<Counters>, timeout: nat)
    requires !Regular(records)
    ensures !AlwaysGrammatical(records, timeout)
  {
    if r :| r in records && r.packets == 0 && r.bytes == 0 {
      EmptyRecordBreaksTheGrammar(r, timeout);
      assert DrawnFrom(PollAndTimeOut([r], timeout), records);
    } else {
      var r :| r in records && !Sound(r, false);
      var s :| s in records && !Sound(s, true);
      MixedRecordsBreakTheGrammar(r, s, timeout);
      assert DrawnFrom(PollAndTimeOut([r, s], timeout), records);
    }
  }

  /**
   Lifecycle grammar, exactly: every run over the given records follows `(Active (Idle Active)* Idle? End)*`, each
   block with one lifetime, if and only if every record counts a packet or a byte and either all or none of the
   records have a first-seen time.
   */
  lemma LifecycleFollowsTheGrammarExactly(records: iset<Counters>, timeout: nat)
    ensures AlwaysGrammatical(records, timeout) <==> Regular(records)
  {
    if Regular(records) {
      RegularRecordsAreGrammatical(records, timeout);
    } else {
      IrregularRecordsAreNot(records, timeout);
    }
  }
}
