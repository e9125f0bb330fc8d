/**
 Flow accounting end to end, for one key: the kernel's map entry, the map reader that deletes idle entries, and
 the flow runtime with its own idle timer. All times are nanoseconds of the monotonic clock.
 */
module FlowAccounting {
  import opened Base
  import opened FlowRuntime

  /** The idle timeouts the reader and the runtime apply to the key. */
  datatype Timeouts = Timeouts(reader: nat, runtime: nat)

  /** Which timeouts a protocol gets: the reader tells TCP from the rest, the runtime UDP from the rest. */
  function TimeoutsOf(protocol: Byte, tcpSeconds: nat, udpSeconds: nat): Timeouts {
    Timeouts(SECOND * (if protocol == TCP then tcpSeconds else udpSeconds),
             SECOND * (if protocol == UDP then udpSeconds else tcpSeconds))
  }

  /** What a poll saw, emitted and ended, by lifetime. */
  datatype Entry =
    | Seen(lifetime: nat, packets: nat, bytes: nat)
    | Emitted(lifetime: nat, packets: nat, bytes: nat)
    | Ended(lifetime: nat)

  /** `clock` is how far the map has come, `updated` when the runtime was last updated. */
  datatype World = World(kernel: Option<Counters>, known: Option<Known>, clock: nat, updated: nat, log: seq<Entry>)

  const START := World(None, None, 0, 0, [])

  /** A packet of `length` bytes at time `at`. */
  datatype Arrival = Arrival(at: nat, length: nat)

  datatype Action =
    | Packet(arrival: Arrival)
    | Evict
    /**
     A poll that reads the clock at `readAt`, looks the entry up at `lookupAt`, and updates the runtime at
     `updateAt`; `late` packets arrive between the lookup and the delete, which may fail. Packets between the
     reading and the lookup precede the poll, packets between the delete and the update follow it.
     */
    | Poll(readAt: nat, lookupAt: nat, updateAt: nat, late: seq<Arrival>, deleteFails: bool)

  function Counted(kernel: Option<Counters>, a: Arrival): Counters {
    match kernel
    case None => Counters(1, a.length, a.at, a.at)
    case Some(c) => Counters(c.packets + 1, c.bytes + a.length, c.firstSeenNs, a.at)
  }

  function CountedAll(kernel: Option<Counters>, arrivals: seq<Arrival>): Option<Counters> {
    if |arrivals| == 0 then kernel
    else Some(Counted(CountedAll(kernel, arrivals[..|arrivals| - 1]), arrivals[|arrivals| - 1]))
  }

  predicate FlowIsIdle(c: Counters, now: nat, timeout: nat) {
    (if now > c.lastSeenNs then now - c.lastSeenNs else 0) > timeout
  }

  /** The reader's snapshot record and what it leaves in the map. */
  function Read(t: Timeouts, kernel: Option<Counters>, readAt: nat, late: seq<Arrival>, deleteFails: bool)
    : (Option<Counters>, Option<Counters>)
  {
    var latest := CountedAll(kernel, late);
    if kernel.Some? && FlowIsIdle(kernel.value, readAt, t.reader) && !deleteFails then (latest, None)
    else (kernel, latest)
  }

  /** The runtime's poll with that record: the trace after observing it and the trace of the sweep that follows. */
  function Update(t: Timeouts, known: Option<Known>, record: Option<Counters>, now: nat): (Trace, Trace) {
    var start := Trace(known, [], []);
    var observed := if record.Some? then Observed(start, record.value, now) else start;
    (observed, Swept(Trace(observed.known, [], []), t.runtime, now))
  }

  function EndsIn(events: seq<Event>): seq<Entry> {
    if |events| > 0 && events[0].phase == End then [Ended(events[0].lifetime)] else []
  }

  function Logged(record: Option<Counters>, observed: Trace, swept: Trace): seq<Entry> {
    EndsIn(observed.events)
    + (if record.Some? then [Seen(record.value.firstSeenNs, record.value.packets, record.value.bytes)] else [])
    + (if |observed.deltas| > 0
       then [Emitted(observed.deltas[0].lifetime, observed.deltas[0].packets, observed.deltas[0].bytes)] else [])
    + EndsIn(swept.events)
  }

  function Step(t: Timeouts, w: World, a: Action): World {
    match a
    case Packet(arrival) => w.(kernel := Some(Counted(w.kernel, arrival)), clock := Max(w.clock, arrival.at))
    case Evict => w.(kernel := None)
    case Poll(readAt, lookupAt, updateAt, late, deleteFails) =>
      var (record, kernel) := Read(t, w.kernel, readAt, late, deleteFails);
      var (observed, swept) := Update(t, w.known, record, updateAt);
      World(kernel, swept.known, Max(w.clock, Max(lookupAt, LastAt(late))), updateAt,
            w.log + Logged(record, observed, swept))
  }

  function LastAt(arrivals: seq<Arrival>): nat {
    if |arrivals| == 0 then 0 else arrivals[|arrivals| - 1].at
  }

  function Run(t: Timeouts, actions: seq<Action>): World {
    if |actions| == 0 then START else Step(t, Run(t, actions[..|actions| - 1]), actions[|actions| - 1])
  }

  predicate InOrder(from: nat, arrivals: seq<Arrival>) {
    forall i | 0 <= i < |arrivals| :: from <= arrivals[i].at && (i > 0 ==> arrivals[i - 1].at <= arrivals[i].at)
  }

  /**
   What is assumed of polls: the runtime is updated at most `lag` after the clock reading the reader uses,
   everything in the map was seen strictly before it is looked up, and deletes succeed.
   */
  datatype Hypotheses = Hypotheses(lag: nat, seenBefore: bool, deletesSucceed: bool)

  function Within(lag: nat): Hypotheses {
    Hypotheses(lag, true, true)
  }

  /** Time does not go back, is nonzero when packets are seen, and polls meet the hypotheses `h`. */
  predicate Admissible(h: Hypotheses, w: World, a: Action) {
    match a
    case Packet(arrival) => arrival.at >= w.clock && arrival.at > 0
    case Evict => true
    case Poll(readAt, lookupAt, updateAt, late, deleteFails) =>
      && w.updated <= readAt <= lookupAt <= updateAt <= readAt + h.lag
      && w.clock <= lookupAt && lookupAt > 0 && InOrder(lookupAt, late)
      && (h.deletesSucceed ==> !deleteFails)
      && (h.seenBefore && w.kernel.Some? ==> w.kernel.value.lastSeenNs < lookupAt)
  }

  predicate AdmissibleRun(h: Hypotheses, t: Timeouts, actions: seq<Action>) {
    |actions| == 0
    || (AdmissibleRun(h, t, actions[..|actions| - 1])
        && Admissible(h, Run(t, actions[..|actions| - 1]), actions[|actions| - 1]))
  }

  // What the log says

  /** Everything emitted for a lifetime. */
  function Total(log: seq<Entry>, lifetime: nat): (nat, nat) {
    if |log| == 0 then (0, 0)
    else
      var (packets, bytes) := Total(log[..|log| - 1], lifetime);
      var e := log[|log| - 1];
      if e.Emitted? && e.lifetime == lifetime then (packets + e.packets, bytes + e.bytes) else (packets, bytes)
  }

  /** The counters last observed for a lifetime. */
  function Last(log: seq<Entry>, lifetime: nat): (nat, nat) {
    if |log| == 0 then (0, 0)
    else
      var e := log[|log| - 1];
      if e.Seen? && e.lifetime == lifetime then (e.packets, e.bytes) else Last(log[..|log| - 1], lifetime)
  }

  predicate HasEnded(log: seq<Entry>, lifetime: nat) {
    exists i | 0 <= i < |log| :: log[i] == Ended(lifetime)
  }

  /** Nothing is emitted for a lifetime that has ended. */
  ghost predicate NothingAfterEnd(log: seq<Entry>) {
    forall j | 0 <= j < |log| && log[j].Emitted? :: !HasEnded(log[..j], log[j].lifetime)
  }

  /** The deltas of every lifetime add up to the counters last observed for it. */
  ghost predicate Settled(log: seq<Entry>) {
    forall lifetime :: Total(log, lifetime) == Last(log, lifetime)
  }

  ghost predicate Conserved(log: seq<Entry>) {
    NothingAfterEnd(log) && Settled(log)
  }

  // Extending a log

  lemma {:induction false} Extended(log: seq<Entry>, e: Entry)
    ensures forall l :: Total(log + [e], l) == if e.Emitted? && e.lifetime == l
                                               then (Total(log, l).0 + e.packets, Total(log, l).1 + e.bytes) else Total(log, l)
    ensures forall l :: Last(log + [e], l) == if e.Seen? && e.lifetime == l then (e.packets, e.bytes) else Last(log, l)
  {
    assert (log + [e])[..|log|] == log;
  }

  lemma NothingAfterEndYet(log: seq<Entry>, e: Entry)
    requires NothingAfterEnd(log) && (e.Emitted? ==> !HasEnded(log, e.lifetime))
    ensures NothingAfterEnd(log + [e])
  {
    assert forall j | 0 <= j <= |log| :: (log + [e])[..j] == log[..j];
    assert log[..|log|] == log;
  }

  lemma NoEndYet(log: seq<Entry>, e: Entry, lifetime: nat)
    requires !HasEnded(log, lifetime) && e != Ended(lifetime)
    ensures !HasEnded(log + [e], lifetime)
  {
  }

  lemma StillConservedWithout(log: seq<Entry>, e: Entry)
    requires Conserved(log) && e.Ended?
    ensures Conserved(log + [e])
  {
    Extended(log, e);
    NothingAfterEndYet(log, e);
  }

  predicate Before(log: seq<Entry>, clock: nat) {
    forall i | 0 <= i < |log| :: log[i].lifetime < clock
  }

  /** `grown` is the log with counters observed and their growth emitted, if there is any. */
  predicate Grows(log: seq<Entry>, c: Counters, packets: nat, bytes: nat, grown: seq<Entry>) {
    var seen := log + [Seen(c.firstSeenNs, c.packets, c.bytes)];
    grown == if packets == 0 && bytes == 0 then seen else seen + [Emitted(c.firstSeenNs, packets, bytes)]
  }

  lemma {:induction false} GrownIsSettled(log: seq<Entry>, c: Counters, packets: nat, bytes: nat, grown: seq<Entry>)
    requires Grows(log, c, packets, bytes, grown) && Settled(log)
    requires Last(log, c.firstSeenNs).0 + packets == c.packets && Last(log, c.firstSeenNs).1 + bytes == c.bytes
    ensures Settled(grown) && Last(grown, c.firstSeenNs) == (c.packets, c.bytes)
  {
    var seen := Seen(c.firstSeenNs, c.packets, c.bytes);
    Extended(log, seen);
    Extended(log + [seen], Emitted(c.firstSeenNs, packets, bytes));
  }

  lemma GrownHasNoEnd(log: seq<Entry>, c: Counters, packets: nat, bytes: nat, grown: seq<Entry>)
    requires Grows(log, c, packets, bytes, grown) && NothingAfterEnd(log) && !HasEnded(log, c.firstSeenNs)
    ensures NothingAfterEnd(grown) && !HasEnded(grown, c.firstSeenNs)
  {
    var seen, emitted := Seen(c.firstSeenNs, c.packets, c.bytes), Emitted(c.firstSeenNs, packets, bytes);
    NothingAfterEndYet(log, seen);
    NoEndYet(log, seen, c.firstSeenNs);
    NothingAfterEndYet(log + [seen], emitted);
    NoEndYet(log + [seen], emitted, c.firstSeenNs);
  }

  lemma GrownIsBefore(log: seq<Entry>, c: Counters, packets: nat, bytes: nat, grown: seq<Entry>, clock: nat)
    requires Grows(log, c, packets, bytes, grown) && Before(log, clock) && c.firstSeenNs < clock
    ensures Before(grown, clock)
  {
  }

  /** Observing counters and emitting their growth keeps a log conserved. */
  lemma {:induction false} GrowthKeepsTheLog(log: seq<Entry>, c: Counters, packets: nat, bytes: nat, grown: seq<Entry>, clock: nat)
    requires Grows(log, c, packets, bytes, grown)
    requires Conserved(log) && !HasEnded(log, c.firstSeenNs) && Before(log, clock) && c.firstSeenNs < clock
    requires Last(log, c.firstSeenNs).0 + packets == c.packets && Last(log, c.firstSeenNs).1 + bytes == c.bytes
    ensures Conserved(grown) && Last(grown, c.firstSeenNs) == (c.packets, c.bytes)
    ensures !HasEnded(grown, c.firstSeenNs) && Before(grown, clock)
  {
    GrownIsSettled(log, c, packets, bytes, grown);
    GrownHasNoEnd(log, c, packets, bytes, grown);
    GrownIsBefore(log, c, packets, bytes, grown, clock);
  }

  predicate Fresh(log: seq<Entry>, lifetime: nat) {
    forall i | 0 <= i < |log| :: log[i].lifetime != lifetime
  }

  lemma {:induction false} FreshHasNothing(log: seq<Entry>, lifetime: nat)
    requires Fresh(log, lifetime)
    ensures Total(log, lifetime) == (0, 0) && Last(log, lifetime) == (0, 0) && !HasEnded(log, lifetime)
  {
    if |log| != 0 {
      FreshHasNothing(log[..|log| - 1], lifetime);
    }
  }

  lemma {:induction false} LateArrivals(c: Counters, late: seq<Arrival>)
    ensures var r := CountedAll(Some(c), late);
            && r.Some? && r.value.firstSeenNs == c.firstSeenNs
            && r.value.packets == c.packets + |late| && r.value.bytes >= c.bytes
            && r.value.lastSeenNs == (if |late| == 0 then c.lastSeenNs else LastAt(late))
            && (|late| == 0 ==> r.value == c)
  {
    if |late| != 0 {
      LateArrivals(c, late[..|late| - 1]);
    }
  }

  lemma {:induction false} LateArrivalsFromNone(from: nat, late: seq<Arrival>)
    requires InOrder(from, late) && |late| > 0
    ensures var r := CountedAll(None, late);
            && r.Some? && r.value.firstSeenNs == late[0].at && r.value.packets >= 1 && r.value.lastSeenNs == LastAt(late)
            && late[0].at <= LastAt(late)
  {
    if |late| > 1 {
      LateArrivalsFromNone(from, late[..|late| - 1]);
    } else {
      assert CountedAll(None, late[..0]) == None;
    }
  }

  // What every admissible action keeps

  /** The kernel entry `c` is at or ahead of what the runtime knows of the same lifetime. */
  predicate Ahead(c: Counters, k: Known) {
    && c.packets >= k.counters.packets && c.bytes >= k.counters.bytes
    && (c.packets == k.counters.packets ==> c.bytes == k.counters.bytes && c.lastSeenNs < k.lastActivity)
  }

  ghost predicate KnownOk(w: World, k: Known) {
    var lifetime := k.counters.firstSeenNs;
    && 0 < lifetime < w.clock && k.lastActivity <= w.updated && !Fresh(w.log, lifetime)
    && Last(w.log, lifetime) == (k.counters.packets, k.counters.bytes) && !HasEnded(w.log, lifetime)
  }

  ghost predicate KernelOk(w: World, c: Counters) {
    && c.packets >= 1 && 0 < c.firstSeenNs <= c.lastSeenNs <= w.clock
    && if w.known.Some? && c.firstSeenNs == w.known.value.counters.firstSeenNs then Ahead(c, w.known.value)
       else Fresh(w.log, c.firstSeenNs)
  }

  ghost predicate Inv(w: World) {
    && Conserved(w.log)
    && Before(w.log, w.clock)
    && (w.known.Some? ==> KnownOk(w, w.known.value))
    && (w.kernel.Some? ==> KernelOk(w, w.kernel.value))
  }

  lemma PacketKeepsInv(lag: nat, t: Timeouts, w: World, a: Action)
    requires Inv(w) && a.Packet? && Admissible(Within(lag), w, a)
    ensures Inv(Step(t, w, a))
  {
  }

  /** The record `r` continues what is known of its lifetime, or starts a lifetime the log has not seen. */
  ghost predicate Continues(w: World, r: Counters) {
    && r.packets >= 1 && r.firstSeenNs > 0
    && if w.known.Some? && w.known.value.counters.firstSeenNs == r.firstSeenNs
       then r.packets >= w.known.value.counters.packets && r.bytes >= w.known.value.counters.bytes
       else Fresh(w.log, r.firstSeenNs)
  }

  /** The log after the runtime has observed `r`, before the sweep. */
  function LogAfterObserving(w: World, r: Counters, now: nat): seq<Entry> {
    var o := Observed(Trace(w.known, [], []), r, now);
    w.log + EndsIn(o.events) + [Seen(r.firstSeenNs, r.packets, r.bytes)]
    + (if |o.deltas| > 0 then [Emitted(o.deltas[0].lifetime, o.deltas[0].packets, o.deltas[0].bytes)] else [])
  }

  /** What observing a record of the lifetime already known adds to the log. */
  lemma LogOfContinuing(w: World, r: Counters, now: nat)
    requires Continues(w, r) && w.known.Some? && w.known.value.counters.firstSeenNs == r.firstSeenNs
    ensures var c := w.known.value.counters;
            Grows(w.log, r, r.packets - c.packets, r.bytes - c.bytes, LogAfterObserving(w, r, now))
  {
    assert w.log + [] == w.log;
  }

  /** What the first record of a lifetime adds, which ends the one known before. */
  lemma LogOfStarting(w: World, r: Counters, now: nat)
    requires Continues(w, r) && !(w.known.Some? && w.known.value.counters.firstSeenNs == r.firstSeenNs)
    requires w.known.Some? ==> w.known.value.counters.firstSeenNs > 0
    ensures Grows(w.log + EndedBy(w.known), r, r.packets, r.bytes, LogAfterObserving(w, r, now))
    ensures Observed(Trace(w.known, [], []), r, now).known == Some(Known(r, now, Active))
  {
  }

  function EndedBy(known: Option<Known>): seq<Entry> {
    if known.Some? then [Ended(known.value.counters.firstSeenNs)] else []
  }

  lemma ContinuingKeepsTheLog(w: World, r: Counters, now: nat)
    requires Inv(w) && Continues(w, r) && w.known.Some? && w.known.value.counters.firstSeenNs == r.firstSeenNs
    ensures var log := LogAfterObserving(w, r, now);
            && Conserved(log) && Last(log, r.firstSeenNs) == (r.packets, r.bytes) && !HasEnded(log, r.firstSeenNs)
            && Before(log, w.clock)
  {
    var c := w.known.value.counters;
    LogOfContinuing(w, r, now);
    GrowthKeepsTheLog(w.log, r, r.packets - c.packets, r.bytes - c.bytes, LogAfterObserving(w, r, now), w.clock);
  }

  lemma EndingIsConserved(w: World, lifetime: nat)
    requires Inv(w) && Fresh(w.log, lifetime) && (w.known.Some? ==> w.known.value.counters.firstSeenNs != lifetime)
    ensures var log := w.log + EndedBy(w.known);
            Conserved(log) && Fresh(log, lifetime) && Before(log, w.clock)
  {
    if w.known.Some? {
      StillConservedWithout(w.log, Ended(w.known.value.counters.firstSeenNs));
    } else {
      assert w.log + [] == w.log;
    }
  }

  lemma StartingKeepsTheLog(w: World, r: Counters, now: nat, clock: nat)
    requires Inv(w) && Continues(w, r) && !(w.known.Some? && w.known.value.counters.firstSeenNs == r.firstSeenNs)
    requires w.clock <= clock && r.firstSeenNs < clock
    ensures var log := LogAfterObserving(w, r, now);
            && Conserved(log) && Last(log, r.firstSeenNs) == (r.packets, r.bytes) && !HasEnded(log, r.firstSeenNs)
            && Before(log, clock)
            && Observed(Trace(w.known, [], []), r, now).known == Some(Known(r, now, Active))
  {
    var before := w.log + EndedBy(w.known);
    LogOfStarting(w, r, now);
    EndingIsConserved(w, r.firstSeenNs);
    FreshHasNothing(before, r.firstSeenNs);
    GrowthKeepsTheLog(before, r, r.packets, r.bytes, LogAfterObserving(w, r, now), clock);
  }

  /** The sweep keeps the invariant when the lifetime it ends is no longer in the map. */
  lemma SweepKeepsInv(t: Timeouts, w: World, now: nat)
    requires Inv(w)
    requires var swept := Swept(Trace(w.known, [], []), t.runtime, now);
             swept.known.None? && w.known.Some? && w.kernel.Some?
             ==> w.kernel.value.firstSeenNs != w.known.value.counters.firstSeenNs
    ensures var swept := Swept(Trace(w.known, [], []), t.runtime, now);
            Inv(w.(known := swept.known, log := w.log + EndsIn(swept.events)))
  {
    var swept := Swept(Trace(w.known, [], []), t.runtime, now);
    if w.known.Some? && swept.known.None? {
      StillConservedWithout(w.log, Ended(w.known.value.counters.firstSeenNs));
    } else {
      assert w.log + EndsIn(swept.events) == w.log;
    }
  }

  /** The poll up to the sweep. */
  function BeforeSweep(t: Timeouts, w: World, a: Action): World
    requires a.Poll?
  {
    var (record, kernel) := Read(t, w.kernel, a.readAt, a.late, a.deleteFails);
    World(kernel, Update(t, w.known, record, a.updateAt).0.known, Max(w.clock, Max(a.lookupAt, LastAt(a.late))), a.updateAt,
          if record.Some? then LogAfterObserving(w, record.value, a.updateAt) else w.log)
  }

  lemma PollWithoutEntryKeepsInv(lag: nat, t: Timeouts, w: World, a: Action)
    requires Inv(w) && a.Poll? && Admissible(Within(lag), w, a) && w.kernel.None?
    ensures Inv(BeforeSweep(t, w, a))
    ensures var b := BeforeSweep(t, w, a);
            b.known.Some? && b.kernel.Some? ==> b.kernel.value.firstSeenNs != b.known.value.counters.firstSeenNs
  {
    if |a.late| > 0 {
      LateArrivalsFromNone(a.lookupAt, a.late);
    }
  }

  /** What is known after observing more counters of the same lifetime. */
  lemma ObservingMore(k: Known, r: Counters, now: nat)
    requires r.firstSeenNs == k.counters.firstSeenNs && r.packets >= k.counters.packets && r.bytes >= k.counters.bytes
    ensures var o := Observed(Trace(Some(k), [], []), r, now);
            && o.known.Some? && o.known.value.counters == r
            && o.known.value.lastActivity ==
               if r.packets == k.counters.packets && r.bytes == k.counters.bytes then k.lastActivity else now
  {
  }

  /** The runtime stays behind, or level with, what the reader leaves in the map. */
  lemma ReadingKeepsAhead(t: Timeouts, c: Counters, k: Known, a: Action)
    requires a.Poll? && !a.deleteFails && a.lookupAt <= a.updateAt && InOrder(a.lookupAt, a.late)
    requires c.firstSeenNs == k.counters.firstSeenNs && c.firstSeenNs <= c.lastSeenNs < a.lookupAt && Ahead(c, k)
    ensures var (record, kernel) := Read(t, Some(c), a.readAt, a.late, false);
            && record.Some? && record.value.firstSeenNs == c.firstSeenNs
            && record.value.packets >= c.packets && record.value.bytes >= c.bytes
            && var after := Observed(Trace(Some(k), [], []), record.value, a.updateAt).known;
               && after.Some? && after.value.counters == record.value
               && c.lastSeenNs < after.value.lastActivity
               && (after.value.lastActivity == a.updateAt || after.value.lastActivity == k.lastActivity)
               && (kernel.Some? ==>
                     && Ahead(kernel.value, after.value) && kernel.value.packets >= c.packets
                     && kernel.value.firstSeenNs == c.firstSeenNs
                     && kernel.value.lastSeenNs == Max(c.lastSeenNs, LastAt(a.late)))
  {
    LateArrivals(c, a.late);
    ObservingMore(k, Read(t, Some(c), a.readAt, a.late, false).0.value, a.updateAt);
  }

  /** A poll that finds the entry of the lifetime already known. */
  lemma PollOfKnownEntryKeepsInv(lag: nat, t: Timeouts, w: World, a: Action)
    requires Inv(w) && a.Poll? && Admissible(Within(lag), w, a) && w.kernel.Some? && w.known.Some?
    requires w.kernel.value.firstSeenNs == w.known.value.counters.firstSeenNs
    ensures Inv(BeforeSweep(t, w, a))
    ensures BeforeSweep(t, w, a).known.Some?
    ensures var k := BeforeSweep(t, w, a).known.value;
            && k.counters.firstSeenNs == w.kernel.value.firstSeenNs && k.lastActivity > w.kernel.value.lastSeenNs
            && (k.lastActivity == a.updateAt || k.lastActivity <= w.updated)
  {
    ReadingKeepsAhead(t, w.kernel.value, w.known.value, a);
    ContinuingKeepsTheLog(w, Read(t, w.kernel, a.readAt, a.late, false).0.value, a.updateAt);
  }

  /** A new lifetime is level with what the reader leaves in the map. */
  lemma ReadingStartsLevel(t: Timeouts, c: Counters, a: Action)
    requires a.Poll? && a.lookupAt <= a.updateAt && InOrder(a.lookupAt, a.late)
    requires c.packets >= 1 && c.firstSeenNs <= c.lastSeenNs < a.lookupAt
    ensures var (record, kernel) := Read(t, Some(c), a.readAt, a.late, false);
            && record.Some? && record.value.firstSeenNs == c.firstSeenNs && record.value.packets >= 1
            && (kernel.Some? ==>
                  && Ahead(kernel.value, Known(record.value, a.updateAt, Active)) && kernel.value.packets >= 1
                  && kernel.value.firstSeenNs == c.firstSeenNs
                  && kernel.value.lastSeenNs == Max(c.lastSeenNs, LastAt(a.late)))
  {
    LateArrivals(c, a.late);
  }

  /** A poll that finds the entry of a lifetime not seen before. */
  lemma PollOfNewEntryKeepsInv(lag: nat, t: Timeouts, w: World, a: Action)
    requires Inv(w) && a.Poll? && Admissible(Within(lag), w, a) && w.kernel.Some?
    requires !(w.known.Some? && w.kernel.value.firstSeenNs == w.known.value.counters.firstSeenNs)
    ensures Inv(BeforeSweep(t, w, a))
    ensures BeforeSweep(t, w, a).known.Some?
    ensures var k := BeforeSweep(t, w, a).known.value;
            k.counters.firstSeenNs == w.kernel.value.firstSeenNs && k.lastActivity == a.updateAt
  {
    ReadingStartsLevel(t, w.kernel.value, a);
    StartingKeepsTheLog(w, Read(t, w.kernel, a.readAt, a.late, false).0.value, a.updateAt, BeforeSweep(t, w, a).clock);
  }

  lemma StepIsSweepAfterObserving(t: Timeouts, w: World, a: Action)
    requires a.Poll?
    ensures var b := BeforeSweep(t, w, a);
            var swept := Swept(Trace(b.known, [], []), t.runtime, a.updateAt);
            Step(t, w, a) == b.(known := swept.known, log := b.log + EndsIn(swept.events))
  {
    var (record, kernel) := Read(t, w.kernel, a.readAt, a.late, a.deleteFails);
    var (observed, swept) := Update(t, w.known, record, a.updateAt);
    assert w.log + Logged(record, observed, swept) == BeforeSweep(t, w, a).log + EndsIn(swept.events);
  }

  /**
   Whenever the runtime's timer has run out, the reader has found the entry idle: its timeout and the lag fit into
   the runtime's timeout, or it deletes every entry it has seen before.
   */
  predicate ReaderIsFirst(lag: nat, t: Timeouts) {
    t.reader + lag <= t.runtime || (t.reader == 0 && t.runtime > 0)
  }

  lemma TimedOutMeansIdle(lag: nat, t: Timeouts, w: World, a: Action)
    requires ReaderIsFirst(lag, t) && a.Poll? && Admissible(Within(lag), w, a) && w.kernel.Some?
    requires var b := BeforeSweep(t, w, a);
             && b.known.Some? && b.known.value.lastActivity > w.kernel.value.lastSeenNs
             && (b.known.value.lastActivity == a.updateAt || b.known.value.lastActivity <= w.updated)
             && Swept(Trace(b.known, [], []), t.runtime, a.updateAt).known.None?
    ensures BeforeSweep(t, w, a).kernel.None?
  {
  }

  /** The map reader has removed an entry by the poll that ends its lifetime, provided it is first to find it idle. */
  lemma PollKeepsInv(lag: nat, t: Timeouts, w: World, a: Action)
    requires ReaderIsFirst(lag, t)
    requires Inv(w) && a.Poll? && Admissible(Within(lag), w, a)
    ensures Inv(Step(t, w, a))
    ensures w.kernel.Some? && Step(t, w, a).known.None? ==> Step(t, w, a).kernel.None?
  {
    StepIsSweepAfterObserving(t, w, a);
    var b := BeforeSweep(t, w, a);
    if w.kernel.None? {
      PollWithoutEntryKeepsInv(lag, t, w, a);
    } else {
      if w.known.Some? && w.kernel.value.firstSeenNs == w.known.value.counters.firstSeenNs {
        PollOfKnownEntryKeepsInv(lag, t, w, a);
      } else {
        PollOfNewEntryKeepsInv(lag, t, w, a);
      }
      if Swept(Trace(b.known, [], []), t.runtime, a.updateAt).known.None? {
        TimedOutMeansIdle(lag, t, w, a);
      }
    }
    SweepKeepsInv(t, b, a.updateAt);
  }

  lemma {:induction false} RunKeepsInv(lag: nat, t: Timeouts, actions: seq<Action>)
    requires ReaderIsFirst(lag, t) && AdmissibleRun(Within(lag), t, actions)
    ensures Inv(Run(t, actions))
  {
    if |actions| != 0 {
      var before, a := Run(t, actions[..|actions| - 1]), actions[|actions| - 1];
      RunKeepsInv(lag, t, actions[..|actions| - 1]);
      match a
      case Packet(_) => PacketKeepsInv(lag, t, before, a);
      case Evict =>
      case Poll(_, _, _, _, _) => PollKeepsInv(lag, t, before, a);
    }
  }

  // Where the hypotheses are needed

  lemma {:induction false} RunAppended(h: Hypotheses, t: Timeouts, actions: seq<Action>, a: Action)
    ensures Run(t, actions + [a]) == Step(t, Run(t, actions), a)
    ensures AdmissibleRun(h, t, actions + [a]) <==> AdmissibleRun(h, t, actions) && Admissible(h, Run(t, actions), a)
  {
    assert (actions + [a])[..|actions|] == actions;
  }

  /** A poll of the given times, without late packets. */
  function PollAt(readAt: nat, updateAt: nat, deleteFails: bool): Action {
    Poll(readAt, updateAt, updateAt, [], deleteFails)
  }

  lemma PollIsAdmissible(h: Hypotheses, w: World, readAt: nat, updateAt: nat, deleteFails: bool)
    requires w.updated <= readAt <= updateAt <= readAt + h.lag && w.clock <= updateAt && updateAt > 0
    requires (h.deletesSucceed ==> !deleteFails) && (h.seenBefore && w.kernel.Some? ==> w.kernel.value.lastSeenNs < updateAt)
    ensures Admissible(h, w, PollAt(readAt, updateAt, deleteFails))
  {
  }

  /** The reader leaves the entry `c` in the map. */
  predicate Survives(t: Timeouts, c: Counters, readAt: nat, deleteFails: bool) {
    !FlowIsIdle(c, readAt, t.reader) || deleteFails
  }

  lemma PollFirstSeesTheEntry(t: Timeouts, c: Counters, readAt: nat, updateAt: nat, deleteFails: bool)
    requires c.packets >= 1 && c.firstSeenNs > 0 && c.lastSeenNs <= updateAt && Survives(t, c, readAt, deleteFails)
    ensures var w := Step(t, World(Some(c), None, c.lastSeenNs, 0, []), PollAt(readAt, updateAt, deleteFails));
            && w.kernel == Some(c) && w.clock == w.updated == updateAt
            && if t.runtime == 0 then w.known.None? && HasEnded(w.log, c.firstSeenNs)
               else w.known == Some(Known(c, updateAt, Active))
  {
    var w0, a := World(Some(c), None, c.lastSeenNs, 0, []), PollAt(readAt, updateAt, deleteFails);
    StepIsSweepAfterObserving(t, w0, a);
    assert CountedAll(Some(c), []) == Some(c);
    if t.runtime == 0 {
      assert Step(t, w0, a).log[|Step(t, w0, a).log| - 1] == Ended(c.firstSeenNs);
    }
  }

  lemma PollEndsTheEntry(t: Timeouts, w: World, c: Counters, first: nat, a: Action)
    requires a.Poll? && w.kernel == Some(c) && w.known == Some(Known(c, first, Active)) && w.clock <= first <= a.updateAt
    requires a == PollAt(a.readAt, a.updateAt, a.deleteFails) && Survives(t, c, a.readAt, a.deleteFails)
    requires a.updateAt - first >= t.runtime
    ensures var after := Step(t, w, a);
            && after.kernel == Some(c) && after.known.None? && HasEnded(after.log, c.firstSeenNs)
            && after.clock == after.updated == a.updateAt
  {
    StepIsSweepAfterObserving(t, w, a);
    assert CountedAll(Some(c), []) == Some(c);
    assert Step(t, w, a).log[|Step(t, w, a).log| - 1] == Ended(c.firstSeenNs);
  }

  /** A poll that finds the entry of a lifetime already ended emits it again. */
  lemma EndedEntryIsEmittedAgain(t: Timeouts, w: World, c: Counters, at: nat)
    requires w.known.None? && w.kernel == Some(c) && c.packets >= 1 && HasEnded(w.log, c.firstSeenNs)
    ensures !NothingAfterEnd(Step(t, w, PollAt(at, at, false)).log)
  {
    var a := PollAt(at, at, false);
    StepIsSweepAfterObserving(t, w, a);
    assert CountedAll(Some(c), []) == Some(c);
    var log := Step(t, w, a).log;
    assert log[|w.log| + 1] == Emitted(c.firstSeenNs, c.packets, c.bytes);
    var i :| 0 <= i < |w.log| && w.log[i] == Ended(c.firstSeenNs);
    assert log[..|w.log| + 1][i] == Ended(c.firstSeenNs);
  }

  lemma {:induction false} OneMorePoll(h: Hypotheses, t: Timeouts, actions: seq<Action>, c: Counters, at: nat)
    requires var w := Run(t, actions);
             && w.known.None? && w.kernel == Some(c) && c.packets >= 1 && HasEnded(w.log, c.firstSeenNs)
             && w.clock <= at && w.updated <= at
    requires AdmissibleRun(h, t, actions) && c.lastSeenNs < at
    ensures var longer := actions + [PollAt(at, at, false)];
            AdmissibleRun(h, t, longer) && !NothingAfterEnd(Run(t, longer).log)
  {
    EndedEntryIsEmittedAgain(t, Run(t, actions), c, at);
    RunAppended(h, t, actions, PollAt(at, at, false));
  }

  /**
   The times of a packet and of two polls that find its entry. The first poll observes it; at the second the
   runtime's timer has run out. With a runtime timeout of zero the first poll ends it already.
   */
  datatype Schedule = Schedule(seenAt: nat, read1: nat, update1: nat, read2: nat, update2: nat, deleteFails: bool)

  /** The polls meet the hypotheses, the entry survives them, and the runtime ends its lifetime nevertheless. */
  predicate EndsTooEarly(h: Hypotheses, t: Timeouts, s: Schedule) {
    var c := Counters(1, 1, s.seenAt, s.seenAt);
    && 0 < s.seenAt <= s.update1 && s.read1 <= s.update1 <= s.read1 + h.lag && Survives(t, c, s.read1, s.deleteFails)
    && (h.seenBefore ==> s.seenAt < s.update1) && (h.deletesSucceed ==> !s.deleteFails)
    && (t.runtime > 0 ==>
          && s.update1 <= s.read2 <= s.update2 <= s.read2 + h.lag && Survives(t, c, s.read2, s.deleteFails)
          && s.update2 - s.update1 >= t.runtime)
  }

  lemma AfterOnePacket(h: Hypotheses, t: Timeouts, at: nat) returns (actions: seq<Action>)
    requires at > 0
    ensures AdmissibleRun(h, t, actions) && Run(t, actions) == World(Some(Counters(1, 1, at, at)), None, at, 0, [])
  {
    RunAppended(h, t, [], Packet(Arrival(at, 1)));
    actions := [] + [Packet(Arrival(at, 1))];
  }

  lemma AfterFirstPoll(h: Hypotheses, t: Timeouts, s: Schedule) returns (actions: seq<Action>)
    requires EndsTooEarly(h, t, s)
    ensures var w, c := Run(t, actions), Counters(1, 1, s.seenAt, s.seenAt);
            && w.kernel == Some(c) && w.clock == w.updated == s.update1 && AdmissibleRun(h, t, actions)
            && (if t.runtime == 0 then w.known.None? && HasEnded(w.log, s.seenAt)
                else w.known == Some(Known(c, s.update1, Active)))
  {
    actions := AfterOnePacket(h, t, s.seenAt);
    var w, a := Run(t, actions), PollAt(s.read1, s.update1, s.deleteFails);
    PollIsAdmissible(h, w, s.read1, s.update1, s.deleteFails);
    PollFirstSeesTheEntry(t, Counters(1, 1, s.seenAt, s.seenAt), s.read1, s.update1, s.deleteFails);
    RunAppended(h, t, actions, a);
    actions := actions + [a];
  }

  lemma {:induction false} SecondPollEndsTheEntry(h: Hypotheses, t: Timeouts, s: Schedule, actions: seq<Action>)
    requires EndsTooEarly(h, t, s) && t.runtime > 0 && AdmissibleRun(h, t, actions)
    requires var w, c := Run(t, actions), Counters(1, 1, s.seenAt, s.seenAt);
             && w.kernel == Some(c) && w.clock == w.updated == s.update1
             && w.known == Some(Known(c, s.update1, Active))
    ensures var more := actions + [PollAt(s.read2, s.update2, s.deleteFails)];
            var w := Run(t, more);
            && w.kernel == Some(Counters(1, 1, s.seenAt, s.seenAt)) && w.clock == w.updated == s.update2
            && w.known.None? && HasEnded(w.log, s.seenAt) && AdmissibleRun(h, t, more)
  {
    var w, a := Run(t, actions), PollAt(s.read2, s.update2, s.deleteFails);
    PollIsAdmissible(h, w, s.read2, s.update2, s.deleteFails);
    PollEndsTheEntry(t, w, Counters(1, 1, s.seenAt, s.seenAt), s.update1, a);
    RunAppended(h, t, actions, a);
  }

  lemma AfterSecondPoll(h: Hypotheses, t: Timeouts, s: Schedule) returns (actions: seq<Action>)
    requires EndsTooEarly(h, t, s)
    ensures var w := Run(t, actions);
            && w.kernel == Some(Counters(1, 1, s.seenAt, s.seenAt)) && w.clock == w.updated >= s.seenAt
            && w.known.None? && HasEnded(w.log, s.seenAt) && AdmissibleRun(h, t, actions)
  {
    actions := AfterFirstPoll(h, t, s);
    if t.runtime > 0 {
      SecondPollEndsTheEntry(h, t, s, actions);
      actions := actions + [PollAt(s.read2, s.update2, s.deleteFails)];
    }
  }

  ghost predicate AlwaysConserved(h: Hypotheses, t: Timeouts) {
    forall actions | AdmissibleRun(h, t, actions) :: Conserved(Run(t, actions).log)
  }

  /** A lifetime that ends while its entry survives is counted again by the next poll. */
  lemma CountedTwice(h: Hypotheses, t: Timeouts, s: Schedule)
    requires EndsTooEarly(h, t, s)
    ensures !AlwaysConserved(h, t)
  {
    var actions := AfterSecondPoll(h, t, s);
    OneMorePoll(h, t, actions, Counters(1, 1, s.seenAt, s.seenAt), Run(t, actions).clock + 1);
  }

  /**
   Conservation, exactly: with the runtime updated at most `lag` after the reader's clock reading, every run of a
   key conserves its counts if and only if the reader is first to find an entry idle.
   */
  lemma ConservationExactly(lag: nat, t: Timeouts)
    ensures AlwaysConserved(Within(lag), t) <==> ReaderIsFirst(lag, t)
  {
    if ReaderIsFirst(lag, t) {
      forall actions | AdmissibleRun(Within(lag), t, actions)
        ensures Conserved(Run(t, actions).log)
      {
        RunKeepsInv(lag, t, actions);
      }
    } else if t.reader > 0 {
      CountedTwice(Within(lag), t, Schedule(1, 2, 2, 1 + t.reader, 1 + t.reader + lag, false));
    } else {
      CountedTwice(Within(lag), t, Schedule(1, 1, 2, 2, 2, false));
    }
  }

  /**
   For TCP and UDP the two timeouts are the same, so counts are conserved exactly when the two clock readings of a
   poll never differ. For any other protocol the UDP timeout and the lag have to fit into the TCP timeout, unless
   the UDP timeout alone is zero.
   */
  lemma ConservationByProtocol(lag: nat, protocol: Byte, tcpSeconds: nat, udpSeconds: nat)
    ensures AlwaysConserved(Within(lag), TimeoutsOf(protocol, tcpSeconds, udpSeconds)) <==>
            if protocol == TCP || protocol == UDP then lag == 0
            else SECOND * udpSeconds + lag <= SECOND * tcpSeconds || (udpSeconds == 0 && tcpSeconds > 0)
  {
    ConservationExactly(lag, TimeoutsOf(protocol, tcpSeconds, udpSeconds));
  }

  /** None of the hypotheses on polls can be dropped, even for equal timeouts. */
  lemma HypothesesAreNeeded(timeout: nat)
    requires timeout > 0
    ensures forall lag: nat | lag > 0 :: !AlwaysConserved(Within(lag), Timeouts(timeout, timeout))
    ensures !AlwaysConserved(Within(0).(seenBefore := false), Timeouts(timeout, timeout))
    ensures !AlwaysConserved(Within(0).(deletesSucceed := false), Timeouts(timeout, timeout))
  {
    var t := Timeouts(timeout, timeout);
    forall lag: nat | lag > 0
      ensures !AlwaysConserved(Within(lag), t)
    {
      ConservationExactly(lag, t);
    }
    CountedTwice(Within(0).(seenBefore := false), t, Schedule(2, 2, 2, 2 + timeout, 2 + timeout, false));
    CountedTwice(Within(0).(deletesSucceed := false), t, Schedule(1, 2, 2, 2 + timeout, 2 + timeout, true));
  }
}
