/**
 * The byte-bounded, drop-oldest queue in front of the telemetry sender
 * (crates/agent/src/transport.rs).
 */
module TelemetryBuffer {
  import opened Base

  /** A batch with its encoded size and the number of its flows. */
  datatype Batch = Batch(id: nat, size: nat, flows: nat)

  /** The capacity in bytes, and the largest value of a machine word. */
  datatype Limits = Limits(capacity: nat, word: nat)
  {
    predicate Valid() {
      capacity <= word
    }

    /** `saturating_add` on words. */
    function Add(a: nat, b: nat): nat {
      if a + b > word then word else a + b
    }
  }

  function Subtract(a: nat, b: nat): nat {
    if a <= b then 0 else a - b
  }

  datatype Stats = Stats(depth: nat, highDepth: nat, bytes: nat, highBytes: nat,
                         droppedBatches: nat, droppedFlows: nat, droppedBytes: nat)

  function UpdateQueue(s: Stats, depth: nat, bytes: nat): Stats {
    s.(depth := depth, bytes := bytes,
    highDepth := if depth > s.highDepth then depth else s.highDepth,
    highBytes := if bytes > s.highBytes then bytes else s.highBytes)
  }

  function RecordDropped(s: Stats, b: Batch): Stats {
    s.(droppedBatches := s.droppedBatches + 1,
    droppedFlows := s.droppedFlows + b.flows,
    droppedBytes := s.droppedBytes + b.size)
  }

  datatype State = State(batches: seq<Batch>, bytes: nat, closed: bool, stats: Stats)

  const EMPTY := State([], 0, false, Stats(0, 0, 0, 0, 0, 0, 0))

  predicate Refuses(l: Limits, s: State, b: Batch) {
    s.closed || b.size > l.capacity
  }

  /** Drops the oldest batches until `size` more bytes fit. */
  function MadeRoom(l: Limits, s: State, size: nat): (r: State)
    ensures |r.batches| <= |s.batches|
    decreases |s.batches|
  {
    if l.Add(s.bytes, size) > l.capacity && |s.batches| > 0
    then MadeRoom(l, WithoutOldest(s), size)
    else s
  }

  function WithoutOldest(s: State): State
    requires |s.batches| > 0
  {
    State(s.batches[1..], Subtract(s.bytes, s.batches[0].size), s.closed, RecordDropped(s.stats, s.batches[0]))
  }

  function AfterPush(l: Limits, s: State, b: Batch): State {
    if Refuses(l, s, b) then s.(stats := RecordDropped(s.stats, b))
    else
      var r := MadeRoom(l, s, b.size);
      var bytes := l.Add(r.bytes, b.size);
      State(r.batches + [b], bytes, r.closed, UpdateQueue(r.stats, |r.batches| + 1, bytes))
  }

  function AfterPop(s: State): State {
    if |s.batches| == 0 then s
    else
      var bytes := Subtract(s.bytes, s.batches[0].size);
      State(s.batches[1..], bytes, s.closed, UpdateQueue(s.stats, |s.batches| - 1, bytes))
  }

  class Buffer {
    const limits: Limits
    var batches: seq<Batch>
    var bytes: nat
    var closed: bool
    var stats: Stats

    function Current(): State
      reads this
    {
      State(batches, bytes, closed, stats)
    }

    constructor (limits: Limits)
      ensures this.limits == limits && Current() == EMPTY
    {
      this.limits := limits;
      batches, bytes, closed := [], 0, false;
      stats := Stats(0, 0, 0, 0, 0, 0, 0);
    }

    method Push(b: Batch)
      modifies this
      ensures Current() == AfterPush(limits, old(Current()), b)
    {
      if closed || b.size > limits.capacity {
        stats := RecordDropped(stats, b);
        return;
      }
      while limits.Add(bytes, b.size) > limits.capacity && |batches| > 0
        invariant MadeRoom(limits, Current(), b.size) == MadeRoom(limits, old(Current()), b.size)
        decreases |batches|
      {
        var oldest := batches[0];
        batches := batches[1..];
        bytes := Subtract(bytes, oldest.size);
        stats := RecordDropped(stats, oldest);
      }
      bytes := limits.Add(bytes, b.size);
      batches := batches + [b];
      stats := UpdateQueue(stats, |batches|, bytes);
    }

    method Pop() returns (popped: Option<Batch>)
      modifies this
      ensures Current() == AfterPop(old(Current()))
      ensures popped == if |old(batches)| == 0 then None else Some(old(batches)[0])
    {
      if |batches| == 0 {
        return None;
      }
      popped := Some(batches[0]);
      bytes := Subtract(bytes, batches[0].size);
      batches := batches[1..];
      stats := UpdateQueue(stats, |batches|, bytes);
    }

    method Close()
      modifies this
      ensures Current() == old(Current()).(closed := true)
    {
      closed := true;
    }
  }

  function Bytes(s: seq<Batch>): nat {
    if |s| == 0 then 0 else s[0].size + Bytes(s[1..])
  }

  function Flows(s: seq<Batch>): nat {
    if |s| == 0 then 0 else s[0].flows + Flows(s[1..])
  }

  lemma {:induction false} TotalsOfConcat(s: seq<Batch>, t: seq<Batch>)
    ensures Bytes(s + t) == Bytes(s) + Bytes(t) && Flows(s + t) == Flows(s) + Flows(t)
  {
    if |s| == 0 {
      assert s + t == t;
    } else {
      assert (s + t)[1..] == s[1..] + t;
      TotalsOfConcat(s[1..], t);
    }
  }

  /** `k` is the number of oldest batches to drop for `size` more bytes to fit, and no fewer would do. */
  ghost predicate JustEnough(q: seq<Batch>, k: nat, size: nat, capacity: nat) {
    && k <= |q|
    && Bytes(q[k..]) + size <= capacity
    && (forall j :: 0 <= j < k ==> Bytes(q[j..]) + size > capacity)
  }

  lemma {:induction false} OneMoreIsNeeded(q: seq<Batch>, k: nat, size: nat, capacity: nat)
    requires |q| > 0 && Bytes(q) + size > capacity && JustEnough(q[1..], k, size, capacity)
    ensures JustEnough(q, k + 1, size, capacity)
  {
    assert q[1..][k..] == q[k + 1..];
    forall j | 0 <= j < k + 1
      ensures Bytes(q[j..]) + size > capacity
    {
      if j == 0 {
        assert q[0..] == q;
      } else {
        assert q[1..][j - 1..] == q[j..];
      }
    }
  }

  /** The stored bytes are those queued, and they fit. */
  predicate Sized(l: Limits, s: State) {
    s.bytes == Bytes(s.batches) && s.bytes <= l.capacity
  }

  lemma OldestAndMore(q: seq<Batch>, k: nat)
    requires k < |q|
    ensures q[1..][k..] == q[k + 1..]
    ensures Bytes(q[..k + 1]) == q[0].size + Bytes(q[1..][..k])
    ensures Flows(q[..k + 1]) == q[0].flows + Flows(q[1..][..k])
  {
    assert q[..k + 1][1..] == q[1..][..k];
  }

  /** `r` is `s` without its `k` oldest batches, all of them counted as dropped. */
  predicate Dropped(s: State, r: State, k: nat) {
    && k <= |s.batches| && r.batches == s.batches[k..] && r.closed == s.closed
    && r.stats == s.stats.(droppedBatches := s.stats.droppedBatches + k,
                  droppedFlows := s.stats.droppedFlows + Flows(s.batches[..k]),
                  droppedBytes := s.stats.droppedBytes + Bytes(s.batches[..k]))
  }

  lemma OneMoreDropped(s: State, r: State, k: nat)
    requires |s.batches| > 0 && Dropped(WithoutOldest(s), r, k)
    ensures Dropped(s, r, k + 1)
  {
    OldestAndMore(s.batches, k);
  }

  lemma RoomIsJustEnough(l: Limits, s: State, size: nat) returns (k: nat)
    requires Sized(l, s) && size <= l.capacity < l.word
    ensures JustEnough(s.batches, k, size, l.capacity)
    ensures var r := MadeRoom(l, s, size); Sized(l, r) && Dropped(s, r, k)
    decreases |s.batches|
  {
    var q := s.batches;
    if l.Add(s.bytes, size) > l.capacity && |q| > 0 {
      var k' := RoomIsJustEnough(l, WithoutOldest(s), size);
      k := k' + 1;
      OneMoreDropped(s, MadeRoom(l, s, size), k');
      OneMoreIsNeeded(q, k', size, l.capacity);
    } else {
      k := 0;
      assert q[0..] == q && q[..0] == [];
    }
  }

  /** The elements of `s` that are marked as `mark`. */
  function Pick(s: seq<Batch>, marks: seq<bool>, mark: bool): seq<Batch>
    requires |s| == |marks|
  {
    if |s| == 0 then []
    else (if marks[0] == mark then [s[0]] else []) + Pick(s[1..], marks[1..], mark)
  }

  lemma {:induction false} PickUnfolded(s: seq<Batch>, m: seq<bool>, mark: bool)
    requires |s| == |m| > 0
    ensures m[0] == mark ==> Pick(s, m, mark) == [s[0]] + Pick(s[1..], m[1..], mark)
    ensures m[0] != mark ==> Pick(s, m, mark) == Pick(s[1..], m[1..], mark)
  {
  }

  lemma ConcatAssociates(a: seq<Batch>, b: seq<Batch>, c: seq<Batch>)
    ensures a + (b + c) == a + b + c
  {
  }

  lemma {:induction false} PickOfConcat(s: seq<Batch>, m: seq<bool>, t: seq<Batch>, n: seq<bool>, mark: bool)
    requires |s| == |m| && |t| == |n|
    ensures Pick(s + t, m + n, mark) == Pick(s, m, mark) + Pick(t, n, mark)
  {
    if |s| == 0 {
      assert s + t == t && m + n == n;
    } else {
      assert (s + t)[1..] == s[1..] + t && (m + n)[1..] == m[1..] + n;
      PickOfConcat(s[1..], m[1..], t, n, mark);
      PickUnfolded(s, m, mark);
      PickUnfolded(s + t, m + n, mark);
      ConcatAssociates([s[0]], Pick(s[1..], m[1..], mark), Pick(t, n, mark));
    }
  }

  lemma PickAll(s: seq<Batch>, m: seq<bool>, mark: bool)
    requires |s| == |m| && forall i :: 0 <= i < |m| ==> m[i] == mark
    ensures Pick(s, m, mark) == s && Pick(s, m, !mark) == []
  {
    if |s| > 0 {
      PickAll(s[1..], m[1..], mark);
    }
  }

  /** The two halves of a marked sequence make up its length and its totals. */
  lemma {:induction false} HalvesAddUp(s: seq<Batch>, m: seq<bool>)
    requires |s| == |m|
    ensures |s| == |Pick(s, m, true)| + |Pick(s, m, false)|
    ensures Bytes(s) == Bytes(Pick(s, m, true)) + Bytes(Pick(s, m, false))
    ensures Flows(s) == Flows(Pick(s, m, true)) + Flows(Pick(s, m, false))
  {
    if |s| > 0 {
      HalvesAddUp(s[1..], m[1..]);
      PickUnfolded(s, m, true);
      PickUnfolded(s, m, false);
      TotalsOfConcat([s[0]], Pick(s[1..], m[1..], m[0]));
    }
  }

  /** `s` is `t` with some elements left out. */
  ghost predicate Subsequence(s: seq<Batch>, t: seq<Batch>) {
    exists m: seq<bool> :: |m| == |t| && Pick(t, m, true) == s
  }

  lemma PickTwice(s: seq<Batch>, m: seq<bool>, n: seq<bool>) returns (r: seq<bool>)
    requires |s| == |m| && |n| == |Pick(s, m, true)|
    ensures |r| == |s| && Pick(s, r, true) == Pick(Pick(s, m, true), n, true)
  {
    if |s| == 0 {
      r := [];
    } else {
      PickUnfolded(s, m, true);
      var r' := PickTwice(s[1..], m[1..], if m[0] then n[1..] else n);
      r := [m[0] && n[0]] + r';
      assert r[1..] == r';
      PickUnfolded(s, r, true);
      if m[0] {
        assert Pick(s, m, true)[1..] == Pick(s[1..], m[1..], true);
        PickUnfolded(Pick(s, m, true), n, true);
      }
    }
  }

  datatype Action = Push(batch: Batch) | Pop | Close

  /**
   * A run with its journal: what was submitted and whether it was admitted,
   * what has left the queue and whether it was popped, and what pops returned.
   */
  datatype World = World(state: State, submitted: seq<Batch>, admitted: seq<bool>,
                         gone: seq<Batch>, taken: seq<bool>, popped: seq<Batch>)

  function Step(l: Limits, w: World, a: Action): World {
    var s := w.state;
    match a
    case Push(b) =>
      var s' := AfterPush(l, s, b);
      if Refuses(l, s, b) then
        World(s', w.submitted + [b], w.admitted + [false], w.gone, w.taken, w.popped)
      else
        var k := |s.batches| + 1 - |s'.batches|;
        World(s', w.submitted + [b], w.admitted + [true], w.gone + s.batches[..k], w.taken + Falses(k), w.popped)
    case Pop =>
      if |s.batches| == 0 then w.(state := AfterPop(s))
      else w.(state := AfterPop(s), gone := w.gone + [s.batches[0]], taken := w.taken + [true],
        popped := w.popped + [s.batches[0]])
    case Close => w.(state := s.(closed := true))
  }

  function Falses(k: nat): (f: seq<bool>)
    ensures |f| == k && forall i :: 0 <= i < k ==> !f[i]
  {
    if k == 0 then [] else Falses(k - 1) + [false]
  }

  function Run(l: Limits, actions: seq<Action>): World {
    if |actions| == 0 then World(EMPTY, [], [], [], [], [])
    else Step(l, Run(l, actions[..|actions| - 1]), actions[|actions| - 1])
  }

  /** The journal is well formed, and accounts for the queue, in order, and for the pops. */
  predicate Journaled(w: World) {
    && |w.submitted| == |w.admitted| && |w.gone| == |w.taken|
    && Pick(w.submitted, w.admitted, true) == w.gone + w.state.batches
    && Pick(w.gone, w.taken, true) == w.popped
  }

  /** The drop counters are the totals of what was refused or driven out. */
  predicate Counted(w: World)
    requires |w.submitted| == |w.admitted| && |w.gone| == |w.taken|
  {
    var refused, evicted := Pick(w.submitted, w.admitted, false), Pick(w.gone, w.taken, false);
    && w.state.stats.droppedBatches == |refused| + |evicted|
    && w.state.stats.droppedFlows == Flows(refused) + Flows(evicted)
    && w.state.stats.droppedBytes == Bytes(refused) + Bytes(evicted)
  }

  predicate Inv(l: Limits, w: World) {
    Sized(l, w.state) && Journaled(w) && Counted(w)
  }

  lemma {:induction false} PickAppended(s: seq<Batch>, m: seq<bool>, b: Batch, mark: bool)
    requires |s| == |m|
    ensures Pick(s + [b], m + [mark], mark) == Pick(s, m, mark) + [b]
    ensures Pick(s + [b], m + [mark], !mark) == Pick(s, m, !mark)
  {
    PickOfConcat(s, m, [b], [mark], mark);
    PickOfConcat(s, m, [b], [mark], !mark);
  }

  lemma RefusedPushKeepsInv(l: Limits, w: World, b: Batch)
    requires Inv(l, w) && Refuses(l, w.state, b)
    ensures Inv(l, Step(l, w, Push(b)))
  {
    PickAppended(w.submitted, w.admitted, b, false);
    TotalsOfConcat(Pick(w.submitted, w.admitted, false), [b]);
  }

  /** The journal after `k` batches were driven out and one came in. */
  lemma {:induction false} AdmittedJournal(w: World, b: Batch, k: nat)
    requires Journaled(w) && k <= |w.state.batches|
    ensures var q, q' := w.state.batches, w.state.batches[k..] + [b];
            var gone, taken := w.gone + q[..k], w.taken + Falses(k);
            && Pick(w.submitted + [b], w.admitted + [true], true) == gone + q'
            && Pick(w.submitted + [b], w.admitted + [true], false) == Pick(w.submitted, w.admitted, false)
            && Pick(gone, taken, true) == w.popped
            && Pick(gone, taken, false) == Pick(w.gone, w.taken, false) + q[..k]
  {
    var q := w.state.batches;
    PickAppended(w.submitted, w.admitted, b, true);
    assert w.gone + q + [b] == w.gone + q[..k] + (q[k..] + [b]);
    PickOfConcat(w.gone, w.taken, q[..k], Falses(k), true);
    PickOfConcat(w.gone, w.taken, q[..k], Falses(k), false);
    PickAll(q[..k], Falses(k), false);
  }

  /** An admitted push leaves the longest suffix that fits, always with the new batch. */
  lemma AdmittedPush(l: Limits, s: State, b: Batch) returns (k: nat)
    requires Sized(l, s) && !Refuses(l, s, b) && l.capacity < l.word
    ensures JustEnough(s.batches, k, b.size, l.capacity)
    ensures var s' := AfterPush(l, s, b);
            && Sized(l, s') && s'.batches == s.batches[k..] + [b]
            && s'.stats.droppedBatches == s.stats.droppedBatches + k
            && s'.stats.droppedFlows == s.stats.droppedFlows + Flows(s.batches[..k])
            && s'.stats.droppedBytes == s.stats.droppedBytes + Bytes(s.batches[..k])
  {
    k := RoomIsJustEnough(l, s, b.size);
    TotalsOfConcat(s.batches[k..], [b]);
  }

  lemma AdmittedPushKeepsInv(l: Limits, w: World, b: Batch)
    requires Inv(l, w) && !Refuses(l, w.state, b) && l.capacity < l.word
    ensures Inv(l, Step(l, w, Push(b)))
  {
    var k := AdmittedPush(l, w.state, b);
    AdmittedJournal(w, b, k);
    TotalsOfConcat(Pick(w.gone, w.taken, false), w.state.batches[..k]);
  }

  lemma PopKeepsInv(l: Limits, w: World)
    requires Inv(l, w)
    ensures Inv(l, Step(l, w, Pop))
  {
    var q := w.state.batches;
    if |q| > 0 {
      PickAppended(w.gone, w.taken, q[0], true);
      assert w.gone + q == w.gone + [q[0]] + q[1..];
    }
  }

  lemma {:induction false} RunKeepsInv(l: Limits, actions: seq<Action>)
    requires l.capacity < l.word
    ensures Inv(l, Run(l, actions))
  {
    if |actions| > 0 {
      var w, a := Run(l, actions[..|actions| - 1]), actions[|actions| - 1];
      RunKeepsInv(l, actions[..|actions| - 1]);
      match a
      case Push(b) =>
        if Refuses(l, w.state, b) {
          RefusedPushKeepsInv(l, w, b);
        } else {
          AdmittedPushKeepsInv(l, w, b);
        }
      case Pop => PopKeepsInv(l, w);
      case Close =>
    }
  }

  /** Nothing is lost or invented, and nothing overtakes. */
  ghost predicate Conserved(w: World) {
    && |w.submitted| == |w.popped| + w.state.stats.droppedBatches + |w.state.batches|
    && Bytes(w.submitted) == Bytes(w.popped) + w.state.stats.droppedBytes + w.state.bytes
    && Flows(w.submitted) == Flows(w.popped) + w.state.stats.droppedFlows + Flows(w.state.batches)
    && Subsequence(w.popped + w.state.batches, w.submitted)
  }

  function Trues(k: nat): (f: seq<bool>)
    ensures |f| == k && forall i :: 0 <= i < k ==> f[i]
  {
    if k == 0 then [] else Trues(k - 1) + [true]
  }

  lemma JournaledInOrder(w: World)
    requires Journaled(w)
    ensures Subsequence(w.popped + w.state.batches, w.submitted)
  {
    var q := w.state.batches;
    PickOfConcat(w.gone, w.taken, q, Trues(|q|), true);
    PickAll(q, Trues(|q|), true);
    var r := PickTwice(w.submitted, w.admitted, w.taken + Trues(|q|));
  }

  lemma InvConserves(l: Limits, w: World)
    requires Inv(l, w)
    ensures Conserved(w)
  {
    JournaledInOrder(w);
    HalvesAddUp(w.submitted, w.admitted);
    HalvesAddUp(w.gone, w.taken);
    TotalsOfConcat(w.gone, w.state.batches);
  }

  /** A run after which the stored bytes or the accounts are wrong: a capacity that fills the word hides an overflow. */
  lemma FullWordOverflows(l: Limits) returns (actions: seq<Action>)
    requires l.capacity == l.word > 0
    ensures !Sized(l, Run(l, actions).state)
  {
    var first, second := Push(Batch(0, l.word, 0)), Push(Batch(1, 1, 0));
    var one := [first];
    assert one[..0] == [];
    assert Run(l, []) == World(EMPTY, [], [], [], [], []);
    assert Run(l, one) == Step(l, Run(l, []), first);
    assert Run(l, one).state.batches == [first.batch] && Run(l, one).state.bytes == l.word;
    actions := [first, second];
    assert actions[..1] == one;
    assert Run(l, actions).state.batches == [first.batch, second.batch];
    assert Bytes([first.batch, second.batch]) == l.word + 1 by {
      TotalsOfConcat([first.batch], [second.batch]);
    }
  }

  ghost predicate AlwaysSized(l: Limits) {
    forall actions :: Sized(l, Run(l, actions).state)
  }

  /** Over every run the stored bytes are those queued and within capacity, exactly when the capacity is below the word. */
  lemma SizedExactly(l: Limits)
    requires l.Valid() && l.word > 0
    ensures AlwaysSized(l) <==> l.capacity < l.word
  {
    if l.capacity < l.word {
      forall actions
        ensures Sized(l, Run(l, actions).state)
      {
        RunKeepsInv(l, actions);
      }
    } else {
      var actions := FullWordOverflows(l);
    }
  }

  /** Conservation over every run. */
  lemma {:induction false} RunsConserve(l: Limits, actions: seq<Action>)
    requires l.capacity < l.word
    ensures Conserved(Run(l, actions))
  {
    RunKeepsInv(l, actions);
    InvConserves(l, Run(l, actions));
  }

  /** The states of a run, from the first to the last. */
  function States(l: Limits, actions: seq<Action>): seq<State> {
    if |actions| == 0 then [EMPTY]
    else States(l, actions[..|actions| - 1]) + [Run(l, actions).state]
  }

  ghost predicate IsPeakDepth(states: seq<State>, high: nat) {
    && (forall s <- states :: |s.batches| <= high)
    && (exists s <- states :: |s.batches| == high)
  }

  ghost predicate IsPeakBytes(states: seq<State>, high: nat) {
    && (forall s <- states :: s.bytes <= high)
    && (exists s <- states :: s.bytes == high)
  }

  lemma PeaksExtend(states: seq<State>, s: State, depth: nat, bytes: nat)
    requires IsPeakDepth(states, depth) && IsPeakBytes(states, bytes)
    ensures IsPeakDepth(states + [s], Max(depth, |s.batches|)) && IsPeakBytes(states + [s], Max(bytes, s.bytes))
  {
    var d :| d in states && |d.batches| == depth;
    var b :| b in states && b.bytes == bytes;
    var more := states + [s];
    assert d in more && b in more && s in more;
  }

  lemma {:induction false} MadeRoomKeepsGauges(l: Limits, s: State, size: nat)
    ensures var r := MadeRoom(l, s, size);
            && r.stats.highDepth == s.stats.highDepth && r.stats.highBytes == s.stats.highBytes
            && r.closed == s.closed
    decreases |s.batches|
  {
    if l.Add(s.bytes, size) > l.capacity && |s.batches| > 0 {
      MadeRoomKeepsGauges(l, WithoutOldest(s), size);
    }
  }

  /** The gauges show the queue, and each step raises the watermarks exactly to it. */
  predicate Gauged(s: State) {
    && s.stats.depth == |s.batches| <= s.stats.highDepth
    && s.stats.bytes == s.bytes <= s.stats.highBytes
  }

  lemma StepRaisesWatermarks(l: Limits, w: World, a: Action)
    requires Gauged(w.state)
    ensures var s, s' := w.state, Step(l, w, a).state;
            && Gauged(s')
            && s'.stats.highDepth == Max(s.stats.highDepth, |s'.batches|)
            && s'.stats.highBytes == Max(s.stats.highBytes, s'.bytes)
  {
    if a.Push? {
      MadeRoomKeepsGauges(l, w.state, a.batch.size);
    }
  }

  /** The watermarks are the historical maxima, over every run and for every capacity. */
  lemma {:induction false} WatermarksAreMaxima(l: Limits, actions: seq<Action>)
    ensures var s, states := Run(l, actions).state, States(l, actions);
            Gauged(s) && IsPeakDepth(states, s.stats.highDepth) && IsPeakBytes(states, s.stats.highBytes)
  {
    if |actions| == 0 {
      assert EMPTY in States(l, actions);
    } else {
      var before := actions[..|actions| - 1];
      var w := Run(l, before);
      WatermarksAreMaxima(l, before);
      StepRaisesWatermarks(l, w, actions[|actions| - 1]);
      PeaksExtend(States(l, before), Run(l, actions).state, w.state.stats.highDepth, w.state.stats.highBytes);
    }
  }
}
