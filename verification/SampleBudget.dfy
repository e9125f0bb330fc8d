/**
 The payload sample budget that all CPUs and both directions of a conversation share.

 Every load, lookup, insertion, fetch-and-add and compare-and-swap of the capture body is one step of a
 transition system, so a run is any interleaving of the CPUs' steps.
 */
module SampleBudget {
  import opened Base

  const MAX_PAYLOAD: nat := 4096
  const MAX_FLOW_BYTES: nat := 65536
  const MAX_FLOW_PACKETS: nat := 32
  const U32: nat := 0x1_0000_0000

  datatype Config = Config(enabled: bool, maxBytes: nat, maxPackets: nat, maxBytesPerPacket: nat)

  /** With sampling off, or outside these limits, the capture body returns before it touches the budget. */
  predicate Enabled(c: Config) {
    && c.enabled
    && 1 <= c.maxBytes <= MAX_FLOW_BYTES
    && 1 <= c.maxPackets <= MAX_FLOW_PACKETS
  }

  /** The length a packet asks for; zero asks for nothing. */
  function Wanted(c: Config, originalLength: nat): nat {
    Min(Min(originalLength, c.maxBytesPerPacket), MAX_PAYLOAD)
  }

  datatype Budget = Budget(bytesSeen: nat, packetsSeen0: nat, packetsSeen1: nat, sampled: bool)

  /** How many samples per slot, and their bytes. */
  datatype Tally = Tally(packets0: nat, packets1: nat, bytes: nat)

  function Counted(t: Tally, cpu: Cpu): Tally {
    Tally(t.packets0 + One(cpu.slot == 0), t.packets1 + One(cpu.slot == 1), t.bytes + cpu.length)
  }

  function One(b: bool): nat {
    if b then 1 else 0
  }

  /** The next atomic operation of a CPU in the capture body. */
  datatype Pc =
    | Idle
    | Lookup
    | Insert
    | Relookup
    | CheckPackets
    | CheckBytes
    | AddPackets
    | AddBytes
    | Reserve
    | Load
    | Swap
    | CountFlow
    | Submit

  /** A CPU with its packet's slot and the length it asks for, later the length it was granted. */
  datatype Cpu = Cpu(pc: Pc, slot: nat, length: nat)

  /**
   One budget map entry, the CPUs working on it, and what they counted: the samples submitted to the ring
   buffer, those charged but then lost, those turned away because no budget entry could be created, and
   the flows counted as sampled.
   */
  datatype State = State(
    budget: Option<Budget>,
    cpus: seq<Cpu>,
    submitted: Tally,
    lost: Tally,
    turnedAway: Tally,
    sampledFlows: nat)

  /** A step: a CPU starts on a packet, or performs its next atomic operation with the outcome `ok`. */
  datatype Action =
    | Begin(cpu: nat, slot: nat, originalLength: nat)
    | Advance(cpu: nat, ok: bool)

  function Start(cpus: nat): State {
    State(None, seq(cpus, _ => Cpu(Idle, 0, 0)), Tally(0, 0, 0), Tally(0, 0, 0), Tally(0, 0, 0), 0)
  }

  function Step(c: Config, s: State, a: Action): State {
    if a.cpu >= |s.cpus| then s
    else
      match a
      case Begin(cpu, slot, originalLength) =>
        var length := Wanted(c, originalLength);
        if s.cpus[cpu].pc.Idle? && slot < 2 && length != 0 && Enabled(c)
        then s.(cpus := s.cpus[cpu := Cpu(Lookup, slot, length)])
        else s
      case Advance(cpu, ok) => Perform(c, s, cpu, ok)
  }

  /** CPU `cpu` moves on to operation `pc`. */
  function At(s: State, cpu: nat, pc: Pc): State
    requires cpu < |s.cpus|
  {
    s.(cpus := s.cpus[cpu := s.cpus[cpu].(pc := pc)])
  }

  function Perform(c: Config, s: State, cpu: nat, ok: bool): State
    requires cpu < |s.cpus|
  {
    match s.cpus[cpu].pc
    case Idle => s
    case Lookup => if s.budget.Some? then At(s, cpu, CheckPackets) else At(s, cpu, Insert)
    case Insert =>
      // BPF_NOEXIST: a budget another CPU published first is kept.
      if ok && s.budget.None?
      then At(s, cpu, Relookup).(budget := Some(Budget(0, 0, 0, false)))
      else At(s, cpu, Relookup)
    case Relookup =>
      if s.budget.Some? then At(s, cpu, CheckPackets)
      else At(s, cpu, Idle).(turnedAway := Counted(s.turnedAway, s.cpus[cpu]))
    case Reserve => if ok then At(s, cpu, Load) else At(s, cpu, Idle).(lost := Counted(s.lost, s.cpus[cpu]))
    case Load => if ok then At(s, cpu, Swap) else At(s, cpu, Idle).(lost := Counted(s.lost, s.cpus[cpu]))
    case CountFlow => At(s, cpu, Submit).(sampledFlows := s.sampledFlows + 1)
    case Submit => At(s, cpu, Idle).(submitted := Counted(s.submitted, s.cpus[cpu]))
    case _ => if s.budget.Some? then Charge(c, s, cpu, s.budget.value) else s
  }

  /** The operations on the words of the budget `b` itself. */
  function Charge(c: Config, s: State, cpu: nat, b: Budget): State
    requires cpu < |s.cpus|
  {
    var slot, length := s.cpus[cpu].slot, s.cpus[cpu].length;
    match s.cpus[cpu].pc
    case CheckPackets =>
      if Seen(b, slot) >= c.maxPackets then At(s, cpu, Idle) else At(s, cpu, CheckBytes)
    case CheckBytes =>
      if b.bytesSeen >= c.maxBytes then At(s, cpu, Idle) else At(s, cpu, AddPackets)
    case AddPackets =>
      var previous := Seen(b, slot);
      At(s, cpu, if previous >= c.maxPackets then Idle else AddBytes).(budget := Some(WithSeen(b, slot, previous + 1)))
    case AddBytes =>
      s.(cpus := s.cpus[cpu := AfterAddBytes(c, s.cpus[cpu], b)], budget := Some(b.(bytesSeen := (b.bytesSeen + length) % U32)))
    case Swap =>
      if b.sampled then At(s, cpu, Submit) else At(s, cpu, CountFlow).(budget := Some(b.(sampled := true)))
    case _ => s
  }

  /** What remains for the CPU whose byte fetch-and-add returned `b.bytesSeen`. */
  function AfterAddBytes(c: Config, cpu: Cpu, b: Budget): Cpu {
    if b.bytesSeen >= c.maxBytes then cpu.(pc := Idle)
    else
      var kept := Min(cpu.length, c.maxBytes - b.bytesSeen);
      if kept < 1 || kept > MAX_PAYLOAD then cpu.(pc := Idle)
      else Cpu(Reserve, cpu.slot, (kept - 1) % MAX_PAYLOAD + 1)
  }

  function Seen(b: Budget, slot: nat): nat {
    if slot == 0 then b.packetsSeen0 else b.packetsSeen1
  }

  function WithSeen(b: Budget, slot: nat, packets: nat): Budget {
    if slot == 0 then b.(packetsSeen0 := packets % U32) else b.(packetsSeen1 := packets % U32)
  }

  function Run(c: Config, s: State, actions: seq<Action>): State {
    if |actions| == 0 then s else Step(c, Run(c, s, actions[..|actions| - 1]), actions[|actions| - 1])
  }

  /**
   What a CPU may still add to the budget's words, what it was already granted, and whether it still has
   to count the flow as sampled.
   */
  datatype Share = Share(packets0: int, packets1: int, bytes: int, held0: int, held1: int, heldBytes: int, counts: int)

  function ShareOf(cpu: Cpu): Share {
    match cpu.pc
    case CheckBytes => Share(One(cpu.slot == 0), One(cpu.slot == 1), 0, 0, 0, 0, 0)
    case AddPackets => Share(One(cpu.slot == 0), One(cpu.slot == 1), cpu.length, 0, 0, 0, 0)
    case AddBytes => Share(0, 0, cpu.length, One(cpu.slot == 0), One(cpu.slot == 1), 0, 0)
    case Reserve | Load | Swap | Submit => Share(0, 0, 0, One(cpu.slot == 0), One(cpu.slot == 1), cpu.length, 0)
    case CountFlow => Share(0, 0, 0, One(cpu.slot == 0), One(cpu.slot == 1), cpu.length, 1)
    case _ => Share(0, 0, 0, 0, 0, 0, 0)
  }

  function Plus(a: Share, b: Share): Share {
    Share(a.packets0 + b.packets0, a.packets1 + b.packets1, a.bytes + b.bytes,
          a.held0 + b.held0, a.held1 + b.held1, a.heldBytes + b.heldBytes, a.counts + b.counts)
  }

  /** `after` is `before` with the share `gone` replaced by `come`. */
  predicate Moved(before: Share, gone: Share, come: Share, after: Share) {
    && after.packets0 == before.packets0 - gone.packets0 + come.packets0
    && after.packets1 == before.packets1 - gone.packets1 + come.packets1
    && after.bytes == before.bytes - gone.bytes + come.bytes
    && after.held0 == before.held0 - gone.held0 + come.held0
    && after.held1 == before.held1 - gone.held1 + come.held1
    && after.heldBytes == before.heldBytes - gone.heldBytes + come.heldBytes
    && after.counts == before.counts - gone.counts + come.counts
  }

  predicate Same(a: Share, b: Share) {
    Within(a, b) && Within(b, a)
  }

  function Shares(cpus: seq<Cpu>): seq<Share> {
    seq(|cpus|, i requires 0 <= i < |cpus| => ShareOf(cpus[i]))
  }

  function Sum(shares: seq<Share>): Share {
    if |shares| == 0 then Share(0, 0, 0, 0, 0, 0, 0) else Plus(shares[0], Sum(shares[1..]))
  }

  lemma SumAfterUpdate(shares: seq<Share>, i: nat, next: Share)
    requires i < |shares|
    ensures Moved(Sum(shares), shares[i], next, Sum(shares[i := next]))
  {
    if i == 0 {
      assert shares[i := next][1..] == shares[1..];
    } else {
      assert shares[i := next][1..] == shares[1..][i - 1 := next];
      SumAfterUpdate(shares[1..], i - 1, next);
    }
  }

  lemma SumAfterMove(cpus: seq<Cpu>, i: nat, next: Cpu)
    requires i < |cpus|
    ensures Moved(Sum(Shares(cpus)), ShareOf(cpus[i]), ShareOf(next), Sum(Shares(cpus[i := next])))
  {
    SumAfterUpdate(Shares(cpus), i, ShareOf(next));
    assert Shares(cpus[i := next]) == Shares(cpus)[i := ShareOf(next)];
  }

  /** Every component of `a` is at most the one of `b`. */
  predicate Within(a: Share, b: Share) {
    && a.packets0 <= b.packets0 && a.packets1 <= b.packets1 && a.bytes <= b.bytes
    && a.held0 <= b.held0 && a.held1 <= b.held1 && a.heldBytes <= b.heldBytes && a.counts <= b.counts
  }

  const NOTHING := Share(0, 0, 0, 0, 0, 0, 0)

  lemma {:induction false} SumNonNegative(shares: seq<Share>)
    requires forall i | 0 <= i < |shares| :: Within(NOTHING, shares[i])
    ensures Within(NOTHING, Sum(shares))
  {
    if |shares| != 0 {
      SumNonNegative(shares[1..]);
    }
  }

  lemma {:induction false} SumAtLeast(shares: seq<Share>, i: nat)
    requires forall j | 0 <= j < |shares| :: Within(NOTHING, shares[j])
    requires i < |shares|
    ensures Within(shares[i], Sum(shares))
  {
    SumNonNegative(shares[1..]);
    if i > 0 {
      SumAtLeast(shares[1..], i - 1);
    }
  }

  lemma {:induction false} SumBound(shares: seq<Share>)
    requires forall i | 0 <= i < |shares| :: shares[i].packets0 <= 1 && shares[i].packets1 <= 1 && shares[i].bytes <= MAX_PAYLOAD
    ensures Sum(shares).packets0 <= |shares| && Sum(shares).packets1 <= |shares|
    ensures Sum(shares).bytes <= 4096 * |shares|
  {
    if |shares| != 0 {
      SumBound(shares[1..]);
    }
  }

  lemma {:induction false} SumOfNothing(shares: seq<Share>)
    requires forall i | 0 <= i < |shares| :: Same(shares[i], NOTHING)
    ensures Same(Sum(shares), NOTHING)
  {
    if |shares| != 0 {
      SumOfNothing(shares[1..]);
      assert Same(shares[0], NOTHING);
    }
  }

  predicate Unbudgeted(pc: Pc) {
    pc.Idle? || pc.Lookup? || pc.Insert? || pc.Relookup?
  }

  predicate CpuOk(cpu: Cpu) {
    !cpu.pc.Idle? ==> cpu.slot < 2 && 1 <= cpu.length <= MAX_PAYLOAD
  }

  /** What every step keeps. */
  ghost predicate Inv(c: Config, s: State) {
    && (forall i | 0 <= i < |s.cpus| :: CpuOk(s.cpus[i]))
    && match s.budget
       case None =>
         s.submitted == s.lost == Tally(0, 0, 0) && s.sampledFlows == 0 && forall i | 0 <= i < |s.cpus| :: Unbudgeted(s.cpus[i].pc)
       case Some(b) => Balanced(c, |s.cpus|, Sum(Shares(s.cpus)), b, s.submitted, s.lost, s.sampledFlows)
  }

  predicate Balanced(c: Config, n: nat, sum: Share, b: Budget, submitted: Tally, lost: Tally, flows: nat) {
    // How far the fetch-and-adds can overshoot their limits.
    && b.packetsSeen0 + sum.packets0 <= c.maxPackets - 1 + n
    && b.packetsSeen1 + sum.packets1 <= c.maxPackets - 1 + n
    && b.bytesSeen + sum.bytes <= c.maxBytes - 1 + 4096 * n
    // Every byte counted below the limit was granted to exactly one sample.
    && submitted.bytes + lost.bytes + sum.heldBytes == Min(b.bytesSeen, c.maxBytes)
    && submitted.packets0 + lost.packets0 + sum.held0 <= Min(b.packetsSeen0, c.maxPackets)
    && submitted.packets1 + lost.packets1 + sum.held1 <= Min(b.packetsSeen1, c.maxPackets)
    && flows + sum.counts == One(b.sampled)
  }

  /** A number of CPUs for which the 32-bit words cannot wrap. */
  predicate FewEnough(cpus: nat) {
    0x1_0000 + 4096 * cpus < U32
  }

  lemma CpusBound(cpus: seq<Cpu>)
    requires forall i | 0 <= i < |cpus| :: CpuOk(cpus[i])
    ensures Sum(Shares(cpus)).packets0 <= |cpus| && Sum(Shares(cpus)).packets1 <= |cpus|
    ensures Sum(Shares(cpus)).bytes <= 4096 * |cpus|
  {
    SumBound(Shares(cpus));
  }

  lemma CpusStayOk(cpus: seq<Cpu>, i: nat, next: Cpu)
    requires i < |cpus| && CpuOk(next) && forall j | 0 <= j < |cpus| :: CpuOk(cpus[j])
    ensures var after := cpus[i := next]; forall j | 0 <= j < |after| :: CpuOk(after[j])
  {
  }

  lemma CpuWithin(cpus: seq<Cpu>, i: nat)
    requires i < |cpus|
    ensures Within(ShareOf(cpus[i]), Sum(Shares(cpus)))
  {
    SumAtLeast(Shares(cpus), i);
  }

  lemma BeginKeepsInv(c: Config, s: State, cpu: nat, slot: nat, originalLength: nat)
    requires Inv(c, s) && cpu < |s.cpus|
    ensures Inv(c, Step(c, s, Begin(cpu, slot, originalLength)))
  {
    SumAfterMove(s.cpus, cpu, Cpu(Lookup, slot, Wanted(c, originalLength)));
  }

  lemma UnbudgetedSum(cpus: seq<Cpu>)
    requires forall i | 0 <= i < |cpus| :: CpuOk(cpus[i]) && Same(ShareOf(cpus[i]), NOTHING)
    ensures Same(Sum(Shares(cpus)), NOTHING)
  {
    SumOfNothing(Shares(cpus));
  }

  /** A CPU that owes nothing moves on without owing anything. */
  lemma IdleMoveKeepsInv(c: Config, s: State, cpu: nat, pc: Pc)
    requires Inv(c, s) && cpu < |s.cpus| && Unbudgeted(s.cpus[cpu].pc)
    requires pc.Idle? || pc.Insert? || pc.Relookup? || (pc.CheckPackets? && s.budget.Some?)
    requires s.cpus[cpu].pc.Idle? ==> pc.Idle?
    ensures Inv(c, At(s, cpu, pc))
  {
    SumAfterMove(s.cpus, cpu, s.cpus[cpu].(pc := pc));
  }

  lemma FreshBudgetBalances(c: Config, n: nat, sum: Share)
    requires Enabled(c) && n > 0 && Same(sum, NOTHING)
    ensures Balanced(c, n, sum, Budget(0, 0, 0, false), Tally(0, 0, 0), Tally(0, 0, 0), 0)
  {
  }

  lemma UnbudgetedOwesNothing(cpu: Cpu)
    requires Unbudgeted(cpu.pc)
    ensures Same(ShareOf(cpu), NOTHING)
  {
  }

  lemma PublishKeepsInv(c: Config, s: State, cpu: nat)
    requires Enabled(c) && Inv(c, s) && cpu < |s.cpus| && s.cpus[cpu].pc.Insert? && s.budget.None?
    ensures Inv(c, At(s, cpu, Relookup).(budget := Some(Budget(0, 0, 0, false))))
  {
    var cpus := At(s, cpu, Relookup).cpus;
    forall i | 0 <= i < |cpus|
      ensures CpuOk(cpus[i]) && Same(ShareOf(cpus[i]), NOTHING)
    {
      assert CpuOk(s.cpus[i]) && Unbudgeted(s.cpus[i].pc);
      UnbudgetedOwesNothing(cpus[i]);
    }
    UnbudgetedSum(cpus);
    FreshBudgetBalances(c, |cpus|, Sum(Shares(cpus)));
  }

  lemma InsertKeepsInv(c: Config, s: State, cpu: nat, ok: bool)
    requires Enabled(c) && Inv(c, s) && cpu < |s.cpus| && Unbudgeted(s.cpus[cpu].pc)
    ensures Inv(c, Perform(c, s, cpu, ok))
  {
    if s.cpus[cpu].pc.Insert? && ok && s.budget.None? {
      PublishKeepsInv(c, s, cpu);
    } else if !s.cpus[cpu].pc.Idle? {
      IdleMoveKeepsInv(c, s, cpu, Perform(c, s, cpu, ok).cpus[cpu].pc);
    }
  }

  lemma LoseKeepsInv(c: Config, s: State, cpu: nat, ok: bool)
    requires Inv(c, s) && cpu < |s.cpus| && (s.cpus[cpu].pc.Reserve? || s.cpus[cpu].pc.Load?)
    ensures Inv(c, Perform(c, s, cpu, ok))
  {
    SumAfterMove(s.cpus, cpu, Perform(c, s, cpu, ok).cpus[cpu]);
  }

  lemma SubmitKeepsInv(c: Config, s: State, cpu: nat, ok: bool)
    requires Inv(c, s) && cpu < |s.cpus| && (s.cpus[cpu].pc.CountFlow? || s.cpus[cpu].pc.Submit?)
    ensures Inv(c, Perform(c, s, cpu, ok))
  {
    SumAfterMove(s.cpus, cpu, Perform(c, s, cpu, ok).cpus[cpu]);
  }

  /** A CPU that read or charged the budget: the invariant holds again if the budget balances the new shares. */
  lemma ChargedKeepsInv(c: Config, s: State, cpu: nat, moved: Cpu, b: Budget)
    requires Inv(c, s) && cpu < |s.cpus| && CpuOk(moved)
    requires Balanced(c, |s.cpus|, Sum(Shares(s.cpus[cpu := moved])), b, s.submitted, s.lost, s.sampledFlows)
    ensures Inv(c, s.(cpus := s.cpus[cpu := moved], budget := Some(b)))
  {
    CpusStayOk(s.cpus, cpu, moved);
  }

  /** A passed check may add what the CPU still has room for: no more than every CPU its share. */
  lemma CheckBalance(c: Config, n: nat, sum: Share, cpu: Cpu, b: Budget, submitted: Tally, lost: Tally, flows: nat,
                     moved: Cpu, after: Share)
    requires Balanced(c, n, sum, b, submitted, lost, flows) && CpuOk(cpu)
    requires after.packets0 <= n && after.packets1 <= n && after.bytes <= 4096 * n
    requires Moved(sum, ShareOf(cpu), ShareOf(moved), after)
    requires (cpu.pc.CheckPackets? && moved == AfterCheckPackets(c, cpu, b))
             || (cpu.pc.CheckBytes? && moved == AfterCheckBytes(c, cpu, b))
    ensures Balanced(c, n, after, b, submitted, lost, flows)
  {
  }

  function AfterCheckPackets(c: Config, cpu: Cpu, b: Budget): Cpu {
    cpu.(pc := if Seen(b, cpu.slot) >= c.maxPackets then Idle else CheckBytes)
  }

  function AfterCheckBytes(c: Config, cpu: Cpu, b: Budget): Cpu {
    cpu.(pc := if b.bytesSeen >= c.maxBytes then Idle else AddPackets)
  }

  lemma CheckRebalances(c: Config, s: State, cpu: nat, b: Budget, moved: Cpu)
    requires Inv(c, s) && cpu < |s.cpus| && s.budget == Some(b)
    requires (s.cpus[cpu].pc.CheckPackets? && moved == AfterCheckPackets(c, s.cpus[cpu], b))
             || (s.cpus[cpu].pc.CheckBytes? && moved == AfterCheckBytes(c, s.cpus[cpu], b))
    ensures Balanced(c, |s.cpus|, Sum(Shares(s.cpus[cpu := moved])), b, s.submitted, s.lost, s.sampledFlows)
  {
    var cpus := s.cpus[cpu := moved];
    CpusStayOk(s.cpus, cpu, moved);
    CpusBound(cpus);
    SumAfterMove(s.cpus, cpu, moved);
    CheckBalance(c, |s.cpus|, Sum(Shares(s.cpus)), s.cpus[cpu], b, s.submitted, s.lost, s.sampledFlows, moved, Sum(Shares(cpus)));
  }

  lemma CheckPacketsKeepsInv(c: Config, s: State, cpu: nat, b: Budget)
    requires Inv(c, s) && cpu < |s.cpus| && s.budget == Some(b) && s.cpus[cpu].pc.CheckPackets?
    ensures Inv(c, Charge(c, s, cpu, b))
  {
    var moved := AfterCheckPackets(c, s.cpus[cpu], b);
    CheckRebalances(c, s, cpu, b, moved);
    ChargedKeepsInv(c, s, cpu, moved, b);
    assert Charge(c, s, cpu, b) == s.(cpus := s.cpus[cpu := moved], budget := Some(b));
  }

  lemma CheckBytesKeepsInv(c: Config, s: State, cpu: nat, b: Budget)
    requires Inv(c, s) && cpu < |s.cpus| && s.budget == Some(b) && s.cpus[cpu].pc.CheckBytes?
    ensures Inv(c, Charge(c, s, cpu, b))
  {
    var moved := AfterCheckBytes(c, s.cpus[cpu], b);
    CheckRebalances(c, s, cpu, b, moved);
    ChargedKeepsInv(c, s, cpu, moved, b);
    assert Charge(c, s, cpu, b) == s.(cpus := s.cpus[cpu := moved], budget := Some(b));
  }

  /** The packet fetch-and-add cannot wrap, and one CPU's claim becomes one held packet at most. */
  lemma AddPacketsBalance(c: Config, n: nat, sum: Share, cpu: Cpu, b: Budget, submitted: Tally, lost: Tally, flows: nat, after: Share)
    requires Enabled(c) && FewEnough(n) && Balanced(c, n, sum, b, submitted, lost, flows)
    requires cpu.pc.AddPackets? && CpuOk(cpu) && Within(ShareOf(cpu), sum)
    requires Moved(sum, ShareOf(cpu), ShareOf(AfterAddPackets(c, cpu, b)), after)
    ensures Seen(b, cpu.slot) + 1 < U32
    ensures Balanced(c, n, after, WithSeen(b, cpu.slot, Seen(b, cpu.slot) + 1), submitted, lost, flows)
  {
    var seen := Seen(b, cpu.slot) + 1;
    assert seen <= c.maxPackets - 1 + n;
    assert seen % U32 == seen;
  }

  /** The byte fetch-and-add cannot wrap, and what it moves the count by below the limit is what the CPU keeps. */
  lemma AddBytesBalance(c: Config, n: nat, sum: Share, cpu: Cpu, b: Budget, submitted: Tally, lost: Tally, flows: nat, after: Share)
    requires Enabled(c) && FewEnough(n) && Balanced(c, n, sum, b, submitted, lost, flows)
    requires cpu.pc.AddBytes? && CpuOk(cpu) && Within(ShareOf(cpu), sum)
    requires Moved(sum, ShareOf(cpu), ShareOf(AfterAddBytes(c, cpu, b)), after)
    ensures b.bytesSeen + cpu.length < U32
    ensures Balanced(c, n, after, b.(bytesSeen := (b.bytesSeen + cpu.length) % U32), submitted, lost, flows)
  {
    assert (b.bytesSeen + cpu.length) % U32 == b.bytesSeen + cpu.length;
    if b.bytesSeen < c.maxBytes {
      var kept := Min(cpu.length, c.maxBytes - b.bytesSeen);
      assert AfterAddBytes(c, cpu, b) == Cpu(Reserve, cpu.slot, kept);
    }
  }

  /** The CPU after its packet fetch-and-add. */
  function AfterAddPackets(c: Config, cpu: Cpu, b: Budget): Cpu {
    cpu.(pc := if Seen(b, cpu.slot) >= c.maxPackets then Idle else AddBytes)
  }

  lemma AddPacketsRebalances(c: Config, s: State, cpu: nat, b: Budget)
    requires Enabled(c) && FewEnough(|s.cpus|) && cpu < |s.cpus| && s.cpus[cpu].pc.AddPackets? && CpuOk(s.cpus[cpu])
    requires Balanced(c, |s.cpus|, Sum(Shares(s.cpus)), b, s.submitted, s.lost, s.sampledFlows)
    ensures var slot, moved := s.cpus[cpu].slot, AfterAddPackets(c, s.cpus[cpu], b);
            Balanced(c, |s.cpus|, Sum(Shares(s.cpus[cpu := moved])), WithSeen(b, slot, Seen(b, slot) + 1),
                     s.submitted, s.lost, s.sampledFlows)
  {
    var moved := AfterAddPackets(c, s.cpus[cpu], b);
    SumAfterMove(s.cpus, cpu, moved);
    CpuWithin(s.cpus, cpu);
    AddPacketsBalance(c, |s.cpus|, Sum(Shares(s.cpus)), s.cpus[cpu], b, s.submitted, s.lost, s.sampledFlows,
                      Sum(Shares(s.cpus[cpu := moved])));
  }

  lemma AddPacketsCharges(c: Config, s: State, cpu: nat, b: Budget)
    requires cpu < |s.cpus| && s.cpus[cpu].pc.AddPackets?
    ensures var slot := s.cpus[cpu].slot;
            Charge(c, s, cpu, b) == s.(cpus := s.cpus[cpu := AfterAddPackets(c, s.cpus[cpu], b)],
                                    budget := Some(WithSeen(b, slot, Seen(b, slot) + 1)))
  {
  }

  lemma AddPacketsKeepsInv(c: Config, s: State, cpu: nat, b: Budget)
    requires Enabled(c) && FewEnough(|s.cpus|) && Inv(c, s) && cpu < |s.cpus| && s.budget == Some(b)
    requires s.cpus[cpu].pc.AddPackets?
    ensures Inv(c, Charge(c, s, cpu, b))
  {
    var slot := s.cpus[cpu].slot;
    AddPacketsRebalances(c, s, cpu, b);
    ChargedKeepsInv(c, s, cpu, AfterAddPackets(c, s.cpus[cpu], b), WithSeen(b, slot, Seen(b, slot) + 1));
    AddPacketsCharges(c, s, cpu, b);
  }

  lemma AddBytesRebalances(c: Config, s: State, cpu: nat, b: Budget)
    requires Enabled(c) && FewEnough(|s.cpus|) && cpu < |s.cpus| && s.cpus[cpu].pc.AddBytes? && CpuOk(s.cpus[cpu])
    requires Balanced(c, |s.cpus|, Sum(Shares(s.cpus)), b, s.submitted, s.lost, s.sampledFlows)
    ensures var moved := AfterAddBytes(c, s.cpus[cpu], b);
            Balanced(c, |s.cpus|, Sum(Shares(s.cpus[cpu := moved])),
                     b.(bytesSeen := (b.bytesSeen + s.cpus[cpu].length) % U32), s.submitted, s.lost, s.sampledFlows)
  {
    var moved := AfterAddBytes(c, s.cpus[cpu], b);
    SumAfterMove(s.cpus, cpu, moved);
    CpuWithin(s.cpus, cpu);
    AddBytesBalance(c, |s.cpus|, Sum(Shares(s.cpus)), s.cpus[cpu], b, s.submitted, s.lost, s.sampledFlows,
                    Sum(Shares(s.cpus[cpu := moved])));
  }

  lemma AfterAddBytesIsOk(c: Config, cpu: Cpu, b: Budget)
    requires CpuOk(cpu) && cpu.pc.AddBytes?
    ensures CpuOk(AfterAddBytes(c, cpu, b))
  {
  }

  lemma AddBytesKeepsInv(c: Config, s: State, cpu: nat, b: Budget)
    requires Enabled(c) && FewEnough(|s.cpus|) && Inv(c, s) && cpu < |s.cpus| && s.budget == Some(b)
    requires s.cpus[cpu].pc.AddBytes?
    ensures Inv(c, Charge(c, s, cpu, b))
  {
    AddBytesRebalances(c, s, cpu, b);
    AfterAddBytesIsOk(c, s.cpus[cpu], b);
    ChargedKeepsInv(c, s, cpu, AfterAddBytes(c, s.cpus[cpu], b),
                    b.(bytesSeen := (b.bytesSeen + s.cpus[cpu].length) % U32));
  }

  lemma SwapKeepsInv(c: Config, s: State, cpu: nat, b: Budget)
    requires Inv(c, s) && cpu < |s.cpus| && s.budget == Some(b) && s.cpus[cpu].pc.Swap?
    ensures Inv(c, Charge(c, s, cpu, b))
  {
    var next := Charge(c, s, cpu, b);
    SumAfterMove(s.cpus, cpu, next.cpus[cpu]);
  }

  lemma StepKeepsInv(c: Config, s: State, a: Action)
    requires Enabled(c) && FewEnough(|s.cpus|) && Inv(c, s)
    ensures Inv(c, Step(c, s, a)) && |Step(c, s, a).cpus| == |s.cpus|
  {
    if a.cpu < |s.cpus| {
      match a
      case Begin(cpu, slot, originalLength) => BeginKeepsInv(c, s, cpu, slot, originalLength);
      case Advance(cpu, ok) =>
        match s.cpus[cpu].pc
        case Idle | Lookup | Insert | Relookup => InsertKeepsInv(c, s, cpu, ok);
        case CheckPackets => CheckPacketsKeepsInv(c, s, cpu, s.budget.value);
        case CheckBytes => CheckBytesKeepsInv(c, s, cpu, s.budget.value);
        case AddPackets => AddPacketsKeepsInv(c, s, cpu, s.budget.value);
        case Swap => SwapKeepsInv(c, s, cpu, s.budget.value);
        case AddBytes => AddBytesKeepsInv(c, s, cpu, s.budget.value);
        case Reserve | Load => LoseKeepsInv(c, s, cpu, ok);
        case _ => SubmitKeepsInv(c, s, cpu, ok);
    }
  }

  lemma {:induction false} RunKeepsInv(c: Config, cpus: nat, actions: seq<Action>)
    requires Enabled(c) && FewEnough(cpus)
    ensures Inv(c, Run(c, Start(cpus), actions)) && |Run(c, Start(cpus), actions).cpus| == cpus
  {
    if |actions| != 0 {
      RunKeepsInv(c, cpus, actions[..|actions| - 1]);
      StepKeepsInv(c, Run(c, Start(cpus), actions[..|actions| - 1]), actions[|actions| - 1]);
    }
  }

  lemma {:induction false} DisabledRunDoesNothing(c: Config, cpus: nat, actions: seq<Action>)
    requires !Enabled(c)
    ensures Run(c, Start(cpus), actions) == Start(cpus)
  {
    if |actions| != 0 {
      DisabledRunDoesNothing(c, cpus, actions[..|actions| - 1]);
    }
  }

  /**
   Under every interleaving and for every configuration, the captured bytes stay within the byte limit, each
   direction's samples within the packet limit, and the conversation is counted as sampled once at most.
   */
  lemma {:induction false} LimitsHold(c: Config, cpus: nat, actions: seq<Action>)
    requires FewEnough(cpus)
    ensures var s := Run(c, Start(cpus), actions);
            && s.submitted.bytes <= c.maxBytes
            && s.submitted.packets0 <= c.maxPackets && s.submitted.packets1 <= c.maxPackets
            && s.sampledFlows <= 1
  {
    if Enabled(c) {
      RunKeepsInv(c, cpus, actions);
      SumNonNegative(Shares(Run(c, Start(cpus), actions).cpus));
    } else {
      DisabledRunDoesNothing(c, cpus, actions);
    }
  }

  /** Whenever a CPU is about to fetch-and-add, the 32-bit word has room for what it adds. */
  lemma {:induction false} CountersNeverWrap(c: Config, cpus: nat, actions: seq<Action>, i: nat)
    requires Enabled(c) && FewEnough(cpus) && i < cpus
    ensures var s := Run(c, Start(cpus), actions);
            && |s.cpus| == cpus
            && (s.cpus[i].pc.AddPackets? ==> s.budget.Some? && Seen(s.budget.value, s.cpus[i].slot) + 1 < U32)
            && (s.cpus[i].pc.AddBytes? ==> s.budget.Some? && s.budget.value.bytesSeen + s.cpus[i].length < U32)
  {
    RunKeepsInv(c, cpus, actions);
    CpuWithin(Run(c, Start(cpus), actions).cpus, i);
  }

  predicate AllIdle(cpus: seq<Cpu>) {
    forall i :: 0 <= i < |cpus| ==> cpus[i].pc.Idle?
  }

  /**
   * When no CPU is in the capture body, every byte the budget counted below its
   * limit is in exactly one sample, submitted or lost, and the flow counter
   * agrees with the sampled mark.
   */
  lemma {:induction false} QuiescentBudgetIsAccountedFor(c: Config, cpus: nat, actions: seq<Action>)
    requires Enabled(c) && FewEnough(cpus)
    requires AllIdle(Run(c, Start(cpus), actions).cpus)
    ensures var s := Run(c, Start(cpus), actions);
            s.budget.Some? ==>
              && s.submitted.bytes + s.lost.bytes == Min(s.budget.value.bytesSeen, c.maxBytes)
              && s.sampledFlows == One(s.budget.value.sampled)
  {
    RunKeepsInv(c, cpus, actions);
    SumOfNothing(Shares(Run(c, Start(cpus), actions).cpus));
  }
}
