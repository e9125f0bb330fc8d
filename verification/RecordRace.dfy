/**
 * Flow accounting under contention: any number of CPUs record packets of one
 * flow at once, each atomic operation on the flow's map entry being one step
 * (bpf/flow.bpf.c). The entry is followed from its creation on, and its 64-bit
 * words are unbounded.
 */
module RecordRace {
  import opened Base

  /** The next atomic operation of a CPU that records a packet. */
  datatype Pc = Idle | Lookup | Insert | Relookup | AddPackets | AddBytes | Finish

  datatype Cpu = Cpu(pc: Pc, length: nat)

  datatype Value = Value(packets: nat, bytes: nat)

  /** Packets and their bytes. */
  datatype Amount = Amount(packets: int, bytes: int)

  function Plus(a: Amount, b: Amount): Amount {
    Amount(a.packets + b.packets, a.bytes + b.bytes)
  }

  const NONE := Amount(0, 0)

  /**
   * The entry, the CPUs, the calls that have returned, those among them that found no entry although their own
   * insertion had failed, and the packet numbers that the counted calls return, in the order they were drawn.
   */
  datatype State = State(entry: Option<Value>, cpus: seq<Cpu>, returned: Amount, lost: Amount, numbers: seq<nat>)

  /** A step: a CPU starts on a packet, or performs its next operation; `ok` is whether an insertion can succeed. */
  datatype Action = Begin(cpu: nat, length: nat) | Advance(cpu: nat, ok: bool)

  function Start(cpus: nat): State {
    State(None, seq(cpus, _ => Cpu(Idle, 0)), NONE, NONE, [])
  }

  function At(s: State, cpu: nat, pc: Pc): State
    requires cpu < |s.cpus|
  {
    s.(cpus := s.cpus[cpu := s.cpus[cpu].(pc := pc)])
  }

  /** The call of a CPU returns. */
  function Returned(s: State, cpu: nat): State
    requires cpu < |s.cpus|
  {
    At(s, cpu, Idle).(returned := Plus(s.returned, Amount(1, s.cpus[cpu].length)))
  }

  function Step(s: State, a: Action): State {
    if a.cpu >= |s.cpus| then s
    else
      match a
      case Begin(cpu, length) => if s.cpus[cpu].pc.Idle? then s.(cpus := s.cpus[cpu := Cpu(Lookup, length)]) else s
      case Advance(cpu, ok) => Perform(s, cpu, ok)
  }

  function Perform(s: State, cpu: nat, ok: bool): State
    requires cpu < |s.cpus|
  {
    var length := s.cpus[cpu].length;
    match s.cpus[cpu].pc
    case Idle => s
    case Lookup => At(s, cpu, if s.entry.Some? then AddPackets else Insert)
    case Insert =>
      // BPF_NOEXIST: an entry another CPU created first is kept.
      if s.entry.None? && ok
      then Returned(s, cpu).(entry := Some(Value(1, length)), numbers := s.numbers + [1])
      else At(s, cpu, Relookup)
    case Relookup =>
      if s.entry.Some? then At(s, cpu, AddPackets)
      else Returned(s, cpu).(lost := Plus(s.lost, Amount(1, length)))
    case AddPackets =>
      if s.entry.None? then s
      else
        var next := s.entry.value.packets + 1;
        At(s, cpu, AddBytes).(entry := Some(s.entry.value.(packets := next)), numbers := s.numbers + [next])
    case AddBytes =>
      if s.entry.None? then s
      else At(s, cpu, Finish).(entry := Some(s.entry.value.(bytes := s.entry.value.bytes + length)))
    case Finish => Returned(s, cpu)
  }

  function Run(s: State, actions: seq<Action>): State {
    if |actions| == 0 then s else Step(Run(s, actions[..|actions| - 1]), actions[|actions| - 1])
  }

  /** What a CPU has added to the entry for a call that has not returned. */
  function HeldBy(cpu: Cpu): Amount {
    match cpu.pc
    case AddBytes => Amount(1, 0)
    case Finish => Amount(1, cpu.length)
    case _ => NONE
  }

  function Held(cpus: seq<Cpu>): Amount {
    if |cpus| == 0 then NONE else Plus(HeldBy(cpus[0]), Held(cpus[1..]))
  }

  lemma HeldAfterMove(cpus: seq<Cpu>, i: nat, next: Cpu)
    requires i < |cpus|
    ensures var held := Held(cpus[i := next]);
            && held.packets == Held(cpus).packets - HeldBy(cpus[i]).packets + HeldBy(next).packets
            && held.bytes == Held(cpus).bytes - HeldBy(cpus[i]).bytes + HeldBy(next).bytes
  {
    if i == 0 {
      assert cpus[i := next][1..] == cpus[1..];
    } else {
      assert cpus[i := next][1..] == cpus[1..][i - 1 := next];
      HeldAfterMove(cpus[1..], i - 1, next);
    }
  }

  lemma {:induction false} NothingHeld(cpus: seq<Cpu>)
    requires forall i :: 0 <= i < |cpus| ==> HeldBy(cpus[i]) == NONE
    ensures Held(cpus) == NONE
  {
    if |cpus| > 0 {
      NothingHeld(cpus[1..]);
    }
  }

  predicate BeforeEntry(pc: Pc) {
    pc.Idle? || pc.Lookup? || pc.Insert? || pc.Relookup?
  }

  /** The entry holds what the calls that were not lost have added so far. */
  predicate Balanced(entry: Option<Value>, held: Amount, returned: Amount, lost: Amount, numbers: nat) {
    match entry
    case None => returned == lost && held == NONE && numbers == 0
    case Some(v) =>
      && v.packets + lost.packets == returned.packets + held.packets
      && v.bytes + lost.bytes == returned.bytes + held.bytes
      && numbers == v.packets
  }

  predicate Numbered(numbers: seq<nat>) {
    forall i :: 0 <= i < |numbers| ==> numbers[i] == i + 1
  }

  predicate Inv(s: State) {
    && (s.entry.None? ==> forall i :: 0 <= i < |s.cpus| ==> BeforeEntry(s.cpus[i].pc))
    && Balanced(s.entry, Held(s.cpus), s.returned, s.lost, |s.numbers|)
  }

  /** A CPU that has added nothing moves on. */
  lemma MoveKeepsInv(s: State, cpu: nat, moved: Cpu)
    requires Inv(s) && cpu < |s.cpus| && HeldBy(s.cpus[cpu]) == HeldBy(moved) == NONE
    requires s.entry.None? ==> BeforeEntry(moved.pc)
    ensures Inv(s.(cpus := s.cpus[cpu := moved]))
  {
    HeldAfterMove(s.cpus, cpu, moved);
  }

  /** Nothing is held before there is an entry, whichever CPU creates it. */
  lemma InsertKeepsInv(s: State, cpu: nat)
    requires Inv(s) && cpu < |s.cpus| && s.cpus[cpu].pc.Insert? && s.entry.None?
    ensures Inv(Perform(s, cpu, true))
  {
    var moved := s.cpus[cpu].(pc := Idle);
    MoveKeepsInv(s, cpu, moved);
    assert Perform(s, cpu, true).cpus == s.cpus[cpu := moved];
    assert |Perform(s, cpu, true).numbers| == 1;
  }

  lemma LoseKeepsInv(s: State, cpu: nat)
    requires Inv(s) && cpu < |s.cpus| && s.cpus[cpu].pc.Relookup? && s.entry.None?
    ensures Inv(Perform(s, cpu, true))
  {
    var moved := s.cpus[cpu].(pc := Idle);
    MoveKeepsInv(s, cpu, moved);
    assert Perform(s, cpu, true).cpus == s.cpus[cpu := moved];
  }

  lemma AddPacketsKeepsInv(s: State, cpu: nat)
    requires Inv(s) && cpu < |s.cpus| && s.cpus[cpu].pc.AddPackets?
    ensures Inv(Perform(s, cpu, true))
  {
    HeldAfterMove(s.cpus, cpu, s.cpus[cpu].(pc := AddBytes));
  }

  lemma AddBytesKeepsInv(s: State, cpu: nat)
    requires Inv(s) && cpu < |s.cpus| && s.cpus[cpu].pc.AddBytes?
    ensures Inv(Perform(s, cpu, true))
  {
    HeldAfterMove(s.cpus, cpu, s.cpus[cpu].(pc := Finish));
  }

  lemma FinishKeepsInv(s: State, cpu: nat)
    requires Inv(s) && cpu < |s.cpus| && s.cpus[cpu].pc.Finish?
    ensures Inv(Perform(s, cpu, true))
  {
    HeldAfterMove(s.cpus, cpu, s.cpus[cpu].(pc := Idle));
  }

  lemma PerformKeepsInv(s: State, cpu: nat, ok: bool)
    requires Inv(s) && cpu < |s.cpus|
    ensures Inv(Perform(s, cpu, ok))
  {
    var pc := s.cpus[cpu].pc;
    match pc
    case Idle =>
    case AddPackets => AddPacketsKeepsInv(s, cpu);
    case AddBytes => AddBytesKeepsInv(s, cpu);
    case Finish => FinishKeepsInv(s, cpu);
    case _ =>
      if pc.Insert? && s.entry.None? && ok {
        InsertKeepsInv(s, cpu);
      } else if pc.Relookup? && s.entry.None? {
        LoseKeepsInv(s, cpu);
      } else {
        MoveKeepsInv(s, cpu, Perform(s, cpu, ok).cpus[cpu]);
      }
  }

  lemma StepKeepsInv(s: State, a: Action)
    requires Inv(s)
    ensures Inv(Step(s, a)) && |Step(s, a).cpus| == |s.cpus|
  {
    if a.cpu < |s.cpus| {
      match a
      case Begin(cpu, length) =>
        if s.cpus[cpu].pc.Idle? {
          MoveKeepsInv(s, cpu, Cpu(Lookup, length));
        }
      case Advance(cpu, ok) => PerformKeepsInv(s, cpu, ok);
    }
  }

  lemma {:induction false} RunKeepsInv(cpus: nat, actions: seq<Action>)
    ensures Inv(Run(Start(cpus), actions)) && |Run(Start(cpus), actions).cpus| == cpus
  {
    if |actions| == 0 {
      NothingHeld(Start(cpus).cpus);
    } else {
      RunKeepsInv(cpus, actions[..|actions| - 1]);
      StepKeepsInv(Run(Start(cpus), actions[..|actions| - 1]), actions[|actions| - 1]);
    }
  }

  predicate AllIdle(cpus: seq<Cpu>) {
    forall i :: 0 <= i < |cpus| ==> cpus[i].pc.Idle?
  }

  /**
   * Under every interleaving: once no call is under way, packets and bytes in the entry and those of lost calls are
   * all that was recorded.
   */
  lemma {:induction false} QuiescentEntryIsExact(cpus: nat, actions: seq<Action>)
    requires AllIdle(Run(Start(cpus), actions).cpus)
    ensures var s := Run(Start(cpus), actions);
            match s.entry
            case None => s.returned == s.lost
            case Some(v) =>
              && v.packets + s.lost.packets == s.returned.packets
              && v.bytes + s.lost.bytes == s.returned.bytes
  {
    RunKeepsInv(cpus, actions);
    NothingHeld(Run(Start(cpus), actions).cpus);
  }

  lemma StepDrawsTheNextNumber(s: State, a: Action)
    requires Inv(s) && Numbered(s.numbers)
    ensures Numbered(Step(s, a).numbers)
  {
    var numbers := Step(s, a).numbers;
    assert numbers == s.numbers || numbers == s.numbers + [|s.numbers| + 1];
  }

  /** Under every interleaving the counted calls draw the numbers 1, 2, 3, … of the packets, each once. */
  lemma {:induction false} NumbersAreDrawnInOrder(cpus: nat, actions: seq<Action>)
    ensures Numbered(Run(Start(cpus), actions).numbers)
    ensures var s := Run(Start(cpus), actions);
            s.entry.Some? ==> s.entry.value.packets == |s.numbers|
  {
    RunKeepsInv(cpus, actions);
    if |actions| > 0 {
      var before := actions[..|actions| - 1];
      RunKeepsInv(cpus, before);
      NumbersAreDrawnInOrder(cpus, before);
      StepDrawsTheNextNumber(Run(Start(cpus), before), actions[|actions| - 1]);
    }
  }

  /** Insertions fail only because the entry exists. */
  predicate RoomInTheMap(actions: seq<Action>) {
    forall i :: 0 <= i < |actions| && actions[i].Advance? ==> actions[i].ok
  }

  predicate NoneLost(s: State) {
    s.lost == NONE && (s.entry.None? ==> forall i :: 0 <= i < |s.cpus| ==> !s.cpus[i].pc.Relookup?)
  }

  /** As long as the map has room, no packet is lost however the insertions race. */
  lemma {:induction false} RacingInsertionsLoseNothing(cpus: nat, actions: seq<Action>)
    requires RoomInTheMap(actions)
    ensures NoneLost(Run(Start(cpus), actions))
  {
    if |actions| > 0 {
      RacingInsertionsLoseNothing(cpus, actions[..|actions| - 1]);
    }
  }
}
