/** The budget key of a captured packet: one key for both directions of a conversation at a hook. */
module SampleKey {
  import opened Base

  /** The first index where the addresses differ, or their length. */
  function FirstDifference(a: Address, b: Address, i: nat): (r: nat)
    requires i <= 16
    decreases 16 - i
  {
    if i == 16 || a[i] != b[i] then i else FirstDifference(a, b, i + 1)
  }

  /** The packet's source endpoint comes after its destination endpoint. */
  predicate SourceIsLater(key: FlowKey) {
    var i := FirstDifference(key.sourceAddress, key.destinationAddress, 0);
    if i < 16 then key.sourceAddress[i] > key.destinationAddress[i] else key.sourcePort > key.destinationPort
  }

  /** The packet slot (direction) of a key, found byte by byte. */
  method Slot(key: FlowKey) returns (direction: nat)
    ensures direction == (if SourceIsLater(key) then 1 else 0)
  {
    direction := 0;
    for i := 0 to 16
      invariant direction == 0
      invariant FirstDifference(key.sourceAddress, key.destinationAddress, 0)
             == FirstDifference(key.sourceAddress, key.destinationAddress, i)
      invariant i == 16 ==> key.sourcePort <= key.destinationPort
    {
      if key.sourceAddress[i] < key.destinationAddress[i] {
        break;
      }
      if key.sourceAddress[i] > key.destinationAddress[i] {
        direction := 1;
        break;
      }
      if i == 15 && key.sourcePort > key.destinationPort {
        direction := 1;
        break;
      }
    }
  }

  function Swapped(key: FlowKey): FlowKey {
    key.(sourceAddress := key.destinationAddress, destinationAddress := key.sourceAddress,
         sourcePort := key.destinationPort, destinationPort := key.sourcePort)
  }

  /** The interface and direction are cleared, and the endpoints are put in order. */
  function Canonical(key: FlowKey): FlowKey {
    (if SourceIsLater(key) then Swapped(key) else key).(ifindex := 0, direction := 0)
  }

  lemma {:induction false} FirstDifferenceIsFirst(a: Address, b: Address, i: nat)
    requires i <= 16
    ensures i <= FirstDifference(a, b, i) <= 16 && FirstDifference(a, b, i) == FirstDifference(b, a, i)
    ensures FirstDifference(a, b, i) < 16 ==> a[FirstDifference(a, b, i)] != b[FirstDifference(a, b, i)]
    ensures FirstDifference(a, b, i) == 16 ==> a[i..] == b[i..]
    decreases 16 - i
  {
    if i < 16 && a[i] == b[i] {
      FirstDifferenceIsFirst(a, b, i + 1);
      assert a[i..] == [a[i]] + a[i + 1..];
      assert b[i..] == [b[i]] + b[i + 1..];
    }
  }

  predicate SameEndpoints(key: FlowKey) {
    key.sourceAddress == key.destinationAddress && key.sourcePort == key.destinationPort
  }

  /** A packet and its answer use different packet slots, unless the two endpoints are the same. */
  lemma AnswerUsesTheOtherSlot(key: FlowKey)
    ensures SourceIsLater(Swapped(key)) == SourceIsLater(key) <==> SameEndpoints(key)
    ensures SameEndpoints(key) ==> !SourceIsLater(key)
  {
    var a, b := key.sourceAddress, key.destinationAddress;
    FirstDifferenceIsFirst(a, b, 0);
    FirstDifferenceIsFirst(b, a, 0);
    assert a[0..] == a && b[0..] == b;
  }

  /** Two keys belong to one conversation at one hook, whatever interface each was seen on. */
  predicate SameConversation(k: FlowKey, l: FlowKey) {
    var k' := k.(ifindex := 0, direction := 0);
    var l' := l.(ifindex := 0, direction := 0);
    k' == l' || k' == Swapped(l')
  }

  /** Two packets share a budget exactly when they belong to one conversation. */
  lemma OneBudgetPerConversation(k: FlowKey, l: FlowKey)
    ensures Canonical(k) == Canonical(l) <==> SameConversation(k, l)
  {
    AnswerUsesTheOtherSlot(k);
    AnswerUsesTheOtherSlot(l);
  }
}
