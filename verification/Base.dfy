/** Types shared by the components of the model. */
module Base {

  datatype Option<+T> = None | Some(value: T)

  type Byte = x: int | 0 <= x < 0x100

  /** A 16-byte address slot of a flow key; IPv4 addresses use its first four bytes. */
  type Address = s: seq<Byte> | |s| == 16 witness [0, 0, 0, 0, 0, 0, 0, 0, 0, 0, 0, 0, 0, 0, 0, 0]

  /** The key of every per-flow map, in the kernel and in the agent. */
  datatype FlowKey = FlowKey(
    ipVersion: Byte,
    protocol: Byte,
    direction: Byte,
    hook: Byte,
    ifindex: nat,
    sourceAddress: Address,
    destinationAddress: Address,
    sourcePort: nat,
    destinationPort: nat)

  /** Two bytes in network order. */
  type U16 = x: int | 0 <= x < 0x1_0000

  function Word(high: Byte, low: Byte): U16 {
    256 * high + low
  }

  /** Where a packet was seen: entering an interface or leaving one. */
  const INGRESS: Byte := 1
  const EGRESS: Byte := 2

  const TCP: Byte := 6
  const UDP: Byte := 17

  /** Nanoseconds in a second. */
  const SECOND: nat := 1_000_000_000

  const U64_MAX: nat := 0xFFFF_FFFF_FFFF_FFFF

  function Min(a: int, b: int): int {
    if a <= b then a else b
  }

  function Max(a: int, b: int): int {
    if a <= b then b else a
  }
}
