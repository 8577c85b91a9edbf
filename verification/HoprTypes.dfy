/** Values shared by the contract model, the event handlers and the action queue. */
module HoprTypes {

  datatype Option<+T> = None | Some(value: T)

  // A 20-byte account address; 0 stands for the zero address.
  type Address = nat

  // The hash of the two parties, kept as an injective token.
  datatype ChannelId = ChannelId(source: Address, destination: Address)

  // Closure times are whole seconds since the epoch.
  datatype ChannelStatus = Closed | Open | PendingToClose(closureTime: nat)

  datatype ChannelDirection = Incoming | Outgoing

  /** How a node with address `me` takes part in the channel, if at all. */
  function DirectionOf(id: ChannelId, me: Address): Option<ChannelDirection> {
    if id.source == me then Some(Outgoing)
    else if id.destination == me then Some(Incoming)
    else None
  }

  predicate Own(id: ChannelId, me: Address) {
    id.source == me || id.destination == me
  }

  /** A row of the channel table, whose key is the channel id. */
  datatype ChannelEntry = ChannelEntry(
    balance: nat,
    ticketIndex: nat,
    status: ChannelStatus,
    epoch: nat)

  // Subtraction of two balances, which never goes below zero.
  function SatSub(a: nat, b: nat): nat {
    if a >= b then a - b else 0
  }

  const MAX_U256: nat := 0x1_0000_0000_0000_0000_0000_0000_0000_0000_0000_0000_0000_0000_0000_0000_0000_0000 - 1

  // Addition of two balances, which never exceeds 256 bits.
  function SatAdd(a: nat, b: nat): nat {
    if a + b <= MAX_U256 then a + b else MAX_U256
  }

  /** There is always a number beyond all those in use. */
  lemma {:induction false} Unused(used: set<nat>) returns (n: nat)
    ensures forall a :: a in used ==> a < n
    decreases used
  {
    if used == {} {
      n := 0;
    } else {
      var a :| a in used;
      var rest := Unused(used - {a});
      n := if rest > a then rest else a + 1;
      assert used == (used - {a}) + {a};
    }
  }
}
