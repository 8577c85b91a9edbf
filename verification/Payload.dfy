/** The transaction requests for the channels contract: argument checks and the narrowing to contract widths. */
module Payload {
  import opened HoprTypes
  import opened Channels
  import opened BigEndian

  const MAX_CHANNEL_BALANCE: nat := 10_000_000_000_000_000_000_000_000

  // A ticket as the node holds it: 256-bit amount, 64-bit index, 32-bit offset, 32-bit epoch.
  datatype RedeemableTicket = RedeemableTicket(
    id: ChannelId, amount: nat, index: nat, indexOffset: nat, epoch: nat, signed: bool)

  datatype Request =
    | FundChannelRequest(account: Address, amount: nat)
    | CloseIncomingRequest(source: Address)
    | InitiateClosureRequest(destination: Address)
    | FinalizeClosureRequest(destination: Address)
    | RedeemRequest(id: ChannelId, ticket: TicketData)

  datatype Generated = Tx(request: Request) | InvalidArguments

  function Pow10(n: nat): nat {
    if n == 0 then 1 else 10 * Pow10(n - 1)
  }

  /** No channel holds more than 10^25. */
  lemma LargestBalance()
    ensures MAX_CHANNEL_BALANCE == MAX_USED_BALANCE == Pow10(25)
  {
    assert Pow10(5) == 10 * (10 * (10 * (10 * (10 * Pow10(0)))));
    assert Pow10(10) == 10 * (10 * (10 * (10 * (10 * Pow10(5)))));
    assert Pow10(15) == 10 * (10 * (10 * (10 * (10 * Pow10(10)))));
    assert Pow10(20) == 10 * (10 * (10 * (10 * (10 * Pow10(15)))));
    assert Pow10(25) == 10 * (10 * (10 * (10 * (10 * Pow10(20)))));
  }

  /** The constants are the contract's field widths and the largest 256-bit number. */
  lemma Widths()
    ensures Pow256(12) == U96 && Pow256(6) == U48 && Pow256(3) == U24 && Pow256(4) == U32
    ensures Pow256(32) == MAX_U256 + 1
  {
    assert Pow256(16) == 256 * (256 * (256 * (256 * Pow256(12))));
    assert Pow256(20) == 256 * (256 * (256 * (256 * Pow256(16))));
    assert Pow256(24) == 256 * (256 * (256 * (256 * Pow256(20))));
    assert Pow256(28) == 256 * (256 * (256 * (256 * Pow256(24))));
    assert Pow256(32) == 256 * (256 * (256 * (256 * Pow256(28))));
    assert Pow256(3) == 256 * (256 * (256 * Pow256(0)));
    assert Pow256(6) == 256 * (256 * (256 * Pow256(3)));
    assert Pow256(9) == 256 * (256 * (256 * Pow256(6)));
    assert Pow256(12) == 256 * (256 * (256 * Pow256(9)));
  }

  function GenerateFund(me: Address, destination: Address, amount: nat): Generated {
    if destination == me || amount > MAX_CHANNEL_BALANCE then InvalidArguments
    else Tx(FundChannelRequest(destination, Narrow(amount, 32, 12)))
  }

  function GenerateCloseIncoming(me: Address, source: Address): Generated {
    if source == me then InvalidArguments else Tx(CloseIncomingRequest(source))
  }

  function GenerateInitiateClosure(me: Address, destination: Address): Generated {
    if destination == me then InvalidArguments else Tx(InitiateClosureRequest(destination))
  }

  function GenerateFinalizeClosure(me: Address, destination: Address): Generated {
    if destination == me then InvalidArguments else Tx(FinalizeClosureRequest(destination))
  }

  function GenerateRedeem(ticket: RedeemableTicket): Generated {
    if !ticket.signed then InvalidArguments
    else Tx(RedeemRequest(ticket.id, TicketData(
      Narrow(ticket.amount, 32, 12), Narrow(ticket.index, 8, 6), ticket.indexOffset, Narrow(ticket.epoch, 4, 3))))
  }

  // What the ticket builder lets through. Its bounds on index and epoch include the bound itself.
  predicate Buildable(ticket: RedeemableTicket) {
    && ticket.signed && ticket.amount < MAX_CHANNEL_BALANCE
    && ticket.index <= U48 && ticket.epoch <= U24 && 1 <= ticket.indexOffset < U32
  }

  predicate LosesNoBits(ticket: RedeemableTicket, data: TicketData) {
    data.amount == ticket.amount && data.ticketIndex == ticket.index
    && data.indexOffset == ticket.indexOffset && data.epoch == ticket.epoch
  }

  /** No fund request ever carries another amount than the one asked for. */
  lemma FundLosesNoBits(me: Address, destination: Address, amount: nat)
    ensures var g := GenerateFund(me, destination, amount);
      g.Tx? ==> g.request == FundChannelRequest(destination, amount)
  {
    var _ := NarrowKeepsLowBytes(amount, 32, 12);
    Widths();
  }

  /** A buildable ticket reaches the contract unchanged unless its index or epoch sits on the builder's bound. */
  lemma RedeemLosesNoBitsExactly(ticket: RedeemableTicket)
    requires Buildable(ticket)
    ensures GenerateRedeem(ticket).Tx?
    ensures LosesNoBits(ticket, GenerateRedeem(ticket).request.ticket) <==> ticket.index != U48 && ticket.epoch != U24
  {
    var _ := NarrowKeepsLowBytes(ticket.amount, 32, 12);
    var _ := NarrowKeepsLowBytes(ticket.index, 8, 6);
    var _ := NarrowKeepsLowBytes(ticket.epoch, 4, 3);
    Widths();
  }
}
