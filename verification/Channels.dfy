/**
 The channels contract: its storage, its state-changing calls with their reverts, and the logs each
 call emits, in order.
 */
module Channels {
  import opened HoprTypes
  import opened Handlers

  datatype ContractStatus = CLOSED | OPEN | PENDING_TO_CLOSE

  datatype Channel = Channel(balance: nat, ticketIndex: nat, closureTime: nat, epoch: nat, status: ContractStatus)

  datatype Contract = Contract(channels: map<ChannelId, Channel>, noticePeriod: nat)

  const U24: nat := 0x1_000000
  const U32: nat := 0x1_0000_0000
  const U48: nat := 0x1_0000_0000_0000
  const U96: nat := 0x1_0000_0000_0000_0000_0000_0000
  const MAX_USED_BALANCE: nat := 10_000_000_000_000_000_000_000_000

  // `passes` stands for what the call checks outside this storage: that the node's Safe makes it, the
  // signature, the proof of relay, the winning condition and the token transfer.
  datatype Call =
    | FundChannel(self: Address, account: Address, amount: nat, passes: bool)
    | RedeemTicket(self: Address, source: Address, ticket: TicketData, passes: bool)
    | InitiateOutgoingChannelClosure(self: Address, destination: Address, timestamp: nat, passes: bool)
    | FinalizeOutgoingChannelClosure(self: Address, destination: Address, timestamp: nat, passes: bool)
    | CloseIncomingChannel(self: Address, source: Address, passes: bool)

  datatype TicketData = TicketData(amount: nat, ticketIndex: nat, indexOffset: nat, epoch: nat)

  datatype Receipt = Reverted | Mined(contract: Contract, logs: seq<ContractLog>)

  // Storage that was never written reads as zeros.
  function Get(c: Contract, id: ChannelId): Channel {
    if id in c.channels then c.channels[id] else Channel(0, 0, 0, 0, CLOSED)
  }

  function Set(c: Contract, id: ChannelId, channel: Channel): Contract {
    c.(channels := c.channels[id := channel])
  }

  function Fund(c: Contract, self: Address, account: Address, amount: nat, passes: bool): Receipt {
    var id := ChannelId(self, account);
    var channel := Get(c, id);
    var opening := channel.status == CLOSED;
    if amount < 1 || amount > MAX_USED_BALANCE then Reverted
    else if self == account || self == 0 || account == 0 then Reverted
    else if channel.status == PENDING_TO_CLOSE then Reverted
    else if channel.balance + amount >= U96 || (opening && channel.epoch + 1 >= U24) || !passes then Reverted
    else
      var funded := channel.(balance := channel.balance + amount);
      if opening then
        var open' := funded.(epoch := channel.epoch + 1, ticketIndex := 0, status := OPEN);
        Mined(Set(c, id, open'), [ChannelOpened(id), ChannelBalanceIncreased(id, funded.balance)])
      else
        Mined(Set(c, id, funded), [ChannelBalanceIncreased(id, funded.balance)])
  }

  function Redeem(c: Contract, self: Address, source: Address, ticket: TicketData, passes: bool): Receipt {
    var id := ChannelId(source, self);
    var spending := Get(c, id);
    if ticket.amount < 1 || ticket.amount > MAX_USED_BALANCE then Reverted
    else if spending.status == CLOSED || spending.epoch != ticket.epoch then Reverted
    else if ticket.indexOffset < 1 || ticket.ticketIndex < spending.ticketIndex then Reverted
    else if spending.balance < ticket.amount || !passes then Reverted
    else if ticket.ticketIndex + ticket.indexOffset >= U48 then Reverted
    else
      var spent := spending.(ticketIndex := ticket.ticketIndex + ticket.indexOffset, balance := spending.balance - ticket.amount);
      var paid := Set(c, id, spent);
      var logs := [ChannelBalanceDecreased(id, spent.balance), TicketRedeemed(id, spent.ticketIndex)];
      var back := ChannelId(self, source);
      var earning := Get(paid, back);
      if earning.status == CLOSED then Mined(paid, logs)
      else if earning.balance + ticket.amount >= U96 then Reverted
      else
        var earned := earning.(balance := earning.balance + ticket.amount);
        Mined(Set(paid, back, earned), logs + [ChannelBalanceIncreased(back, earned.balance)])
  }

  function Initiate(c: Contract, self: Address, destination: Address, timestamp: nat, passes: bool): Receipt {
    var id := ChannelId(self, destination);
    var channel := Get(c, id);
    if channel.status == CLOSED || timestamp % U32 + c.noticePeriod >= U32 || !passes then Reverted
    else
      var closureTime := timestamp % U32 + c.noticePeriod;
      Mined(Set(c, id, channel.(closureTime := closureTime, status := PENDING_TO_CLOSE)),
            [OutgoingChannelClosureInitiated(id, closureTime)])
  }

  function Close(c: Contract, id: ChannelId): Receipt {
    Mined(Set(c, id, Channel(0, 0, 0, Get(c, id).epoch, CLOSED)), [ChannelClosed(id)])
  }

  function Finalize(c: Contract, self: Address, destination: Address, timestamp: nat, passes: bool): Receipt {
    var id := ChannelId(self, destination);
    var channel := Get(c, id);
    if channel.status != PENDING_TO_CLOSE then Reverted
    else if channel.closureTime >= timestamp % U32 || !passes then Reverted
    else Close(c, id)
  }

  function CloseIncoming(c: Contract, self: Address, source: Address, passes: bool): Receipt {
    var id := ChannelId(source, self);
    if Get(c, id).status == CLOSED || !passes then Reverted
    else Close(c, id)
  }

  function Execute(c: Contract, call: Call): Receipt {
    match call
    case FundChannel(self, account, amount, passes) => Fund(c, self, account, amount, passes)
    case RedeemTicket(self, source, ticket, passes) => Redeem(c, self, source, ticket, passes)
    case InitiateOutgoingChannelClosure(self, destination, t, passes) => Initiate(c, self, destination, t, passes)
    case FinalizeOutgoingChannelClosure(self, destination, t, passes) => Finalize(c, self, destination, t, passes)
    case CloseIncomingChannel(self, source, passes) => CloseIncoming(c, self, source, passes)
  }

  /** A closed channel holds nothing, no channel opens to oneself or the zero address, an epoch counts openings. */
  ghost predicate Sound(c: Contract) {
    forall id :: id in c.channels ==>
      var channel := c.channels[id];
      && (channel.status == CLOSED ==> channel.balance == 0 && channel.ticketIndex == 0 && channel.closureTime == 0)
      && (channel.status != CLOSED ==> id.source != id.destination && id.source != 0 && id.destination != 0 && channel.epoch >= 1)
      && channel.balance < U96 && channel.ticketIndex < U48 && channel.epoch < U24 && channel.closureTime < U32
  }

  lemma RedeemStaysSound(c: Contract, call: Call)
    requires Sound(c) && call.RedeemTicket? && Execute(c, call).Mined?
    ensures Sound(Execute(c, call).contract)
  {
  }

  lemma ExecuteStaysSound(c: Contract, call: Call)
    requires Sound(c) && Execute(c, call).Mined?
    ensures Sound(Execute(c, call).contract)
  {
    hide Redeem;
    if call.RedeemTicket? {
      RedeemStaysSound(c, call);
    }
  }
}
