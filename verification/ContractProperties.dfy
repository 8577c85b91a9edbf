/** What the channels contract guarantees: when calls are mined, where tokens go, and that tickets pay once. */
module ContractProperties {
  import opened HoprTypes
  import opened Handlers
  import opened Channels
  import opened LedgerRefinement

  // ---------- when a call is mined ----------

  /** Every call is mined exactly if these conditions on the channel, the arguments and the outside checks hold. */
  lemma MinedExactly(c: Contract, call: Call)
    requires Sound(c)
    ensures Execute(c, call).Mined? <==>
      match call
      case FundChannel(self, account, amount, passes) =>
        var channel := Get(c, ChannelId(self, account));
        && passes && 1 <= amount <= MAX_USED_BALANCE && self != account && self != 0 && account != 0
        && channel.status != PENDING_TO_CLOSE && channel.balance + amount < U96
        && (channel.status == CLOSED ==> channel.epoch + 1 < U24)
      case RedeemTicket(self, source, ticket, passes) =>
        var channel, back := Get(c, ChannelId(source, self)), Get(c, ChannelId(self, source));
        && passes && 1 <= ticket.amount <= MAX_USED_BALANCE && ticket.amount <= channel.balance
        && channel.status != CLOSED && channel.epoch == ticket.epoch
        && ticket.indexOffset >= 1 && channel.ticketIndex <= ticket.ticketIndex
        && ticket.ticketIndex + ticket.indexOffset < U48
        && (back.status != CLOSED ==> back.balance + ticket.amount < U96)
      case InitiateOutgoingChannelClosure(self, destination, timestamp, passes) =>
        && passes && Get(c, ChannelId(self, destination)).status != CLOSED
        && timestamp % U32 + c.noticePeriod < U32
      case FinalizeOutgoingChannelClosure(self, destination, timestamp, passes) =>
        && passes && Get(c, ChannelId(self, destination)).status == PENDING_TO_CLOSE
        && Get(c, ChannelId(self, destination)).closureTime < timestamp % U32
      case CloseIncomingChannel(self, source, passes) =>
        passes && Get(c, ChannelId(source, self)).status != CLOSED
  {
  }

  /** A mined initiation makes the channel pending until block time plus notice period, and says so. */
  lemma InitiationWaits(c: Contract, self: Address, destination: Address, timestamp: nat, passes: bool)
    requires Initiate(c, self, destination, timestamp, passes).Mined?
    ensures var id, receipt := ChannelId(self, destination), Initiate(c, self, destination, timestamp, passes);
      var before, after := Get(c, id), Get(receipt.contract, id);
      && after.status == PENDING_TO_CLOSE && after.closureTime == timestamp % U32 + c.noticePeriod
      && after.balance == before.balance && after.ticketIndex == before.ticketIndex && after.epoch == before.epoch
      && receipt.logs == [OutgoingChannelClosureInitiated(id, after.closureTime)]
  {
  }

  /** A call changes the channel it is about and, for a redemption, the channel back; no others. */
  lemma CallTouchesOnly(c: Contract, call: Call, id: ChannelId)
    requires Execute(c, call).Mined?
    ensures Get(Execute(c, call).contract, id) != Get(c, id) ==>
      match call
      case FundChannel(self, account, _, _) => id == ChannelId(self, account)
      case RedeemTicket(self, source, _, _) => id == ChannelId(source, self) || id == ChannelId(self, source)
      case InitiateOutgoingChannelClosure(self, destination, _, _) => id == ChannelId(self, destination)
      case FinalizeOutgoingChannelClosure(self, destination, _, _) => id == ChannelId(self, destination)
      case CloseIncomingChannel(self, source, _) => id == ChannelId(source, self)
    ensures Execute(c, call).contract.noticePeriod == c.noticePeriod
  {
  }

  // ---------- where tokens go ----------

  /** The tokens locked in the given channels. */
  ghost function Locked(channels: map<ChannelId, Channel>, ids: set<ChannelId>): nat
    requires ids <= channels.Keys
  {
    if ids == {} then 0
    else
      var id :| id in ids;
      channels[id].balance + Locked(channels, ids - {id})
  }

  lemma {:induction false} LockedRemove(channels: map<ChannelId, Channel>, ids: set<ChannelId>, id: ChannelId)
    requires ids <= channels.Keys && id in ids
    ensures Locked(channels, ids) == channels[id].balance + Locked(channels, ids - {id})
    decreases ids
  {
    var j :| j in ids && Locked(channels, ids) == channels[j].balance + Locked(channels, ids - {j});
    if j != id {
      LockedRemove(channels, ids - {j}, id);
      LockedRemove(channels, ids - {id}, j);
      assert ids - {j} - {id} == ids - {id} - {j};
    }
  }

  lemma {:induction false} LockedSame(x: map<ChannelId, Channel>, y: map<ChannelId, Channel>, ids: set<ChannelId>)
    requires ids <= x.Keys && ids <= y.Keys && forall id :: id in ids ==> x[id].balance == y[id].balance
    ensures Locked(x, ids) == Locked(y, ids)
    decreases ids
  {
    if ids != {} {
      var id :| id in ids;
      LockedSame(x, y, ids - {id});
      LockedRemove(x, ids, id);
      LockedRemove(y, ids, id);
    }
  }

  ghost function TotalLocked(c: Contract): nat {
    Locked(c.channels, c.channels.Keys)
  }

  lemma LockedAfterSet(c: Contract, id: ChannelId, channel: Channel)
    ensures TotalLocked(Set(c, id, channel)) + Get(c, id).balance == TotalLocked(c) + channel.balance
  {
    var after := Set(c, id, channel).channels;
    LockedRemove(after, after.Keys, id);
    var others := after.Keys - {id};
    LockedSame(c.channels, after, others);
    if id in c.channels {
      LockedRemove(c.channels, c.channels.Keys, id);
      assert c.channels.Keys - {id} == others;
    } else {
      assert c.channels.Keys == others;
    }
  }

  /** What a mined call brings into the contract, or pays out if negative. */
  function Inflow(c: Contract, call: Call): int {
    match call
    case FundChannel(_, _, amount, _) => amount
    case RedeemTicket(self, source, ticket, _) =>
      if Get(c, ChannelId(self, source)).status == CLOSED then 0 - ticket.amount else 0
    case InitiateOutgoingChannelClosure(_, _, _, _) => 0
    case FinalizeOutgoingChannelClosure(self, destination, _, _) => 0 - Get(c, ChannelId(self, destination)).balance
    case CloseIncomingChannel(self, source, _) => 0 - Get(c, ChannelId(source, self)).balance
  }

  lemma RedemptionKeepsTokens(c: Contract, call: Call)
    requires Sound(c) && call.RedeemTicket? && Execute(c, call).Mined?
    ensures TotalLocked(Execute(c, call).contract) == TotalLocked(c) + Inflow(c, call)
  {
    hide TotalLocked;
    var id, back := ChannelId(call.source, call.self), ChannelId(call.self, call.source);
    var spending := Get(c, id);
    var spent := spending.(ticketIndex := call.ticket.ticketIndex + call.ticket.indexOffset, balance := spending.balance - call.ticket.amount);
    LockedAfterSet(c, id, spent);
    var paid := Set(c, id, spent);
    var earning := Get(paid, back);
    LockedAfterSet(paid, back, earning.(balance := earning.balance + call.ticket.amount));
  }

  lemma CallKeepsTokens(c: Contract, call: Call)
    requires Sound(c) && Execute(c, call).Mined?
    ensures TotalLocked(Execute(c, call).contract) == TotalLocked(c) + Inflow(c, call)
  {
    hide TotalLocked;
    var after := Execute(c, call).contract;
    match call
    case FundChannel(self, account, _, _) => LockedAfterSet(c, ChannelId(self, account), Get(after, ChannelId(self, account)));
    case RedeemTicket(_, _, _, _) => RedemptionKeepsTokens(c, call);
    case InitiateOutgoingChannelClosure(self, destination, _, _) =>
      LockedAfterSet(c, ChannelId(self, destination), Get(after, ChannelId(self, destination)));
    case FinalizeOutgoingChannelClosure(self, destination, _, _) =>
      LockedAfterSet(c, ChannelId(self, destination), Get(after, ChannelId(self, destination)));
    case CloseIncomingChannel(self, source, _) => LockedAfterSet(c, ChannelId(source, self), Get(after, ChannelId(source, self)));
  }

  function TotalInflow(c: Contract, steps: seq<ChainStep>): int
    decreases |steps|
  {
    if steps == [] then 0
    else
      (if steps[0].Transaction? && Execute(c, steps[0].call).Mined? then Inflow(c, steps[0].call) else 0)
      + TotalInflow(ContractAfter(c, steps[0]), steps[1..])
  }

  /** Over every run, the tokens in channels are those brought in less those paid out: none is made or lost. */
  lemma {:induction false} RunKeepsTokens(c: Contract, steps: seq<ChainStep>)
    requires Sound(c)
    ensures TotalLocked(RunContract(c, steps)) == TotalLocked(c) + TotalInflow(c, steps)
    decreases |steps|
  {
    hide Execute;
    hide Sound;
    hide TotalLocked;
    hide Inflow;
    if steps != [] {
      if steps[0].Transaction? && Execute(c, steps[0].call).Mined? {
        CallKeepsTokens(c, steps[0].call);
        ExecuteStaysSound(c, steps[0].call);
      }
      RunKeepsTokens(ContractAfter(c, steps[0]), steps[1..]);
    }
  }

  // ---------- a ticket pays once ----------

  /** The channel has moved past an index of an epoch: to a later epoch, or its end, or a later index. */
  predicate Spent(channel: Channel, epoch: nat, index: nat) {
    channel.epoch > epoch || (channel.epoch == epoch && (channel.status == CLOSED || channel.ticketIndex > index))
  }

  lemma RedeemingSpends(c: Contract, self: Address, source: Address, ticket: TicketData, passes: bool)
    requires Sound(c) && Redeem(c, self, source, ticket, passes).Mined?
    ensures Spent(Get(Redeem(c, self, source, ticket, passes).contract, ChannelId(source, self)),
      ticket.epoch, ticket.ticketIndex + ticket.indexOffset - 1)
  {
  }

  lemma SpentStays(c: Contract, call: Call, id: ChannelId, epoch: nat, index: nat)
    requires Execute(c, call).Mined? && Spent(Get(c, id), epoch, index)
    ensures Spent(Get(Execute(c, call).contract, id), epoch, index)
  {
  }

  lemma {:induction false} SpentForEver(c: Contract, steps: seq<ChainStep>, id: ChannelId, epoch: nat, index: nat)
    requires Spent(Get(c, id), epoch, index)
    ensures Spent(Get(RunContract(c, steps), id), epoch, index)
    decreases |steps|
  {
    hide Execute;
    hide Spent;
    if steps != [] {
      if steps[0].Transaction? && Execute(c, steps[0].call).Mined? {
        SpentStays(c, steps[0].call, id, epoch, index);
      }
      SpentForEver(ContractAfter(c, steps[0]), steps[1..], id, epoch, index);
    }
  }

  /** No ticket of the epoch with an index that a redeemed one covers, or an earlier one, is ever paid after it. */
  lemma RedeemedAtMostOnce(
    c: Contract, self: Address, source: Address, ticket: TicketData, steps: seq<ChainStep>, again: TicketData, passes: bool)
    requires Sound(c) && Redeem(c, self, source, ticket, true).Mined?
    requires again.epoch == ticket.epoch && again.ticketIndex < ticket.ticketIndex + ticket.indexOffset
    ensures Redeem(RunContract(Redeem(c, self, source, ticket, true).contract, steps), self, source, again, passes) == Reverted
  {
    RedeemingSpends(c, self, source, ticket, true);
    SpentForEver(Redeem(c, self, source, ticket, true).contract, steps, ChannelId(source, self),
      ticket.epoch, ticket.ticketIndex + ticket.indexOffset - 1);
  }
}
