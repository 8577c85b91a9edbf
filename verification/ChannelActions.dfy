/** The checks a node makes before it queues a channel action, and how far they reach towards the contract. */
module ChannelActions {
  import opened HoprTypes
  import opened TicketStore
  import opened Handlers
  import opened HandlerProperties
  import opened Channels
  import opened LedgerRefinement
  import opened Payload
  import opened ActionQueue

  datatype GuardError =
    | InvalidArgument
    | NotEnoughAllowance
    | BalanceTooLow
    | InvalidChannelStake
    | PeerAccessDenied
    | ChannelAlreadyExists
    | ChannelUnknown
    | ChannelUnopened
    | AlreadyClosed
    | ClosureTimeHasNotElapsed(remaining: nat)
    | RedemptionFailed

  datatype Guarded = Accepted(action: Action) | Refused(error: GuardError)

  // `admitted` tells whether the network registry is off or lists the destination.
  function OpenChannel(me: Address, index: Index, admitted: bool, destination: Address, amount: nat): Guarded {
    var id := ChannelId(me, destination);
    if me == destination || amount == 0 then Refused(InvalidArgument)
    else if index.safeAllowance < amount then Refused(NotEnoughAllowance)
    else if index.safeBalance < amount then Refused(BalanceTooLow)
    else if MAX_CHANNEL_BALANCE < amount then Refused(InvalidChannelStake)
    else if !admitted then Refused(PeerAccessDenied)
    else if id in index.channels && index.channels[id].status != Closed then Refused(ChannelAlreadyExists)
    else Accepted(OpenChannelAction(destination, amount))
  }

  function FundChannel(index: Index, id: ChannelId, amount: nat): Guarded {
    if amount == 0 then Refused(InvalidArgument)
    else if index.safeAllowance < amount then Refused(NotEnoughAllowance)
    else if index.safeBalance < amount then Refused(BalanceTooLow)
    else if id !in index.channels then Refused(ChannelUnknown)
    else if index.channels[id].status != Open then Refused(ChannelUnopened)
    else if SatAdd(index.channels[id].balance, amount) > MAX_CHANNEL_BALANCE then Refused(InvalidChannelStake)
    else Accepted(FundChannelAction(id, index.channels[id], amount))
  }

  function Between(me: Address, counterparty: Address, direction: ChannelDirection): ChannelId {
    if direction == Incoming then ChannelId(counterparty, me) else ChannelId(me, counterparty)
  }

  // `redeem` is None when the tickets are not to be redeemed first, else whether redeeming them succeeds.
  function CloseChannel(
    me: Address, index: Index, counterparty: Address, direction: ChannelDirection, redeem: Option<bool>, now: nat): Guarded
  {
    var id := Between(me, counterparty, direction);
    if id !in index.channels then Refused(ChannelUnknown)
    else
      var entry := index.channels[id];
      match entry.status
      case Closed => Refused(AlreadyClosed)
      case PendingToClose(t) =>
        if SatSub(t, now) == 0 then Accepted(CloseChannelAction(id, entry, direction))
        else Refused(ClosureTimeHasNotElapsed(SatSub(t, now)))
      case Open =>
        if redeem == Some(false) && direction == Incoming then Refused(RedemptionFailed)
        else Accepted(CloseChannelAction(id, entry, direction))
  }

  /** When the Safe allows for and holds an amount. */
  predicate Affordable(index: Index, amount: nat) {
    1 <= amount <= index.safeAllowance && amount <= index.safeBalance
  }

  /** An opening is accepted exactly if all its conditions hold, and a refusal names the first that does not. */
  lemma OpenGuardExactly(me: Address, index: Index, admitted: bool, destination: Address, amount: nat)
    ensures var id, r := ChannelId(me, destination), OpenChannel(me, index, admitted, destination, amount);
      var closed := id !in index.channels || index.channels[id].status == Closed;
      var sound := me != destination && amount > 0;
      && (r == Accepted(OpenChannelAction(destination, amount)) <==>
            sound && Affordable(index, amount) && amount <= MAX_CHANNEL_BALANCE && admitted && closed)
      && (r.Accepted? ==> r == Accepted(OpenChannelAction(destination, amount)))
      && (r == Refused(InvalidArgument) <==> !sound)
      && (r == Refused(NotEnoughAllowance) <==> sound && amount > index.safeAllowance)
      && (r == Refused(BalanceTooLow) <==> sound && index.safeBalance < amount <= index.safeAllowance)
      && (r == Refused(InvalidChannelStake) <==> sound && Affordable(index, amount) && amount > MAX_CHANNEL_BALANCE)
      && (r == Refused(PeerAccessDenied) <==>
            sound && Affordable(index, amount) && amount <= MAX_CHANNEL_BALANCE && !admitted)
      && (r == Refused(ChannelAlreadyExists) <==>
            sound && Affordable(index, amount) && amount <= MAX_CHANNEL_BALANCE && admitted && !closed)
  {
  }

  /** The same for funding, which needs a known open channel with room for the amount. */
  lemma FundGuardExactly(index: Index, id: ChannelId, amount: nat)
    ensures var r := FundChannel(index, id, amount);
      var affordable, known := Affordable(index, amount), id in index.channels;
      var open' := known && index.channels[id].status == Open;
      var room := known && index.channels[id].balance + amount <= MAX_CHANNEL_BALANCE;
      && (r.Accepted? <==> affordable && open' && room)
      && (r.Accepted? ==> r == Accepted(FundChannelAction(id, index.channels[id], amount)))
      && (r == Refused(InvalidArgument) <==> amount == 0)
      && (r == Refused(NotEnoughAllowance) <==> amount > 0 && amount > index.safeAllowance)
      && (r == Refused(BalanceTooLow) <==> amount > 0 && index.safeBalance < amount <= index.safeAllowance)
      && (r == Refused(ChannelUnknown) <==> affordable && !known)
      && (r == Refused(ChannelUnopened) <==> affordable && known && !open')
      && (r == Refused(InvalidChannelStake) <==> affordable && open' && !room)
  {
  }

  /**
   A closing is accepted exactly for a known channel between the two that is open, unless a redemption asked for
   before closing an incoming one fails, or that is pending and whose closure time has come.
   */
  lemma CloseGuardExactly(
    me: Address, index: Index, counterparty: Address, direction: ChannelDirection, redeem: Option<bool>, now: nat)
    ensures var r := CloseChannel(me, index, counterparty, direction, redeem, now);
      var id := if direction == Incoming then ChannelId(counterparty, me) else ChannelId(me, counterparty);
      var known := id in index.channels;
      var open', closed := known && index.channels[id].status == Open, known && index.channels[id].status == Closed;
      var pending := known && index.channels[id].status.PendingToClose?;
      var failed := direction == Incoming && redeem == Some(false);
      && (r.Accepted? <==> (open' && !failed) || (pending && index.channels[id].status.closureTime <= now))
      && (r.Accepted? ==> r == Accepted(CloseChannelAction(id, index.channels[id], direction)))
      && (r == Refused(ChannelUnknown) <==> !known)
      && (r == Refused(AlreadyClosed) <==> closed)
      && (r == Refused(RedemptionFailed) <==> open' && failed)
      && (r.Refused? && r.error.ClosureTimeHasNotElapsed? <==> pending && now < index.channels[id].status.closureTime)
      && (r.Refused? && r.error.ClosureTimeHasNotElapsed? ==> now + r.error.remaining == index.channels[id].status.closureTime)
  {
  }

  /** Opening passes every local check, and the request carries the whole stake. */
  lemma AcceptedOpenIsSubmitted(me: Address, index: Index, admitted: bool, destination: Address, amount: nat)
    requires OpenChannel(me, index, admitted, destination, amount).Accepted?
    ensures var action := OpenChannel(me, index, admitted, destination, amount).action;
      Prepare(me, action) == Submitted(FundChannelRequest(destination, amount))
  {
    FundLosesNoBits(me, destination, amount);
  }

  /** Funding passes every later local check exactly when the channel does not lead to this node. */
  lemma AcceptedFundIsSubmittedExactly(me: Address, index: Index, id: ChannelId, amount: nat)
    requires FundChannel(index, id, amount).Accepted?
    ensures var action := FundChannel(index, id, amount).action;
      && (Prepare(me, action).Submitted? <==> id.destination != me)
      && (Prepare(me, action).Submitted? ==> Prepare(me, action) == Submitted(FundChannelRequest(id.destination, amount)))
  {
    FundLosesNoBits(me, id.destination, amount);
  }

  /** Closing passes every later local check exactly when the counterparty is another node. */
  lemma AcceptedCloseIsSubmittedExactly(
    me: Address, index: Index, counterparty: Address, direction: ChannelDirection, redeem: Option<bool>, now: nat)
    requires CloseChannel(me, index, counterparty, direction, redeem, now).Accepted?
    ensures Prepare(me, CloseChannel(me, index, counterparty, direction, redeem, now).action).Submitted? <==> counterparty != me
  {
  }

  /**
   With an index that agrees with the contract, an accepted opening is mined exactly if the transfer passes,
   neither party is the zero address and the channel has an epoch left; it is then confirmed by its own logs.
   */
  lemma AcceptedOpenIsMinedExactly(
    cfg: Config, contract: Contract, index: Index, admitted: bool, destination: Address, amount: nat, timestamp: nat, passes: bool)
    requires Sound(contract) && Agrees(cfg, contract, index)
    requires OpenChannel(cfg.me, index, admitted, destination, amount).Accepted?
    ensures var action := OpenChannel(cfg.me, index, admitted, destination, amount).action;
      var id := ChannelId(cfg.me, destination);
      && Prepare(cfg.me, action).Submitted?
      && Confirmable(cfg.me, contract, action)
      && (Execute(contract, CallOf(cfg.me, Prepare(cfg.me, action).request, timestamp, passes)).Mined? <==>
            passes && cfg.me != 0 && destination != 0 && Get(contract, id).epoch + 1 < U24)
  {
    var id := ChannelId(cfg.me, destination);
    AcceptedOpenIsSubmitted(cfg.me, index, admitted, destination, amount);
    assert EntryOf(index, id) == Expected(cfg.me, id, Get(contract, id));
  }

  /** An accepted funding of an outgoing channel is mined exactly if the token transfer passes. */
  lemma AcceptedFundIsMinedExactly(
    cfg: Config, contract: Contract, index: Index, id: ChannelId, amount: nat, timestamp: nat, passes: bool)
    requires Sound(contract) && Agrees(cfg, contract, index) && id.source == cfg.me
    requires FundChannel(index, id, amount).Accepted?
    ensures var action := FundChannel(index, id, amount).action;
      && Prepare(cfg.me, action).Submitted?
      && Confirmable(cfg.me, contract, action)
      && (Execute(contract, CallOf(cfg.me, Prepare(cfg.me, action).request, timestamp, passes)).Mined? <==> passes)
  {
    assert EntryOf(index, id) == Expected(cfg.me, id, Get(contract, id));
    AcceptedFundIsSubmittedExactly(cfg.me, index, id, amount);
  }

  /**
   An accepted closing is mined exactly if the call passes and, for an open outgoing channel, the closure time
   fits its field, for a pending one, the block is strictly later than the closure time.
   */
  lemma AcceptedCloseIsMinedExactly(
    cfg: Config, contract: Contract, index: Index, counterparty: Address, direction: ChannelDirection, redeem: Option<bool>,
    now: nat, timestamp: nat, passes: bool)
    requires Sound(contract) && Agrees(cfg, contract, index)
    requires CloseChannel(cfg.me, index, counterparty, direction, redeem, now).Accepted?
    ensures var action := CloseChannel(cfg.me, index, counterparty, direction, redeem, now).action;
      && Prepare(cfg.me, action).Submitted?
      && Confirmable(cfg.me, contract, action)
      && (Execute(contract, CallOf(cfg.me, Prepare(cfg.me, action).request, timestamp, passes)).Mined? <==>
            passes
            && (direction == Outgoing && action.entry.status == Open ==> timestamp % U32 + contract.noticePeriod < U32)
            && (direction == Outgoing && action.entry.status != Open ==> action.entry.status.closureTime < timestamp % U32))
  {
    var id := Between(cfg.me, counterparty, direction);
    assert EntryOf(index, id) == Expected(cfg.me, id, Get(contract, id));
  }

  /**
   The node lets a closure be finalized from the closure time on, the contract only after it. So when the
   node's clock shows the block's time, a finalization it accepts is rejected in exactly that one second.
   */
  lemma FinalizedOneSecondEarly(
    cfg: Config, contract: Contract, index: Index, counterparty: Address, redeem: Option<bool>, now: nat)
    requires Sound(contract) && Agrees(cfg, contract, index) && now < U32
    requires CloseChannel(cfg.me, index, counterparty, Outgoing, redeem, now).Accepted?
    requires index.channels[ChannelId(cfg.me, counterparty)].status.PendingToClose?
    ensures var action := CloseChannel(cfg.me, index, counterparty, Outgoing, redeem, now).action;
      && Prepare(cfg.me, action).Submitted?
      && (Execute(contract, CallOf(cfg.me, Prepare(cfg.me, action).request, now, true)).Mined? <==>
            now != index.channels[ChannelId(cfg.me, counterparty)].status.closureTime)
  {
    AcceptedCloseIsMinedExactly(cfg, contract, index, counterparty, Outgoing, redeem, now, now, true);
  }

  /** The node makes the receiving end of a pending channel wait for the closure time; the contract would not. */
  lemma IncomingCloseWaitsNeedlessly(
    cfg: Config, contract: Contract, index: Index, counterparty: Address, redeem: Option<bool>, now: nat)
    requires Sound(contract) && Agrees(cfg, contract, index)
    requires Get(contract, ChannelId(counterparty, cfg.me)).status == PENDING_TO_CLOSE
    ensures Execute(contract, CloseIncomingChannel(cfg.me, counterparty, true)).Mined?
    ensures CloseChannel(cfg.me, index, counterparty, Incoming, redeem, now).Accepted?
       <==> Get(contract, ChannelId(counterparty, cfg.me)).closureTime <= now
  {
    var id := ChannelId(counterparty, cfg.me);
    assert EntryOf(index, id) == Expected(cfg.me, id, Get(contract, id));
  }

  /**
   Funding accepts any open channel the node knows, but the transaction always pays this node's own channel
   to the same destination: for a channel between others no event of it can confirm the action.
   */
  lemma ForeignFundIsNeverConfirmed(cfg: Config, contract: Contract, index: Index, id: ChannelId, amount: nat, timestamp: nat)
    requires Sound(contract) && Agrees(cfg, contract, index) && RangesDisjoint(index.store.tickets)
    requires !Own(id, cfg.me) && FundChannel(index, id, amount).Accepted?
    ensures var action := FundChannel(index, id, amount).action;
      && Prepare(cfg.me, action).Submitted?
      && var receipt := Execute(contract, CallOf(cfg.me, Prepare(cfg.me, action).request, timestamp, true));
         receipt.Mined? ==>
           && !HasConfirmation(action, EventsOf(cfg, index, receipt.logs))
           && Get(receipt.contract, id) == Get(contract, id)
           && Get(receipt.contract, ChannelId(cfg.me, id.destination)).balance
              == Get(contract, ChannelId(cfg.me, id.destination)).balance + amount
  {
    AcceptedFundIsSubmittedExactly(cfg.me, index, id, amount);
    var action := FundChannel(index, id, amount).action;
    var receipt := Execute(contract, CallOf(cfg.me, Prepare(cfg.me, action).request, timestamp, true));
    if receipt.Mined? {
      MinedActionIsConfirmed(cfg, contract, index, action, timestamp, true);
    }
  }
}
