/**
 Executing a queued action: the transaction it submits, the event it then waits for, and what the node's
 own indexing of that transaction's logs makes of the wait.
 */
module ActionQueue {
  import opened HoprTypes
  import opened TicketStore
  import opened Handlers
  import opened HandlerProperties
  import opened Channels
  import opened LedgerRefinement
  import opened Payload
  import Tracking = ActionTracker
  import Confirmations

  // An action carries the channel as its caller saw it, which may be out of date when it is executed.
  datatype Action =
    | RedeemTicketAction(ticket: RedeemableTicket)
    | OpenChannelAction(destination: Address, amount: nat)
    | FundChannelAction(id: ChannelId, entry: ChannelEntry, amount: nat)
    | CloseChannelAction(id: ChannelId, entry: ChannelEntry, direction: ChannelDirection)

  datatype Prepared = Submitted(request: Request) | ChannelNotOpened | ChannelAlreadyClosed | BadArguments

  function Generates(generated: Generated): Prepared {
    match generated
    case Tx(request) => Submitted(request)
    case InvalidArguments => BadArguments
  }

  /** What an action submits, unless its channel's status or the request generator stops it first. */
  function Prepare(me: Address, action: Action): Prepared {
    match action
    case RedeemTicketAction(ticket) => Generates(GenerateRedeem(ticket))
    case OpenChannelAction(destination, amount) => Generates(GenerateFund(me, destination, amount))
    case FundChannelAction(id, entry, amount) =>
      if entry.status == Open then Generates(GenerateFund(me, id.destination, amount)) else ChannelNotOpened
    case CloseChannelAction(id, entry, direction) =>
      if entry.status == Closed then ChannelAlreadyClosed
      else if direction == Incoming then Generates(GenerateCloseIncoming(me, id.source))
      else if entry.status == Open then Generates(GenerateInitiateClosure(me, id.destination))
      else Generates(GenerateFinalizeClosure(me, id.destination))
  }

  /** The event an action waits for. */
  predicate Satisfies(action: Action, event: ChainEvent) {
    match action
    case RedeemTicketAction(ticket) => event.TicketRedeemedEvent? && event.id == ticket.id
    case OpenChannelAction(destination, _) => event.OpenedEvent? && event.id.destination == destination
    case FundChannelAction(id, _, amount) => event.BalanceIncreasedEvent? && event.id == id && event.diff == amount
    case CloseChannelAction(id, entry, direction) =>
      if direction == Outgoing && entry.status == Open then event.ClosureInitiatedEvent? && event.id == id
      else event.ClosedEvent? && event.id == id
  }

  // The contract call behind a request. A ticket of a channel to someone else fails the contract's checks.
  function CallOf(me: Address, request: Request, timestamp: nat, passes: bool): Call {
    match request
    case FundChannelRequest(account, amount) => FundChannel(me, account, amount, passes)
    case CloseIncomingRequest(source) => CloseIncomingChannel(me, source, passes)
    case InitiateClosureRequest(destination) => InitiateOutgoingChannelClosure(me, destination, timestamp, passes)
    case FinalizeClosureRequest(destination) => FinalizeOutgoingChannelClosure(me, destination, timestamp, passes)
    case RedeemRequest(id, ticket) => RedeemTicket(me, id.source, ticket, passes && id.destination == me)
  }

  lemma EventsOfFew(cfg: Config, index: Index, a: ContractLog, b: ContractLog, d: ContractLog)
    ensures EventsOf(cfg, index, [a]) == EventOf(Process(cfg, index, a).outcome)
    ensures EventsOf(cfg, index, [a, b])
         == EventOf(Process(cfg, index, a).outcome) + EventOf(Process(cfg, Apply(cfg, index, a), b).outcome)
    ensures EventsOf(cfg, index, [a, b] + [d])
         == EventOf(Process(cfg, index, a).outcome) + EventOf(Process(cfg, Apply(cfg, index, a), b).outcome)
          + EventOf(Process(cfg, Apply(cfg, Apply(cfg, index, a), b), d).outcome)
  {
    hide Process;
    hide Apply;
    var i1 := Apply(cfg, index, a);
    var i2 := Apply(cfg, i1, b);
    assert [a, b][1..] == [b] && ([a, b] + [d])[1..] == [b, d] && [b, d][1..] == [d];
    assert EventsOf(cfg, i1, [b]) == EventOf(Process(cfg, i1, b).outcome);
    assert EventsOf(cfg, i2, [d]) == EventOf(Process(cfg, i2, d).outcome);
    assert EventsOf(cfg, i1, [b, d]) == EventOf(Process(cfg, i1, b).outcome) + EventsOf(cfg, i2, [d]);
  }

  /** Funding yields the amount as the balance difference, after an opening if the channel was closed. */
  lemma FundEvents(cfg: Config, contract: Contract, index: Index, self: Address, account: Address, amount: nat)
    requires Sound(contract) && Agrees(cfg, contract, index) && Fund(contract, self, account, amount, true).Mined?
    ensures var id := ChannelId(self, account);
      var events := EventsOf(cfg, index, Fund(contract, self, account, amount, true).logs);
      if Get(contract, id).status == CLOSED then
        |events| == 2 && events[0].OpenedEvent? && events[0].id == id
        && events[1].BalanceIncreasedEvent? && events[1].id == id && events[1].diff == amount
      else
        |events| == 1 && events[0].BalanceIncreasedEvent? && events[0].id == id && events[0].diff == amount
  {
    hide EventsOf;
    hide MarkAs;
    var id := ChannelId(self, account);
    var logs := Fund(contract, self, account, amount, true).logs;
    assert EntryOf(index, id) == Expected(cfg.me, id, Get(contract, id));
    EventsOfFew(cfg, index, logs[0], if |logs| > 1 then logs[1] else logs[0], logs[0]);
  }

  /**
   A redemption yields the amount as the decrease of the redeemed channel, then the settled ticket with the
   new index, then, if the channel back is open, the same amount as its increase.
   */
  lemma RedeemEvents(cfg: Config, contract: Contract, index: Index, self: Address, source: Address, ticket: TicketData)
    requires Sound(contract) && Agrees(cfg, contract, index) && RangesDisjoint(index.store.tickets)
    requires Redeem(contract, self, source, ticket, true).Mined?
    ensures var id, back := ChannelId(source, self), ChannelId(self, source);
      var events := EventsOf(cfg, index, Redeem(contract, self, source, ticket, true).logs);
      && |events| == (if Get(contract, back).status == CLOSED then 2 else 3)
      && events[0].BalanceDecreasedEvent? && events[0].id == id && events[0].diff == ticket.amount
      && events[1].TicketRedeemedEvent? && events[1].id == id
      && events[1].entry.ticketIndex == ticket.ticketIndex + ticket.indexOffset
      && (|events| == 3 ==> events[2].BalanceIncreasedEvent? && events[2].id == back && events[2].diff == ticket.amount)
  {
    hide EventsOf;
    hide OnRedeemed;
    var id, back := ChannelId(source, self), ChannelId(self, source);
    var logs := Redeem(contract, self, source, ticket, true).logs;
    assert EntryOf(index, id) == Expected(cfg.me, id, Get(contract, id));
    assert EntryOf(index, back) == Expected(cfg.me, back, Get(contract, back));
    EventsOfFew(cfg, index, logs[0], logs[1], if |logs| > 2 then logs[2] else logs[0]);
    var paid := Apply(cfg, index, logs[0]);
    SettlesIsSettled(cfg, paid, id, logs[1].newTicketIndex);
    RedeemedEventIsAbout(cfg, paid, id, logs[1].newTicketIndex, back);
  }

  lemma RedeemedEventIsAbout(cfg: Config, index: Index, id: ChannelId, n: nat, other: ChannelId)
    requires OnRedeemed(cfg.me, index, id, n).outcome.Handled? && other != id
    ensures var step := OnRedeemed(cfg.me, index, id, n);
      && step.outcome.event.Some? && step.outcome.event.value.TicketRedeemedEvent?
      && step.outcome.event.value.id == id && step.outcome.event.value.entry.ticketIndex == n
      && EntryOf(step.index, other) == EntryOf(index, other)
  {
  }

  lemma CloseEvents(cfg: Config, contract: Contract, index: Index, id: ChannelId, closureTime: nat)
    requires Sound(contract) && Agrees(cfg, contract, index) && Get(contract, id).status != CLOSED
    ensures var events := EventsOf(cfg, index, [ChannelClosed(id)]);
      |events| == 1 && events[0].ClosedEvent? && events[0].id == id
    ensures var events := EventsOf(cfg, index, [OutgoingChannelClosureInitiated(id, closureTime)]);
      |events| == 1 && events[0].ClosureInitiatedEvent? && events[0].id == id
  {
    hide EventsOf;
    hide MarkAs;
    assert EntryOf(index, id) == Expected(cfg.me, id, Get(contract, id));
    var closed, initiated := ChannelClosed(id), OutgoingChannelClosureInitiated(id, closureTime);
    EventsOfFew(cfg, index, closed, closed, closed);
    EventsOfFew(cfg, index, initiated, initiated, initiated);
  }

  /** When the event an action waits for is among those its own transaction causes. */
  predicate Confirmable(me: Address, contract: Contract, action: Action) {
    match action
    case RedeemTicketAction(_) => true
    case OpenChannelAction(destination, _) => Get(contract, ChannelId(me, destination)).status == CLOSED
    case FundChannelAction(id, _, _) => id.source == me
    case CloseChannelAction(id, _, Incoming) => id.destination == me
    case CloseChannelAction(id, _, Outgoing) => id.source == me
  }

  ghost predicate HasConfirmation(action: Action, events: seq<ChainEvent>) {
    exists e :: e in events && Satisfies(action, e)
  }

  lemma FundingIsConfirmed(cfg: Config, contract: Contract, index: Index, action: Action, account: Address, amount: nat)
    requires Sound(contract) && Agrees(cfg, contract, index) && Fund(contract, cfg.me, account, amount, true).Mined?
    requires action == OpenChannelAction(account, amount)
          || (action.FundChannelAction? && action.id.destination == account && action.amount == amount)
    ensures HasConfirmation(action, EventsOf(cfg, index, Fund(contract, cfg.me, account, amount, true).logs))
        <==> Confirmable(cfg.me, contract, action)
  {
    hide EventsOf;
    hide Fund;
    hide Sound;
    hide Agrees;
    FundEvents(cfg, contract, index, cfg.me, account, amount);
    var events := EventsOf(cfg, index, Fund(contract, cfg.me, account, amount, true).logs);
    if |events| == 2 {
      assert events == [events[0], events[1]];
      assert events[0] in events && events[1] in events;
    } else {
      assert events == [events[0]];
      assert events[0] in events;
    }
  }

  lemma RedemptionIsConfirmed(cfg: Config, contract: Contract, index: Index, action: Action, ticket: TicketData)
    requires Sound(contract) && Agrees(cfg, contract, index) && RangesDisjoint(index.store.tickets)
    requires action.RedeemTicketAction? && action.ticket.id.destination == cfg.me
    requires Redeem(contract, cfg.me, action.ticket.id.source, ticket, true).Mined?
    ensures HasConfirmation(action, EventsOf(cfg, index, Redeem(contract, cfg.me, action.ticket.id.source, ticket, true).logs))
  {
    RedeemEvents(cfg, contract, index, cfg.me, action.ticket.id.source, ticket);
    var events := EventsOf(cfg, index, Redeem(contract, cfg.me, action.ticket.id.source, ticket, true).logs);
    assert events[1] in events;
  }

  lemma ClosingIsConfirmed(cfg: Config, contract: Contract, index: Index, action: Action, call: Call)
    requires Sound(contract) && Agrees(cfg, contract, index) && action.CloseChannelAction?
    requires Prepare(cfg.me, action).Submitted? && Execute(contract, call).Mined?
    requires exists t, passes :: call == CallOf(cfg.me, Prepare(cfg.me, action).request, t, passes)
    ensures HasConfirmation(action, EventsOf(cfg, index, Execute(contract, call).logs))
        <==> Confirmable(cfg.me, contract, action)
  {
    hide EventsOf;
    hide Agrees;
    hide Sound;
    var id := if action.direction == Incoming then ChannelId(action.id.source, cfg.me) else ChannelId(cfg.me, action.id.destination);
    var logs := Execute(contract, call).logs;
    CloseEvents(cfg, contract, index, id, if logs[0].OutgoingChannelClosureInitiated? then logs[0].closureTime else 0);
    var events := EventsOf(cfg, index, logs);
    assert events == [events[0]] && events[0] in events;
  }

  /**
   If the node's index agrees with the contract when the transaction of an action is mined, indexing the
   transaction's logs yields the event the action waits for exactly when the action is `Confirmable`.
   */
  lemma MinedActionIsConfirmed(cfg: Config, contract: Contract, index: Index, action: Action, timestamp: nat, passes: bool)
    requires Sound(contract) && Agrees(cfg, contract, index) && RangesDisjoint(index.store.tickets)
    requires Prepare(cfg.me, action).Submitted?
    requires Execute(contract, CallOf(cfg.me, Prepare(cfg.me, action).request, timestamp, passes)).Mined?
    ensures var call := CallOf(cfg.me, Prepare(cfg.me, action).request, timestamp, passes);
      HasConfirmation(action, EventsOf(cfg, index, Execute(contract, call).logs)) <==> Confirmable(cfg.me, contract, action)
  {
    hide EventsOf;
    hide HasConfirmation;
    hide Agrees;
    hide Sound;
    var request := Prepare(cfg.me, action).request;
    match action
    case RedeemTicketAction(ticket) => RedemptionIsConfirmed(cfg, contract, index, action, request.ticket);
    case OpenChannelAction(destination, amount) =>
      FundLosesNoBits(cfg.me, destination, amount);
      FundingIsConfirmed(cfg, contract, index, action, destination, amount);
    case FundChannelAction(id, _, amount) =>
      FundLosesNoBits(cfg.me, id.destination, amount);
      FundingIsConfirmed(cfg, contract, index, action, id.destination, amount);
    case CloseChannelAction(_, _, _) =>
      ClosingIsConfirmed(cfg, contract, index, action, CallOf(cfg.me, request, timestamp, passes));
  }

  /** What the tracker tests for an action is its own hash and `Satisfies`. */
  function ExpectationOf(action: Action, txHash: Tracking.Hash): Tracking.Expectation {
    Tracking.Expectation(txHash, event => Satisfies(action, event))
  }

  /**
   A mined confirmable action, registered or about to be, is confirmed by an event of its own transaction in some
   run as long as that transaction's events are still to be scanned.
   */
  lemma OwnTransactionConfirms(
    cfg: Config, contract: Contract, index: Index, action: Action, timestamp: nat, passes: bool, txHash: Tracking.Hash,
    s: Tracking.System, a: nat, coming: set<Tracking.Event>)
    returns (event: ChainEvent, steps: seq<Tracking.TrackerStep>)
    requires Sound(contract) && Agrees(cfg, contract, index) && RangesDisjoint(index.store.tickets)
    requires Prepare(cfg.me, action).Submitted? && Confirmable(cfg.me, contract, action)
    requires Execute(contract, CallOf(cfg.me, Prepare(cfg.me, action).request, timestamp, passes)).Mined?
    requires Tracking.Inv(s) && a in s.executions && s.executions[a].exp == ExpectationOf(action, txHash)
    requires s.executions[a].phase == Tracking.Submitted
          || (s.executions[a].phase == Tracking.Waiting && Tracking.HasRow(s.tracker, s.executions[a].exp, a))
    requires var call := CallOf(cfg.me, Prepare(cfg.me, action).request, timestamp, passes);
      forall e :: e in EventsOf(cfg, index, Execute(contract, call).logs) ==> Tracking.Event(txHash, e) in coming
    ensures event in EventsOf(cfg, index, Execute(contract, CallOf(cfg.me, Prepare(cfg.me, action).request, timestamp, passes)).logs)
    ensures Confirmations.Unfolds(s, steps, txHash, coming)
         && Confirmations.ConfirmsBy(Tracking.Run(s, steps), a, Tracking.Event(txHash, event))
  {
    hide Agrees;
    hide Sound;
    hide EventsOf;
    hide Execute;
    hide Prepare;
    hide Confirmable;
    hide Tracking.Inv;
    hide Tracking.IsRun;
    hide Tracking.Run;
    hide Tracking.NeverReuses;
    MinedActionIsConfirmed(cfg, contract, index, action, timestamp, passes);
    event :| event in EventsOf(cfg, index, Execute(contract, CallOf(cfg.me, Prepare(cfg.me, action).request, timestamp, passes)).logs)
             && Satisfies(action, event);
    steps := Confirmations.InPlayIsConfirmed(s, a, coming, Tracking.Event(txHash, event));
  }

  // ---------- what is submitted, and what a confirmation means ----------

  /** Each action is submitted exactly under these conditions, as this request, and fails otherwise as said. */
  lemma PreparedExactly(me: Address, action: Action)
    ensures var r := Prepare(me, action);
      match action
      case RedeemTicketAction(ticket) =>
        && (r.Submitted? <==> ticket.signed) && (!ticket.signed ==> r == BadArguments)
        && (r.Submitted? ==> r.request.RedeemRequest? && r.request.id == ticket.id)
      case OpenChannelAction(destination, amount) =>
        if destination != me && amount <= MAX_CHANNEL_BALANCE then r == Submitted(FundChannelRequest(destination, amount))
        else r == BadArguments
      case FundChannelAction(id, entry, amount) =>
        if entry.status != Open then r == ChannelNotOpened
        else if id.destination != me && amount <= MAX_CHANNEL_BALANCE then r == Submitted(FundChannelRequest(id.destination, amount))
        else r == BadArguments
      case CloseChannelAction(id, entry, direction) =>
        if entry.status == Closed then r == ChannelAlreadyClosed
        else if (if direction == Incoming then id.source else id.destination) == me then r == BadArguments
        else r == Submitted(
          if direction == Incoming then CloseIncomingRequest(id.source)
          else if entry.status == Open then InitiateClosureRequest(id.destination)
          else FinalizeClosureRequest(id.destination))
  {
    match action
    case OpenChannelAction(destination, amount) => FundLosesNoBits(me, destination, amount);
    case FundChannelAction(id, _, amount) => FundLosesNoBits(me, id.destination, amount);
    case _ =>
  }

  /** What an action is for, seen on one channel before and after a transaction. */
  predicate Achieves(action: Action, id: ChannelId, before: Channel, after: Channel) {
    match action
    case RedeemTicketAction(ticket) => id == ticket.id && before.status != CLOSED && after.ticketIndex > before.ticketIndex
    case OpenChannelAction(destination, _) =>
      id.destination == destination && before.status == CLOSED && after.status == OPEN && after.epoch == before.epoch + 1
    case FundChannelAction(fundedId, _, amount) => id == fundedId && after.status != CLOSED && after.balance == before.balance + amount
    case CloseChannelAction(closedId, entry, direction) =>
      id == closedId && before.status != CLOSED
      && (if direction == Outgoing && entry.status == Open then after.status == PENDING_TO_CLOSE
          else after.status == CLOSED && after.balance == 0)
  }

  lemma FundingAchieves(cfg: Config, contract: Contract, index: Index, action: Action, self: Address, account: Address, amount: nat, event: ChainEvent)
    requires Sound(contract) && Agrees(cfg, contract, index) && Fund(contract, self, account, amount, true).Mined?
    requires event in EventsOf(cfg, index, Fund(contract, self, account, amount, true).logs) && Satisfies(action, event)
    ensures Achieves(action, event.id, Get(contract, event.id), Get(Fund(contract, self, account, amount, true).contract, event.id))
  {
    hide EventsOf;
    hide Agrees;
    FundEvents(cfg, contract, index, self, account, amount);
    var events := EventsOf(cfg, index, Fund(contract, self, account, amount, true).logs);
    assert event == events[0] || (|events| == 2 && event == events[1]);
  }

  lemma RedemptionAchieves(
    cfg: Config, contract: Contract, index: Index, action: Action, self: Address, source: Address, ticket: TicketData, event: ChainEvent)
    requires Sound(contract) && Agrees(cfg, contract, index) && RangesDisjoint(index.store.tickets)
    requires Redeem(contract, self, source, ticket, true).Mined?
    requires event in EventsOf(cfg, index, Redeem(contract, self, source, ticket, true).logs) && Satisfies(action, event)
    ensures Achieves(action, event.id, Get(contract, event.id), Get(Redeem(contract, self, source, ticket, true).contract, event.id))
  {
    hide EventsOf;
    hide Agrees;
    RedeemEvents(cfg, contract, index, self, source, ticket);
    var events := EventsOf(cfg, index, Redeem(contract, self, source, ticket, true).logs);
    assert event == events[0] || event == events[1] || (|events| == 3 && event == events[2]);
  }

  /**
   Whoever's transaction it is: if one of its events, as the node derives them, is what an action waits for, the
   transaction has done to that channel what the action is for.
   */
  lemma ConfirmedMeansDone(cfg: Config, contract: Contract, index: Index, call: Call, action: Action, event: ChainEvent)
    requires Sound(contract) && Agrees(cfg, contract, index) && RangesDisjoint(index.store.tickets)
    requires Execute(contract, call).Mined?
    requires event in EventsOf(cfg, index, Execute(contract, call).logs) && Satisfies(action, event)
    ensures Achieves(action, event.id, Get(contract, event.id), Get(Execute(contract, call).contract, event.id))
  {
    hide EventsOf;
    hide Agrees;
    hide Satisfies;
    hide Achieves;
    match call
    case FundChannel(self, account, amount, _) => FundingAchieves(cfg, contract, index, action, self, account, amount, event);
    case RedeemTicket(self, source, ticket, _) => RedemptionAchieves(cfg, contract, index, action, self, source, ticket, event);
    case _ => ClosingAchieves(cfg, contract, index, call, action, event);
  }

  lemma ClosingAchieves(cfg: Config, contract: Contract, index: Index, call: Call, action: Action, event: ChainEvent)
    requires Sound(contract) && Agrees(cfg, contract, index) && Execute(contract, call).Mined?
    requires !call.FundChannel? && !call.RedeemTicket?
    requires event in EventsOf(cfg, index, Execute(contract, call).logs) && Satisfies(action, event)
    ensures Achieves(action, event.id, Get(contract, event.id), Get(Execute(contract, call).contract, event.id))
  {
    hide EventsOf;
    hide Agrees;
    hide Sound;
    var id :=
      if call.CloseIncomingChannel? then ChannelId(call.source, call.self) else ChannelId(call.self, call.destination);
    var logs := Execute(contract, call).logs;
    CloseEvents(cfg, contract, index, id, if logs[0].OutgoingChannelClosureInitiated? then logs[0].closureTime else 0);
    var events := EventsOf(cfg, index, logs);
    assert event == events[0];
  }
}
