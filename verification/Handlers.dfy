/**
 What one contract log does to the node's index: the channel table, the ticket store, the outgoing
 ticket indices, the Safe's balance and allowance, and the minimum winning probability.
 */
module Handlers {
  import opened HoprTypes
  import opened TicketStore

  // The node's own address, its Safe and the channels contract.
  datatype Config = Config(me: Address, safe: Address, channelsContract: Address)

  datatype Index = Index(
    channels: map<ChannelId, ChannelEntry>,
    store: Store,
    outgoing: map<ChannelId, nat>,
    safeBalance: nat,
    safeAllowance: nat,
    minWinProb: nat)

  datatype ContractLog =
    | ChannelOpened(id: ChannelId)
    | ChannelBalanceIncreased(id: ChannelId, newBalance: nat)
    | ChannelBalanceDecreased(id: ChannelId, newBalance: nat)
    | OutgoingChannelClosureInitiated(id: ChannelId, closureTime: nat)
    | ChannelClosed(id: ChannelId)
    | TicketRedeemed(id: ChannelId, newTicketIndex: nat)
    | Transfer(from: Address, to: Address, value: nat)
    | Approval(owner: Address, spender: Address, allowance: nat)
    | WinProbUpdated(oldLuck: nat, newLuck: nat)
    | UnknownContract

  predicate IsChannelLog(log: ContractLog) {
    !log.Transfer? && !log.Approval? && !log.WinProbUpdated? && !log.UnknownContract?
  }

  datatype ChainEvent =
    | OpenedEvent(id: ChannelId, entry: ChannelEntry)
    | ClosureInitiatedEvent(id: ChannelId, entry: ChannelEntry)
    | ClosedEvent(id: ChannelId, entry: ChannelEntry)
    | BalanceIncreasedEvent(id: ChannelId, entry: ChannelEntry, diff: nat)
    | BalanceDecreasedEvent(id: ChannelId, entry: ChannelEntry, diff: nat)
    | TicketRedeemedEvent(id: ChannelId, entry: ChannelEntry, ticket: Option<TicketKey>)

  datatype HandlerError = ChannelDoesNotExist | ReopenOfUnclosedChannel | MultipleMatchingTickets | UnknownContractAddress

  datatype Outcome = Handled(event: Option<ChainEvent>) | Failed(error: HandlerError)

  datatype Step = Step(index: Index, outcome: Outcome)

  /**
   The approximate order of two 7-byte probabilities. Sixteen encodings share one float, floats are
   multiples of 2^-52, and a difference of at most 10^-8 counts as equal.
   */
  predicate ApproxLess(oldLuck: nat, newLuck: nat) {
    (oldLuck + 1) / 16 + 45035996 < (newLuck + 1) / 16
  }

  function OutgoingIndex(outgoing: map<ChannelId, nat>, c: ChannelId): nat {
    if c in outgoing then outgoing[c] else 0
  }

  function Raised(outgoing: map<ChannelId, nat>, c: ChannelId, n: nat): map<ChannelId, nat> {
    outgoing[c := if OutgoingIndex(outgoing, c) < n then n else OutgoingIndex(outgoing, c)]
  }

  function OnBalanceChange(index: Index, id: ChannelId, newBalance: nat, increased: bool): Step {
    if id !in index.channels then Step(index, Failed(ChannelDoesNotExist))
    else
      var entry := index.channels[id];
      var updated := entry.(balance := newBalance);
      Step(
        index.(channels := index.channels[id := updated]),
        Handled(Some(
          if increased then BalanceIncreasedEvent(id, updated, SatSub(newBalance, entry.balance))
          else BalanceDecreasedEvent(id, updated, SatSub(entry.balance, newBalance)))))
  }

  function OnClosureInitiated(index: Index, id: ChannelId, closureTime: nat): Step {
    if id !in index.channels then Step(index, Failed(ChannelDoesNotExist))
    else
      var updated := index.channels[id].(status := PendingToClose(closureTime));
      Step(index.(channels := index.channels[id := updated]), Handled(Some(ClosureInitiatedEvent(id, updated))))
  }

  ghost function OnClosed(me: Address, index: Index, id: ChannelId): Step {
    if id !in index.channels then Step(index, Failed(ChannelDoesNotExist))
    else
      var entry := index.channels[id];
      var updated := entry.(status := Closed, balance := 0, ticketIndex := 0);
      match DirectionOf(id, me)
      case Some(Incoming) =>
        Step(
          index.(channels := index.channels[id := updated],
                 store := MarkAs(index.store, SelectorOfEntry(id, updated), Neglected)),
          Handled(Some(ClosedEvent(id, updated))))
      case Some(Outgoing) =>
        Step(
          index.(channels := index.channels[id := updated], outgoing := index.outgoing[id := 0]),
          Handled(Some(ClosedEvent(id, updated))))
      case None =>
        Step(index.(channels := index.channels - {id}), Handled(Some(ClosedEvent(id, entry))))
  }

  ghost function OnOpened(me: Address, index: Index, id: ChannelId): Step {
    if id !in index.channels then
      var created := ChannelEntry(0, 0, Open, 1);
      Step(index.(channels := index.channels[id := created]), Handled(Some(OpenedEvent(id, created))))
    else if index.channels[id].status != Closed then
      Step(index, Failed(ReopenOfUnclosedChannel))
    else
      var entry := index.channels[id];
      var updated := entry.(ticketIndex := 0, epoch := entry.epoch + 1, status := Open);
      var cleaned :=
        if Own(id, me) then
          index.(store := MarkAs(index.store, SelectorOfEntry(id, entry), Neglected), outgoing := index.outgoing[id := 0])
        else index;
      Step(cleaned.(channels := index.channels[id := updated]), Handled(Some(OpenedEvent(id, updated))))
  }

  // The tickets in redemption that a redeem log with index n can have settled.
  function Matching(tickets: TicketTable, id: ChannelId, entry: ChannelEntry, n: nat): (keys: set<TicketKey>)
    ensures keys <= tickets.Keys
  {
    set k | k in tickets && Selects(SelectorOfEntry(id, entry).(state := Some(BeingRedeemed)), k, tickets[k])
         && k.index + tickets[k].offset == n
  }

  // The own ticket a redeem log settles, unless there is none or more than one candidate.
  ghost function SettledTicket(me: Address, index: Index, id: ChannelId, n: nat): (settled: Option<TicketKey>)
    requires id in index.channels
    ensures settled.Some? ==> settled.value in index.store.tickets
  {
    var matching := Matching(index.store.tickets, id, index.channels[id], n);
    if DirectionOf(id, me) == Some(Incoming) && |matching| == 1 then
      var k :| k in matching; Some(k)
    else None
  }

  ghost function Settle(store: Store, id: ChannelId, entry: ChannelEntry, n: nat, settled: Option<TicketKey>): Store
    requires settled.Some? ==> settled.value in store.tickets
  {
    var rest :=
      if settled.Some? then MarkAs(store, SelectorOfTicket(settled.value, store.tickets[settled.value]), Redeemed)
      else store;
    MarkAs(rest, SelectorOfEntry(id, entry).(index := Below(n)), Neglected)
  }

  ghost function OnRedeemed(me: Address, index: Index, id: ChannelId, n: nat): Step {
    if id !in index.channels then Step(index, Failed(ChannelDoesNotExist))
    else
      var entry := index.channels[id];
      var direction := DirectionOf(id, me);
      if direction == Some(Incoming) && |Matching(index.store.tickets, id, entry, n)| > 1 then
        Step(index, Failed(MultipleMatchingTickets))
      else
        var settled := SettledTicket(me, index, id, n);
        var updated := entry.(ticketIndex := n);
        Step(
          index.(channels := index.channels[id := updated],
                 store := Settle(index.store, id, updated, n, settled),
                 outgoing := if direction == Some(Outgoing) then Raised(index.outgoing, id, n) else index.outgoing),
          Handled(Some(TicketRedeemedEvent(id, updated, settled))))
  }

  // The Safe gains what it receives and, unless it is also the receiver, loses what it sends.
  function OnTransfer(cfg: Config, index: Index, from: Address, to: Address, value: nat): Step {
    var balance :=
      if to == cfg.safe then SatAdd(index.safeBalance, value)
      else if from == cfg.safe then SatSub(index.safeBalance, value)
      else index.safeBalance;
    Step(index.(safeBalance := balance), Handled(None))
  }

  function OnApproval(cfg: Config, index: Index, owner: Address, spender: Address, value: nat): Step {
    if owner == cfg.safe && spender == cfg.channelsContract then
      Step(index.(safeAllowance := value), Handled(None))
    else Step(index, Handled(None))
  }

  /** The tickets of the current epochs of all channels towards `me` that win too rarely. */
  function TooUnlikely(me: Address, channels: map<ChannelId, ChannelEntry>, tickets: TicketTable, luck: nat): (keys: set<TicketKey>)
    ensures keys <= tickets.Keys
  {
    set k | k in tickets && k.channel in channels && k.channel.destination == me
         && channels[k.channel].epoch == k.epoch && tickets[k].winProb < luck
  }

  ghost function OnWinProbUpdated(me: Address, index: Index, oldLuck: nat, newLuck: nat): Step {
    var raised := index.(minWinProb := newLuck);
    if ApproxLess(oldLuck, newLuck) then
      var unlikely := TooUnlikely(me, index.channels, index.store.tickets, newLuck);
      Step(raised.(store := MarkKeys(index.store, unlikely, Rejected)), Handled(None))
    else Step(raised, Handled(None))
  }

  ghost function Process(cfg: Config, index: Index, log: ContractLog): Step {
    match log
    case ChannelOpened(id) => OnOpened(cfg.me, index, id)
    case ChannelBalanceIncreased(id, b) => OnBalanceChange(index, id, b, true)
    case ChannelBalanceDecreased(id, b) => OnBalanceChange(index, id, b, false)
    case OutgoingChannelClosureInitiated(id, t) => OnClosureInitiated(index, id, t)
    case ChannelClosed(id) => OnClosed(cfg.me, index, id)
    case TicketRedeemed(id, n) => OnRedeemed(cfg.me, index, id, n)
    case Transfer(from, to, v) => OnTransfer(cfg, index, from, to, v)
    case Approval(o, s, v) => OnApproval(cfg, index, o, s, v)
    case WinProbUpdated(o, n) => OnWinProbUpdated(cfg.me, index, o, n)
    case UnknownContract => Step(index, Failed(UnknownContractAddress))
  }

  ghost function Apply(cfg: Config, index: Index, log: ContractLog): Index {
    Process(cfg, index, log).index
  }

  /** Failing handlers are logged and skipped, so a block is a fold over its logs. */
  ghost function ApplyAll(cfg: Config, index: Index, logs: seq<ContractLog>): Index
    decreases |logs|
  {
    if logs == [] then index
    else ApplyAll(cfg, Apply(cfg, index, logs[0]), logs[1..])
  }

  function EventOf(outcome: Outcome): (events: seq<ChainEvent>)
    ensures |events| <= 1
  {
    if outcome.Handled? && outcome.event.Some? then [outcome.event.value] else []
  }

  /** The significant events of a block, in log order. */
  ghost function EventsOf(cfg: Config, index: Index, logs: seq<ContractLog>): seq<ChainEvent>
    decreases |logs|
  {
    if logs == [] then []
    else EventOf(Process(cfg, index, logs[0]).outcome) + EventsOf(cfg, Apply(cfg, index, logs[0]), logs[1..])
  }

  lemma {:induction false} ApplyAllConcat(cfg: Config, index: Index, a: seq<ContractLog>, b: seq<ContractLog>)
    ensures ApplyAll(cfg, index, a + b) == ApplyAll(cfg, ApplyAll(cfg, index, a), b)
    decreases |a|
  {
    hide Process;
    if a == [] {
      assert a + b == b;
    } else {
      assert (a + b)[1..] == a[1..] + b;
      ApplyAllConcat(cfg, Apply(cfg, index, a[0]), a[1..], b);
    }
  }

  lemma {:induction false} EventsOfConcat(cfg: Config, index: Index, a: seq<ContractLog>, b: seq<ContractLog>)
    ensures EventsOf(cfg, index, a + b) == EventsOf(cfg, index, a) + EventsOf(cfg, ApplyAll(cfg, index, a), b)
    decreases |a|
  {
    hide Process;
    if a == [] {
      assert a + b == b;
    } else {
      assert (a + b)[1..] == a[1..] + b;
      EventsOfConcat(cfg, Apply(cfg, index, a[0]), a[1..], b);
    }
  }

  /** A handler that returns an error has changed nothing. */
  lemma FailedHandlerChangesNothing(cfg: Config, index: Index, log: ContractLog)
    ensures Process(cfg, index, log).outcome.Failed? ==> Apply(cfg, index, log) == index
  {
  }
}
