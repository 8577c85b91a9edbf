/**
 The node as a step system: contract transactions are mined and their logs indexed one by one, while
 tickets arrive, redemption calls read and mark tickets, and queued redemptions succeed or fail. Every
 interleaving of the steps is a run.
 */
module NodeSystem {
  import opened HoprTypes
  import opened TicketStore
  import opened Handlers
  import opened HandlerProperties
  import opened Channels
  import opened LedgerRefinement

  // A redemption on its way: held by the call that fetched the ticket, queued, or being executed.
  datatype Stage = Held | Queued | Executing

  datatype Redemption = Redemption(ticket: TicketKey, aggregated: bool, stage: Stage)

  datatype Node = Node(
    contract: Contract,
    pending: seq<ContractLog>,              // mined logs the indexer has not reached
    index: Index,
    cursors: map<nat, set<TicketKey>>,      // rows a fetching call has read and not yet updated
    inFlight: map<nat, Redemption>,
    issued: set<TicketKey>,                 // every ticket ever received
    arrived: map<ChannelId, nat>)           // and the value received, per channel

  datatype NodeStep =
    | Mine(step: ChainStep)
    | IndexNextLog
    | TicketArrives(key: TicketKey, ticket: Ticket)
    | TicketRejectedUnsaved(channel: ChannelId, amount: nat)
    | OpenCursor(call: nat, selector: TicketSelector)
    | MarkNext(call: nat, key: TicketKey, action: nat, aggregated: bool)
    | CloseCursor(call: nat)
    | Enqueue(action: nat)
    | Abandon(action: nat)
    | Start(action: nat)
    | Succeed(action: nat)
    | Fail(action: nat)
    | BeginAggregation(keys: set<TicketKey>)
    | RollbackAggregation(keys: set<TicketKey>)
    | Restart(persisted: map<ChannelId, nat>)
    | RepairNextTickets

  function WithStatus(tickets: TicketTable, keys: set<TicketKey>, status: TicketStatus): (r: TicketTable)
    ensures r.Keys == tickets.Keys
    ensures forall k :: k in tickets ==>
      && r[k].offset == tickets[k].offset && r[k].amount == tickets[k].amount && r[k].winProb == tickets[k].winProb
      && r[k].status == if k in keys then status else tickets[k].status
  {
    map k | k in tickets :: if k in keys then tickets[k].(status := status) else tickets[k]
  }

  function WithTickets(index: Index, tickets: TicketTable): Index {
    index.(store := index.store.(tickets := tickets))
  }

  function Arrived(arrived: map<ChannelId, nat>, c: ChannelId): nat {
    if c in arrived then arrived[c] else 0
  }

  // Every selector of the redeem calls asks for untouched tickets. A restart forgets reads and redemptions and
  // has the outgoing indices that had reached the disk; the repair comes before anything is redeemed again.
  predicate Enabled(cfg: Config, n: Node, s: NodeStep) {
    var tickets := n.index.store.tickets;
    match s
    case Mine(_) => true
    case IndexNextLog => n.pending != []
    case TicketArrives(k, t) =>
      && k !in n.issued && t.status == Untouched && t.offset >= 1
      && k.channel in n.index.channels && DirectionOf(k.channel, cfg.me) == Some(Incoming)
      && n.index.channels[k.channel].status != Closed
      && n.index.channels[k.channel].epoch == k.epoch && n.index.channels[k.channel].ticketIndex <= k.index
      && (forall j :: j in tickets && j.channel == k.channel && j.epoch == k.epoch ==>
            j.index + tickets[j].offset <= k.index || k.index + t.offset <= j.index)
    case TicketRejectedUnsaved(_, _) => true
    case OpenCursor(call, sel) => call !in n.cursors && sel.state == Some(Untouched)
    case MarkNext(call, k, action, aggregated) =>
      && call in n.cursors && k in n.cursors[call] && action !in n.inFlight
      && (k in tickets ==> aggregated == (tickets[k].offset > 1))
    case CloseCursor(call) => call in n.cursors
    case Enqueue(a) => a in n.inFlight && n.inFlight[a].stage == Held
    case Abandon(a) => a in n.inFlight && n.inFlight[a].stage == Held
    case Start(a) => a in n.inFlight && n.inFlight[a].stage == Queued
    case Succeed(a) => a in n.inFlight && n.inFlight[a].stage == Executing
    case Fail(a) => a in n.inFlight && n.inFlight[a].stage == Executing
    case BeginAggregation(keys) => forall k :: k in keys ==> k in tickets && tickets[k].status == Untouched
    case RollbackAggregation(keys) => forall k :: k in keys ==> k in tickets && tickets[k].status == BeingAggregated
    case Restart(_) => true
    case RepairNextTickets => n.cursors == map[] && n.inFlight == map[]
  }

  // The tickets in redemption that are the next to be redeemed on their channel.
  function NextInLine(cfg: Config, index: Index): (keys: set<TicketKey>)
    ensures keys <= index.store.tickets.Keys
  {
    var tickets := index.store.tickets;
    set k | k in tickets && k.channel in index.channels && k.channel.destination == cfg.me
         && k.epoch == index.channels[k.channel].epoch && k.index == index.channels[k.channel].ticketIndex
         && tickets[k].status == BeingRedeemed
  }

  // A failed redemption resets its ticket by channel, epoch and index, whatever state the row is in.
  function ResetSelector(r: Redemption): TicketSelector {
    TicketSelector([(r.ticket.channel, r.ticket.epoch)], Single(r.ticket.index), None, None, r.aggregated)
  }

  function ResetRow(tickets: TicketTable, r: Redemption): TicketTable {
    WithStatus(tickets, Selected(tickets, ResetSelector(r)), Untouched)
  }

  ghost function Next(cfg: Config, n: Node, s: NodeStep): Node
    requires Enabled(cfg, n, s)
  {
    var store := n.index.store;
    var tickets := store.tickets;
    match s
    case Mine(step) => n.(contract := ContractAfter(n.contract, step), pending := n.pending + LogsOfStep(n.contract, step))
    case IndexNextLog => n.(index := Apply(cfg, n.index, n.pending[0]), pending := n.pending[1..])
    case TicketArrives(k, t) =>
      n.(index := WithTickets(n.index, tickets[k := t]),
         issued := n.issued + {k},
         arrived := n.arrived[k.channel := Arrived(n.arrived, k.channel) + t.amount])
    case TicketRejectedUnsaved(c, amount) =>
      n.(index := n.index.(store := store.(stats := store.stats[c := Credited(StatsOf(store.stats, c), Rejected, amount)])),
         arrived := n.arrived[c := Arrived(n.arrived, c) + amount])
    case OpenCursor(call, sel) => n.(cursors := n.cursors[call := Selected(tickets, sel)])
    case MarkNext(call, k, action, aggregated) =>
      n.(index := WithTickets(n.index, WithStatus(tickets, {k}, BeingRedeemed)),
         cursors := n.cursors[call := n.cursors[call] - {k}],
         inFlight := n.inFlight[action := Redemption(k, aggregated, Held)])
    case CloseCursor(call) => n.(cursors := n.cursors - {call})
    case Enqueue(a) => n.(inFlight := n.inFlight[a := n.inFlight[a].(stage := Queued)])
    case Abandon(a) => n.(inFlight := n.inFlight - {a})
    case Start(a) => n.(inFlight := n.inFlight[a := n.inFlight[a].(stage := Executing)])
    case Succeed(a) => n.(inFlight := n.inFlight - {a})
    case Fail(a) =>
      n.(index := WithTickets(n.index, ResetRow(tickets, n.inFlight[a])), inFlight := n.inFlight - {a})
    case BeginAggregation(keys) => n.(index := WithTickets(n.index, WithStatus(tickets, keys, BeingAggregated)))
    case RollbackAggregation(keys) => n.(index := WithTickets(n.index, WithStatus(tickets, keys, Untouched)))
    case Restart(persisted) => n.(index := n.index.(outgoing := persisted), cursors := map[], inFlight := map[])
    case RepairNextTickets => n.(index := WithTickets(n.index, WithStatus(tickets, NextInLine(cfg, n.index), Untouched)))
  }

  ghost predicate IsRun(cfg: Config, n: Node, steps: seq<NodeStep>)
    decreases |steps|
  {
    steps == [] || (Enabled(cfg, n, steps[0]) && IsRun(cfg, Next(cfg, n, steps[0]), steps[1..]))
  }

  ghost function Run(cfg: Config, n: Node, steps: seq<NodeStep>): Node
    requires IsRun(cfg, n, steps)
    decreases |steps|
  {
    if steps == [] then n else Run(cfg, Next(cfg, n, steps[0]), steps[1..])
  }

  // ---------- tickets stay well-formed and current ----------

  ghost predicate IndexSound(cfg: Config, index: Index) {
    RangesDisjoint(index.store.tickets) && Current(cfg, index)
  }

  ghost predicate TicketsSound(cfg: Config, n: Node) {
    IndexSound(cfg, n.index)
  }

  lemma StatusKeepsSound(cfg: Config, index: Index, keys: set<TicketKey>, status: TicketStatus)
    requires IndexSound(cfg, index)
    ensures IndexSound(cfg, WithTickets(index, WithStatus(index.store.tickets, keys, status)))
  {
    var after := WithStatus(index.store.tickets, keys, status);
    assert forall k :: k in index.store.tickets ==> after[k].offset == index.store.tickets[k].offset;
  }

  lemma LogKeepsSound(cfg: Config, index: Index, log: ContractLog)
    requires IndexSound(cfg, index)
    ensures IndexSound(cfg, Apply(cfg, index, log))
  {
    hide Apply;
    RangesStayDisjoint(cfg, index, log);
    TicketsStayCurrent(cfg, index, log);
  }

  lemma ArrivalKeepsSound(cfg: Config, n: Node, k: TicketKey, t: Ticket)
    requires TicketsSound(cfg, n) && Enabled(cfg, n, TicketArrives(k, t))
    ensures IndexSound(cfg, WithTickets(n.index, n.index.store.tickets[k := t]))
  {
    hide WithStatus;
    hide Selected;
    var after := WithTickets(n.index, n.index.store.tickets[k := t]);
    assert Current(cfg, after);
    assert RangesDisjoint(after.store.tickets) by {
      hide Current;
      hide DirectionOf;
    }
  }

  lemma CountersKeepSound(cfg: Config, index: Index, stats: map<ChannelId, Stats>)
    requires IndexSound(cfg, index)
    ensures IndexSound(cfg, index.(store := index.store.(stats := stats)))
  {
  }

  lemma TicketsStaySound(cfg: Config, n: Node, s: NodeStep)
    requires TicketsSound(cfg, n) && Enabled(cfg, n, s)
    ensures TicketsSound(cfg, Next(cfg, n, s))
  {
    hide Apply;
    hide Selected;
    hide LogsOfStep;
    hide IndexSound;
    hide WithStatus;
    hide ContractAfter;
    var index := n.index;
    match s
    case IndexNextLog => LogKeepsSound(cfg, index, n.pending[0]);
    case TicketArrives(k, t) => ArrivalKeepsSound(cfg, n, k, t);
    case TicketRejectedUnsaved(c, amount) =>
      CountersKeepSound(cfg, index, index.store.stats[c := Credited(StatsOf(index.store.stats, c), Rejected, amount)]);
    case MarkNext(_, k, _, _) => StatusKeepsSound(cfg, index, {k}, BeingRedeemed);
    case Fail(a) =>
      var r := n.inFlight[a];
      StatusKeepsSound(cfg, index, Selected(index.store.tickets, ResetSelector(r)), Untouched);
    case BeginAggregation(keys) => StatusKeepsSound(cfg, index, keys, BeingAggregated);
    case RollbackAggregation(keys) => StatusKeepsSound(cfg, index, keys, Untouched);
    case Restart(persisted) => RestartKeepsSound(cfg, index, persisted);
    case RepairNextTickets => StatusKeepsSound(cfg, index, NextInLine(cfg, index), Untouched);
    case _ =>
  }

  lemma RestartKeepsSound(cfg: Config, index: Index, persisted: map<ChannelId, nat>)
    requires IndexSound(cfg, index)
    ensures IndexSound(cfg, index.(outgoing := persisted))
  {
  }

  /** No step but a restart brings an outgoing index behind what has been redeemed on the channel. */
  lemma OutgoingStepsAhead(cfg: Config, n: Node, s: NodeStep)
    requires RangesDisjoint(n.index.store.tickets) && OutgoingAhead(cfg, n.index) && Enabled(cfg, n, s)
    ensures OutgoingAhead(cfg, Next(cfg, n, s).index) || s.Restart?
  {
    hide Apply;
    hide Selected;
    hide LogsOfStep;
    hide WithStatus;
    hide ContractAfter;
    hide RangesDisjoint;
    hide NextInLine;
    hide ResetRow;
    if s.IndexNextLog? {
      OutgoingStaysAhead(cfg, n.index, n.pending[0]);
    }
  }

  /** Every restart of the run finds on disk what it needs. */
  ghost predicate RestartsFlushed(cfg: Config, n: Node, steps: seq<NodeStep>)
    requires IsRun(cfg, n, steps)
    decreases |steps|
  {
    steps == [] || (
      var n' := Next(cfg, n, steps[0]);
      (steps[0].Restart? ==> OutgoingAhead(cfg, n'.index)) && RestartsFlushed(cfg, n', steps[1..]))
  }

  /** Over every interleaving, if outgoing indices were flushed in time, they stay ahead of redemptions. */
  lemma {:induction false} RunKeepsOutgoingAhead(cfg: Config, n: Node, steps: seq<NodeStep>)
    requires TicketsSound(cfg, n) && OutgoingAhead(cfg, n.index) && IsRun(cfg, n, steps) && RestartsFlushed(cfg, n, steps)
    ensures OutgoingAhead(cfg, Run(cfg, n, steps).index)
    decreases |steps|
  {
    hide Enabled;
    hide Next;
    hide TicketsSound;
    hide OutgoingAhead;
    if steps != [] {
      assert RangesDisjoint(n.index.store.tickets) by { SoundIsDisjoint(cfg, n); }
      OutgoingStepsAhead(cfg, n, steps[0]);
      TicketsStaySound(cfg, n, steps[0]);
      RunKeepsOutgoingAhead(cfg, Next(cfg, n, steps[0]), steps[1..]);
    }
  }

  /**
   A ticket that was in redemption when the node stopped can be redeemed again after the repair exactly if it
   is the next one of its channel; any other stays marked, in no redemption.
   */
  lemma RestartRecoversNextOnly(cfg: Config, n: Node, persisted: map<ChannelId, nat>, k: TicketKey)
    requires TicketsSound(cfg, n) && k in n.index.store.tickets && n.index.store.tickets[k].status == BeingRedeemed
    ensures var stopped := Next(cfg, n, Restart(persisted));
      && Enabled(cfg, stopped, RepairNextTickets)
      && var n' := Next(cfg, stopped, RepairNextTickets);
         && k in n'.index.store.tickets && n'.inFlight == map[]
         && n'.index.store.tickets[k].status
            == if k.index == n.index.channels[k.channel].ticketIndex then Untouched else BeingRedeemed
  {
    hide Apply;
    hide ContractAfter;
    hide LogsOfStep;
    hide RangesDisjoint;
  }

  /** Rows, cursors and redemptions are about tickets that did arrive. */
  ghost predicate Known(n: Node) {
    && n.index.store.tickets.Keys <= n.issued
    && (forall c :: c in n.cursors ==> n.cursors[c] <= n.issued)
    && (forall a :: a in n.inFlight ==> n.inFlight[a].ticket in n.issued)
  }

  lemma StaysKnown(cfg: Config, n: Node, s: NodeStep)
    requires Known(n) && RangesDisjoint(n.index.store.tickets) && Enabled(cfg, n, s)
    ensures Known(Next(cfg, n, s))
  {
    hide Apply;
    hide Selects;
    hide LogsOfStep;
    hide ContractAfter;
    hide RangesDisjoint;
    if s.IndexNextLog? {
      TicketsFollow(cfg, n.index, n.pending[0]);
    }
  }

  // ---------- the index lags behind the contract and never disagrees ----------

  /** What the index will show once it has reached the end of the mined logs is what the contract says. */
  ghost predicate LagsBehind(cfg: Config, n: Node) {
    && Sound(n.contract)
    && forall id :: EntryAfter(cfg.me, id, EntryOf(n.index, id), n.pending) == Expected(cfg.me, id, Get(n.contract, id))
  }

  lemma MiningStaysBehind(cfg: Config, n: Node, step: ChainStep)
    requires LagsBehind(cfg, n)
    ensures LagsBehind(cfg, n.(contract := ContractAfter(n.contract, step), pending := n.pending + LogsOfStep(n.contract, step)))
  {
    hide Execute;
    hide Expected;
    hide EntryAfter;
    hide LogsOfStep;
    if step.Transaction? && Execute(n.contract, step.call).Mined? {
      ExecuteStaysSound(n.contract, step.call);
    }
    var contract', pending' := ContractAfter(n.contract, step), n.pending + LogsOfStep(n.contract, step);
    forall id ensures EntryAfter(cfg.me, id, EntryOf(n.index, id), pending') == Expected(cfg.me, id, Get(contract', id)) {
      assert EntryAfter(cfg.me, id, EntryOf(n.index, id), n.pending) == Expected(cfg.me, id, Get(n.contract, id));
      StepMirrored(cfg.me, n.contract, step, id);
      EntryAfterConcat(cfg.me, id, EntryOf(n.index, id), n.pending, LogsOfStep(n.contract, step));
    }
  }

  lemma IndexingStaysBehind(cfg: Config, n: Node)
    requires LagsBehind(cfg, n) && TicketsSound(cfg, n) && n.pending != []
    ensures LagsBehind(cfg, n.(index := Apply(cfg, n.index, n.pending[0]), pending := n.pending[1..]))
  {
    hide Apply;
    hide Expected;
    var index' := Apply(cfg, n.index, n.pending[0]);
    forall id ensures EntryAfter(cfg.me, id, EntryOf(index', id), n.pending[1..]) == Expected(cfg.me, id, Get(n.contract, id)) {
      assert EntryAfter(cfg.me, id, EntryOf(n.index, id), n.pending) == Expected(cfg.me, id, Get(n.contract, id));
      EntryFollows(cfg, n.index, n.pending[0], id);
    }
  }

  lemma SameChannelsStayBehind(cfg: Config, n: Node, n': Node)
    requires LagsBehind(cfg, n)
    requires n'.contract == n.contract && n'.pending == n.pending && n'.index.channels == n.index.channels
    ensures LagsBehind(cfg, n')
  {
    hide Expected;
    hide EntryAfter;
    forall id ensures EntryAfter(cfg.me, id, EntryOf(n'.index, id), n'.pending) == Expected(cfg.me, id, Get(n'.contract, id)) {
      assert EntryAfter(cfg.me, id, EntryOf(n.index, id), n.pending) == Expected(cfg.me, id, Get(n.contract, id));
    }
  }

  lemma OtherStepsKeepChannels(cfg: Config, n: Node, s: NodeStep)
    requires Enabled(cfg, n, s) && !s.Mine? && !s.IndexNextLog?
    ensures var n' := Next(cfg, n, s);
      n'.contract == n.contract && n'.pending == n.pending && n'.index.channels == n.index.channels
  {
    hide WithStatus;
    hide Selected;
    hide NextInLine;
    hide ResetRow;
  }

  lemma StaysBehind(cfg: Config, n: Node, s: NodeStep)
    requires LagsBehind(cfg, n) && TicketsSound(cfg, n) && Enabled(cfg, n, s)
    ensures LagsBehind(cfg, Next(cfg, n, s))
  {
    hide LagsBehind;
    hide TicketsSound;
    hide WithStatus;
    hide ResetRow;
    if s.Mine? {
      MiningStaysBehind(cfg, n, s.step);
    } else if s.IndexNextLog? {
      IndexingStaysBehind(cfg, n);
    } else {
      OtherStepsKeepChannels(cfg, n, s);
      SameChannelsStayBehind(cfg, n, Next(cfg, n, s));
    }
  }

  // ---------- ticket value is conserved ----------

  ghost predicate Conserved(n: Node) {
    forall c :: LiveValue(n.index.store, c) + CountedValue(n.index.store.stats, c) == Arrived(n.arrived, c)
  }

  lemma ArrivalAddsValue(store: Store, k: TicketKey, t: Ticket, c: ChannelId)
    requires k !in store.tickets
    ensures LiveValue(store.(tickets := store.tickets[k := t]), c)
         == LiveValue(store, c) + if c == k.channel then t.amount else 0
  {
    var tickets' := store.tickets[k := t];
    var before, after := OnChannel(store.tickets.Keys, c), OnChannel(tickets'.Keys, c);
    ValueSame(store.tickets, tickets', before);
    if c == k.channel {
      assert after - {k} == before;
      ValueRemove(tickets', after, k);
    } else {
      assert after == before;
    }
  }

  lemma StatusKeepsValue(store: Store, keys: set<TicketKey>, status: TicketStatus, c: ChannelId)
    ensures LiveValue(store.(tickets := WithStatus(store.tickets, keys, status)), c) == LiveValue(store, c)
  {
    ValueSame(store.tickets, WithStatus(store.tickets, keys, status), OnChannel(store.tickets.Keys, c));
  }

  lemma StepConserves(cfg: Config, n: Node, s: NodeStep)
    requires Conserved(n) && RangesDisjoint(n.index.store.tickets) && Known(n) && Enabled(cfg, n, s)
    ensures Conserved(Next(cfg, n, s))
  {
    hide Apply;
    hide LiveValue;
    hide WithStatus;
    hide Selected;
    hide LogsOfStep;
    hide ContractAfter;
    hide DirectionOf;
    hide ResetSelector;
    hide NextInLine;
    hide CountedValue;
    hide Credited;
    var store := n.index.store;
    forall c ensures var n' := Next(cfg, n, s);
      LiveValue(n'.index.store, c) + CountedValue(n'.index.store.stats, c) == Arrived(n'.arrived, c)
    {
      assert LiveValue(store, c) + CountedValue(store.stats, c) == Arrived(n.arrived, c);
      match s
      case IndexNextLog => LogConservesValue(cfg, n.index, n.pending[0], c);
      case TicketArrives(k, t) => ArrivalAddsValue(store, k, t, c);
      case TicketRejectedUnsaved(d, amount) => RejectionCounts(store, d, amount, c);
      case MarkNext(_, k, _, _) => StatusKeepsValue(store, {k}, BeingRedeemed, c);
      case Fail(a) => FailKeepsValue(store, n.inFlight[a], c);
      case BeginAggregation(keys) => StatusKeepsValue(store, keys, BeingAggregated, c);
      case RollbackAggregation(keys) => StatusKeepsValue(store, keys, Untouched, c);
      case RepairNextTickets => StatusKeepsValue(store, NextInLine(cfg, n.index), Untouched, c);
      case _ =>
    }
  }

  lemma RejectionCounts(store: Store, d: ChannelId, amount: nat, c: ChannelId)
    ensures var stats := store.stats[d := Credited(StatsOf(store.stats, d), Rejected, amount)];
      && LiveValue(store.(stats := stats), c) == LiveValue(store, c)
      && CountedValue(stats, c) == CountedValue(store.stats, c) + if c == d then amount else 0
  {
    StatsKeepLiveValue(store, store.stats[d := Credited(StatsOf(store.stats, d), Rejected, amount)], c);
  }

  lemma StatsKeepLiveValue(store: Store, stats: map<ChannelId, Stats>, c: ChannelId)
    ensures LiveValue(store.(stats := stats), c) == LiveValue(store, c)
  {
  }

  lemma FailKeepsValue(store: Store, r: Redemption, c: ChannelId)
    ensures LiveValue(store.(tickets := ResetRow(store.tickets, r)), c) == LiveValue(store, c)
  {
    StatusKeepsValue(store, Selected(store.tickets, ResetSelector(r)), Untouched, c);
  }

  // ---------- the invariant over every run ----------

  ghost predicate Inv(cfg: Config, n: Node) {
    TicketsSound(cfg, n) && Known(n) && LagsBehind(cfg, n) && Conserved(n)
  }

  /**
   Over every interleaving: live tickets stay current and disjoint, the index lags behind the contract without
   disagreeing, and live, redeemed, neglected and rejected value add up to what arrived on each channel.
   */
  lemma {:induction false} RunKeepsInvariant(cfg: Config, n: Node, steps: seq<NodeStep>)
    requires Inv(cfg, n) && IsRun(cfg, n, steps)
    ensures Inv(cfg, Run(cfg, n, steps))
    decreases |steps|
  {
    hide Enabled;
    hide Next;
    hide TicketsSound;
    hide Known;
    hide LagsBehind;
    hide Conserved;
    if steps != [] {
      assert RangesDisjoint(n.index.store.tickets) by { SoundIsDisjoint(cfg, n); }
      TicketsStaySound(cfg, n, steps[0]);
      StaysKnown(cfg, n, steps[0]);
      StaysBehind(cfg, n, steps[0]);
      StepConserves(cfg, n, steps[0]);
      RunKeepsInvariant(cfg, Next(cfg, n, steps[0]), steps[1..]);
    }
  }

  lemma SoundIsDisjoint(cfg: Config, n: Node)
    requires TicketsSound(cfg, n)
    ensures RangesDisjoint(n.index.store.tickets)
  {
  }

  function FreshNode(index: Index, noticePeriod: nat): Node {
    Node(Contract(map[], noticePeriod), [], index.(channels := map[], store := Store(map[], map[])), map[], map[], {}, map[])
  }

  /** A node and a contract that start together satisfy the invariant, and so does every state they reach. */
  lemma ReachableKeepsInvariant(cfg: Config, index: Index, noticePeriod: nat, steps: seq<NodeStep>)
    requires IsRun(cfg, FreshNode(index, noticePeriod), steps)
    ensures Inv(cfg, Run(cfg, FreshNode(index, noticePeriod), steps))
  {
    hide IsRun;
    hide Run;
    var n := FreshNode(index, noticePeriod);
    assert Conserved(n) by {
      forall c ensures LiveValue(n.index.store, c) + CountedValue(n.index.store.stats, c) == Arrived(n.arrived, c) {
        assert OnChannel({}, c) == {};
      }
    }
    RunKeepsInvariant(cfg, n, steps);
  }

  /** A node that has indexed every mined log agrees with the contract. */
  lemma CaughtUpAgrees(cfg: Config, n: Node)
    requires LagsBehind(cfg, n) && n.pending == []
    ensures Agrees(cfg, n.contract, n.index)
  {
    forall id ensures EntryOf(n.index, id) == Expected(cfg.me, id, Get(n.contract, id)) {
      assert EntryAfter(cfg.me, id, EntryOf(n.index, id), n.pending) == EntryOf(n.index, id);
    }
  }

  // ---------- at most one redemption per ticket ----------

  /**
   No ticket is in two redemptions. While it is in one, its row is marked as such or already gone, and the
   redemption remembers rightly whether the ticket was an aggregate.
   */
  ghost predicate Exclusive(n: Node) {
    && (forall a, b :: a in n.inFlight && b in n.inFlight && a != b ==> n.inFlight[a].ticket != n.inFlight[b].ticket)
    && (forall a :: a in n.inFlight && n.inFlight[a].ticket in n.index.store.tickets ==>
          var row := n.index.store.tickets[n.inFlight[a].ticket];
          row.status == BeingRedeemed && n.inFlight[a].aggregated == (row.offset > 1))
  }

  /** Rows read by a call that has not updated them yet are in no redemption and were read by no other call. */
  ghost predicate CursorsApart(n: Node) {
    && (forall c, a :: c in n.cursors && a in n.inFlight ==> n.inFlight[a].ticket !in n.cursors[c])
    && (forall c, d :: c in n.cursors && d in n.cursors && c != d ==> n.cursors[c] !! n.cursors[d])
  }

  /** No row is read that another call has read and has yet to update. */
  ghost predicate ReadsApart(n: Node, s: NodeStep) {
    s.OpenCursor? ==> forall c :: c in n.cursors ==> n.cursors[c] !! Selected(n.index.store.tickets, s.selector)
  }

  lemma ResetIsExact(tickets: TicketTable, r: Redemption)
    requires r.ticket in tickets ==> r.aggregated == (tickets[r.ticket].offset > 1)
    ensures ResetRow(tickets, r) == WithStatus(tickets, {r.ticket}, Untouched)
  {
    var sel := ResetSelector(r);
    forall k | k in tickets ensures k in Selected(tickets, sel) <==> k == r.ticket {
      assert (k.channel, k.epoch) in sel.identifiers <==> k.channel == r.ticket.channel && k.epoch == r.ticket.epoch;
    }
  }

  /** A failed redemption gives back its own ticket, once, and changes no other row. */
  lemma FailureGivesBack(cfg: Config, n: Node, a: nat)
    requires Exclusive(n) && Enabled(cfg, n, Fail(a))
    ensures var n', k := Next(cfg, n, Fail(a)), n.inFlight[a].ticket;
      && a !in n'.inFlight && (forall b :: b in n'.inFlight ==> n'.inFlight[b].ticket != k)
      && n'.index.store.tickets.Keys == n.index.store.tickets.Keys
      && (k in n.index.store.tickets ==>
            n.index.store.tickets[k].status == BeingRedeemed
            && n'.index.store.tickets[k] == n.index.store.tickets[k].(status := Untouched))
      && (forall j :: j in n.index.store.tickets && j != k ==> n'.index.store.tickets[j] == n.index.store.tickets[j])
  {
    ResetIsExact(n.index.store.tickets, n.inFlight[a]);
  }

  /**
   A redemption is held, then queued, then executing, and leaves when it is given up, succeeds, fails or the node
   restarts, and only then.
   */
  lemma RedemptionsMove(cfg: Config, n: Node, s: NodeStep, a: nat)
    requires Enabled(cfg, n, s) && a in n.inFlight
    ensures var before, after := n.inFlight, Next(cfg, n, s).inFlight;
      && (a !in after <==> s == Abandon(a) || s == Succeed(a) || s == Fail(a) || s.Restart?)
      && (s == Abandon(a) || s == Enqueue(a) ==> before[a].stage == Held)
      && (s == Start(a) ==> before[a].stage == Queued)
      && (s == Succeed(a) || s == Fail(a) ==> before[a].stage == Executing)
      && (a in after ==>
            && after[a].ticket == before[a].ticket && after[a].aggregated == before[a].aggregated
            && after[a].stage == if s == Enqueue(a) then Queued else if s == Start(a) then Executing else before[a].stage)
  {
    hide Apply;
    hide Selected;
    hide LogsOfStep;
    hide ContractAfter;
    hide WithStatus;
    hide ResetRow;
    hide NextInLine;
    hide DirectionOf;
  }

  ghost predicate Apart(n: Node) {
    Exclusive(n) && CursorsApart(n)
  }

  lemma ReadsUntouched(tickets: TicketTable, sel: TicketSelector)
    requires sel.state == Some(Untouched)
    ensures forall k :: k in Selected(tickets, sel) ==> tickets[k].status == Untouched
  {
  }

  lemma ApartIsExclusive(n: Node)
    requires Apart(n)
    ensures Exclusive(n)
  {
  }

  ghost predicate FewerHeld(n: Node, n': Node) {
    && n'.inFlight.Keys <= n.inFlight.Keys
    && (forall a :: a in n'.inFlight ==> n'.inFlight[a].ticket == n.inFlight[a].ticket && n'.inFlight[a].aggregated == n.inFlight[a].aggregated)
    && n'.cursors.Keys <= n.cursors.Keys
    && (forall c :: c in n'.cursors ==> n'.cursors[c] == n.cursors[c])
  }

  lemma FewerHeldStayApart(n: Node, n': Node)
    requires Apart(n) && FewerHeld(n, n')
    requires var before, after := n.index.store.tickets, n'.index.store.tickets;
      forall a :: a in n'.inFlight && n.inFlight[a].ticket in after ==>
        n.inFlight[a].ticket in before && after[n.inFlight[a].ticket] == before[n.inFlight[a].ticket]
    ensures Apart(n')
  {
  }

  lemma MarkingKeepsApart(cfg: Config, n: Node, call: nat, k: TicketKey, action: nat, aggregated: bool)
    requires Apart(n) && Enabled(cfg, n, MarkNext(call, k, action, aggregated))
    ensures Apart(Next(cfg, n, MarkNext(call, k, action, aggregated)))
  {
    hide Apply;
    hide LogsOfStep;
    hide ContractAfter;
    hide ResetRow;
    hide Selected;
    var n' := Next(cfg, n, MarkNext(call, k, action, aggregated));
    assert CursorsApart(n') by {
      hide Exclusive;
      hide WithStatus;
      assert forall c :: c in n'.cursors ==> n'.cursors[c] <= n.cursors[c];
    }
    assert Exclusive(n');
  }

  lemma ReadingKeepsApart(cfg: Config, n: Node, call: nat, sel: TicketSelector)
    requires Apart(n) && Enabled(cfg, n, OpenCursor(call, sel)) && ReadsApart(n, OpenCursor(call, sel))
    ensures Apart(Next(cfg, n, OpenCursor(call, sel)))
  {
    hide Apply;
    hide LogsOfStep;
    hide ContractAfter;
    hide ResetRow;
    hide Selects;
    ReadsUntouched(n.index.store.tickets, sel);
  }

  lemma StepKeepsApart(cfg: Config, n: Node, s: NodeStep)
    requires Apart(n) && Known(n) && RangesDisjoint(n.index.store.tickets)
    requires Enabled(cfg, n, s) && ReadsApart(n, s)
    ensures Apart(Next(cfg, n, s))
  {
    hide Apart;
    hide Known;
    hide Enabled;
    hide Next;
    hide RangesDisjoint;
    var n' := Next(cfg, n, s);
    if s.OpenCursor? {
      ReadingKeepsApart(cfg, n, s.call, s.selector);
    } else if s.MarkNext? {
      MarkingKeepsApart(cfg, n, s.call, s.key, s.action, s.aggregated);
    } else {
      assert Exclusive(n) by { ApartIsExclusive(n); }
      HeldRowsUntouched(cfg, n, s);
      FewerHeldStayApart(n, n');
    }
  }

  lemma FewerAreHeld(cfg: Config, n: Node, s: NodeStep)
    requires Enabled(cfg, n, s) && !s.OpenCursor? && !s.MarkNext?
    ensures FewerHeld(n, Next(cfg, n, s))
  {
    hide Apply;
    hide Selected;
    hide LogsOfStep;
    hide ContractAfter;
    hide ResetRow;
    hide WithStatus;
    hide WithTickets;
    hide DirectionOf;
  }

  lemma HeldRowsUntouched(cfg: Config, n: Node, s: NodeStep)
    requires Exclusive(n) && Known(n) && RangesDisjoint(n.index.store.tickets)
    requires Enabled(cfg, n, s) && !s.OpenCursor? && !s.MarkNext?
    ensures var n' := Next(cfg, n, s);
      && FewerHeld(n, n')
      && forall a :: a in n'.inFlight && n.inFlight[a].ticket in n'.index.store.tickets ==>
        && n.inFlight[a].ticket in n.index.store.tickets
        && n'.index.store.tickets[n.inFlight[a].ticket] == n.index.store.tickets[n.inFlight[a].ticket]
  {
    hide Apply;
    hide Selected;
    hide LogsOfStep;
    hide ContractAfter;
    hide RangesDisjoint;
    hide ResetRow;
    hide DirectionOf;
    hide FewerHeld;
    FewerAreHeld(cfg, n, s);
    match s
    case IndexNextLog => TicketsFollow(cfg, n.index, n.pending[0]);
    case Fail(a) =>
      ResetIsExact(n.index.store.tickets, n.inFlight[a]);
      OthersKeepTheirTicket(cfg, n, a);
    case _ =>
  }

  lemma OthersKeepTheirTicket(cfg: Config, n: Node, a: nat)
    requires Exclusive(n) && a in n.inFlight
    ensures forall b :: b in n.inFlight - {a} ==> n.inFlight[b].ticket != n.inFlight[a].ticket
  {
  }

  ghost predicate IsCarefulRun(cfg: Config, n: Node, steps: seq<NodeStep>)
    decreases |steps|
  {
    steps == [] || (Enabled(cfg, n, steps[0]) && ReadsApart(n, steps[0]) && IsCarefulRun(cfg, Next(cfg, n, steps[0]), steps[1..]))
  }

  lemma {:induction false} CarefulIsRun(cfg: Config, n: Node, steps: seq<NodeStep>)
    requires IsCarefulRun(cfg, n, steps)
    ensures IsRun(cfg, n, steps)
    decreases |steps|
  {
    hide Enabled;
    hide Next;
    hide ReadsApart;
    if steps != [] {
      CarefulIsRun(cfg, Next(cfg, n, steps[0]), steps[1..]);
    }
  }

  /** Redemption stays exclusive over every run in which no two calls have read the same row at once. */
  lemma {:induction false} CarefulRunIsExclusive(cfg: Config, n: Node, steps: seq<NodeStep>)
    requires Apart(n) && Known(n) && TicketsSound(cfg, n) && IsCarefulRun(cfg, n, steps)
    ensures IsRun(cfg, n, steps) && Apart(Run(cfg, n, steps))
    decreases |steps|
  {
    hide Enabled;
    hide Next;
    hide TicketsSound;
    hide Known;
    hide Apart;
    hide ReadsApart;
    CarefulIsRun(cfg, n, steps);
    if steps != [] {
      assert RangesDisjoint(n.index.store.tickets) by { SoundIsDisjoint(cfg, n); }
      TicketsStaySound(cfg, n, steps[0]);
      StaysKnown(cfg, n, steps[0]);
      StepKeepsApart(cfg, n, steps[0]);
      CarefulRunIsExclusive(cfg, Next(cfg, n, steps[0]), steps[1..]);
    }
  }

  /** Exclusive now, and after any continuation whose reads stay apart. */
  ghost predicate AlwaysExclusive(cfg: Config, n: Node) {
    forall steps :: IsCarefulRun(cfg, n, steps) ==> IsRun(cfg, n, steps) && Exclusive(Run(cfg, n, steps))
  }

  function IsAggregate(n: Node, k: TicketKey): bool {
    k in n.index.store.tickets && n.index.store.tickets[k].offset > 1
  }

  /** Marking a row that is already in redemption puts it in two. */
  lemma SecondMarkBreaks(cfg: Config, n: Node, call: nat, a: nat)
    requires call in n.cursors && a in n.inFlight && n.inFlight[a].ticket in n.cursors[call]
    ensures !AlwaysExclusive(cfg, n)
  {
    hide Apply;
    hide ContractAfter;
    hide LogsOfStep;
    hide Selected;
    hide ResetRow;
    var k := n.inFlight[a].ticket;
    var b := Unused(n.inFlight.Keys);
    var s := MarkNext(call, k, b, IsAggregate(n, k));
    var n' := Next(cfg, n, s);
    assert IsCarefulRun(cfg, n, [s]) by {
      assert [s][1..] == [];
      assert IsCarefulRun(cfg, n', []);
    }
    if IsRun(cfg, n, [s]) {
      assert [s][1..] == [];
      assert Run(cfg, n, [s]) == n';
      assert n'.inFlight[a].ticket == n'.inFlight[b].ticket && a != b;
      assert !Exclusive(n');
    }
  }

  lemma AlwaysExclusiveAfter(cfg: Config, n: Node, s: NodeStep)
    requires AlwaysExclusive(cfg, n) && Enabled(cfg, n, s) && ReadsApart(n, s)
    ensures AlwaysExclusive(cfg, Next(cfg, n, s))
  {
    hide Enabled;
    hide Next;
    hide ReadsApart;
    hide Exclusive;
    var n' := Next(cfg, n, s);
    forall steps | IsCarefulRun(cfg, n', steps) ensures IsRun(cfg, n', steps) && Exclusive(Run(cfg, n', steps)) {
      assert ([s] + steps)[0] == s && ([s] + steps)[1..] == steps;
      assert IsCarefulRun(cfg, n, [s] + steps);
    }
  }

  lemma SharedReadBreaks(cfg: Config, n: Node, c: nat, d: nat, k: TicketKey)
    requires c != d && c in n.cursors && d in n.cursors && k in n.cursors[c] && k in n.cursors[d]
    ensures !AlwaysExclusive(cfg, n)
  {
    hide Apply;
    hide ContractAfter;
    hide LogsOfStep;
    hide Selected;
    hide ResetRow;
    hide AlwaysExclusive;
    if AlwaysExclusive(cfg, n) {
      var a := Unused(n.inFlight.Keys);
      var s := MarkNext(c, k, a, IsAggregate(n, k));
      AlwaysExclusiveAfter(cfg, n, s);
      SecondMarkBreaks(cfg, Next(cfg, n, s), d, a);
    }
  }

  /**
   What the fetching calls must guarantee is exactly that pending reads are apart from each other and from
   all redemptions: with it redemption stays exclusive for ever, without it some run breaks it.
   */
  lemma ExclusionExact(cfg: Config, n: Node)
    requires Exclusive(n) && Known(n) && TicketsSound(cfg, n)
    ensures AlwaysExclusive(cfg, n) <==> CursorsApart(n)
  {
    if CursorsApart(n) {
      forall steps | IsCarefulRun(cfg, n, steps) ensures IsRun(cfg, n, steps) && Exclusive(Run(cfg, n, steps)) {
        CarefulRunIsExclusive(cfg, n, steps);
      }
    } else if c, a :| c in n.cursors && a in n.inFlight && n.inFlight[a].ticket in n.cursors[c] {
      SecondMarkBreaks(cfg, n, c, a);
    } else {
      var c, d :| c in n.cursors && d in n.cursors && c != d && !(n.cursors[c] !! n.cursors[d]);
      var k :| k in n.cursors[c] && k in n.cursors[d];
      SharedReadBreaks(cfg, n, c, d, k);
    }
  }

  /**
   A fetch reads its rows before it updates them one by one without checking their state again. So a call
   that reads while another has read the same row is enough: from there a run redeems the ticket twice.
   */
  lemma OverlappingReadBreaks(cfg: Config, n: Node, s: NodeStep)
    requires Apart(n) && Known(n) && TicketsSound(cfg, n) && Enabled(cfg, n, s)
    ensures AlwaysExclusive(cfg, Next(cfg, n, s)) <==> ReadsApart(n, s)
  {
    hide Apply;
    hide ContractAfter;
    hide LogsOfStep;
    hide Selects;
    hide ResetRow;
    hide AlwaysExclusive;
    hide TicketsSound;
    hide Known;
    if ReadsApart(n, s) {
      assert RangesDisjoint(n.index.store.tickets) by { SoundIsDisjoint(cfg, n); }
      StepKeepsApart(cfg, n, s);
      TicketsStaySound(cfg, n, s);
      StaysKnown(cfg, n, s);
      ExclusionExact(cfg, Next(cfg, n, s));
    } else {
      var c :| c in n.cursors && !(n.cursors[c] !! Selected(n.index.store.tickets, s.selector));
      var k :| k in n.cursors[c] && k in Selected(n.index.store.tickets, s.selector);
      SharedReadBreaks(cfg, Next(cfg, n, s), c, s.call, k);
    }
  }

  /** Two redeem calls on an untouched ticket are enough to reach such a read from a node at rest. */
  lemma TwoCallsBreak(cfg: Config, n: Node, k: TicketKey)
    requires n.cursors == map[] && n.inFlight == map[] && Known(n) && TicketsSound(cfg, n)
    requires k in n.index.store.tickets && n.index.store.tickets[k].status == Untouched
    ensures exists steps :: IsRun(cfg, n, steps) && !Exclusive(Run(cfg, n, steps))
  {
    hide Apply;
    hide ContractAfter;
    hide LogsOfStep;
    hide ResetRow;
    hide Selects;
    hide TicketsSound;
    hide Known;
    var sel := NewSelector(k.channel, k.epoch).(state := Some(Untouched));
    UntouchedIsRead(n.index.store.tickets, k, sel);
    var first, second := OpenCursor(0, sel), OpenCursor(1, sel);
    var n1 := Next(cfg, n, first);
    assert RangesDisjoint(n.index.store.tickets) by { SoundIsDisjoint(cfg, n); }
    StepKeepsApart(cfg, n, first);
    TicketsStaySound(cfg, n, first);
    StaysKnown(cfg, n, first);
    OverlappingReadBreaks(cfg, n1, second);
    var n2 := Next(cfg, n1, second);
    hide Next;
    hide Enabled;
    hide Exclusive;
    var rest :| IsCarefulRun(cfg, n2, rest) && !(IsRun(cfg, n2, rest) && Exclusive(Run(cfg, n2, rest)));
    CarefulIsRun(cfg, n2, rest);
    var later := [second] + rest;
    assert later[0] == second && later[1..] == rest;
    assert IsRun(cfg, n1, later) && Run(cfg, n1, later) == Run(cfg, n2, rest);
    var steps := [first] + later;
    assert steps[0] == first && steps[1..] == later;
    assert IsRun(cfg, n, steps) && Run(cfg, n, steps) == Run(cfg, n1, later);
  }

  lemma UntouchedIsRead(tickets: TicketTable, k: TicketKey, sel: TicketSelector)
    requires k in tickets && tickets[k].status == Untouched
    requires sel == NewSelector(k.channel, k.epoch).(state := Some(Untouched))
    ensures k in Selected(tickets, sel)
  {
  }
}
