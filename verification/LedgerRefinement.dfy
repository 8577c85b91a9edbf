/** The channel table follows the contract: after every transaction both say the same about each channel. */
module LedgerRefinement {
  import opened HoprTypes
  import opened TicketStore
  import opened Handlers
  import opened HandlerProperties
  import opened Channels

  function Seen(me: Address, c: ChannelId, e: Option<ChannelEntry>, log: ContractLog): Option<ChannelEntry> {
    if About(log, c) then NextEntry(me, c, e, log) else e
  }

  /** The entry one channel's automaton reaches over a sequence of logs. */
  function EntryAfter(me: Address, c: ChannelId, e: Option<ChannelEntry>, logs: seq<ContractLog>): Option<ChannelEntry>
    decreases |logs|
  {
    if logs == [] then e
    else EntryAfter(me, c, Seen(me, c, e, logs[0]), logs[1..])
  }

  lemma {:induction false} EntryAfterConcat(me: Address, c: ChannelId, e: Option<ChannelEntry>, a: seq<ContractLog>, b: seq<ContractLog>)
    ensures EntryAfter(me, c, e, a + b) == EntryAfter(me, c, EntryAfter(me, c, e, a), b)
    decreases |a|
  {
    if a == [] {
      assert a + b == b;
    } else {
      assert (a + b)[1..] == a[1..] + b;
      EntryAfterConcat(me, c, Seen(me, c, e, a[0]), a[1..], b);
    }
  }

  lemma {:induction false} EntryFollowsAll(cfg: Config, index: Index, logs: seq<ContractLog>, c: ChannelId)
    requires RangesDisjoint(index.store.tickets)
    ensures EntryOf(ApplyAll(cfg, index, logs), c) == EntryAfter(cfg.me, c, EntryOf(index, c), logs)
    ensures RangesDisjoint(ApplyAll(cfg, index, logs).store.tickets)
    decreases |logs|
  {
    hide Apply;
    if logs != [] {
      EntryFollows(cfg, index, logs[0], c);
      RangesStayDisjoint(cfg, index, logs[0]);
      EntryFollowsAll(cfg, Apply(cfg, index, logs[0]), logs[1..], c);
    }
  }

  function Mirrored(channel: Channel, epoch: nat): ChannelEntry {
    ChannelEntry(channel.balance, channel.ticketIndex,
      match channel.status
      case CLOSED => Closed
      case OPEN => Open
      case PENDING_TO_CLOSE => PendingToClose(channel.closureTime),
      epoch)
  }

  /**
   An own channel is mirrored field by field from its first opening on. A foreign channel is known while it
   is not closed, and always with epoch 1, because its row is deleted on closing.
   */
  function Expected(me: Address, id: ChannelId, channel: Channel): Option<ChannelEntry> {
    if Own(id, me) then
      if channel.epoch == 0 then None else Some(Mirrored(channel, channel.epoch))
    else
      if channel.status == CLOSED then None else Some(Mirrored(channel, 1))
  }

  ghost predicate Agrees(cfg: Config, contract: Contract, index: Index) {
    forall id :: EntryOf(index, id) == Expected(cfg.me, id, Get(contract, id))
  }

  lemma EntryAfterFew(me: Address, c: ChannelId, e: Option<ChannelEntry>, a: ContractLog, b: ContractLog, d: ContractLog)
    ensures EntryAfter(me, c, e, [a]) == Seen(me, c, e, a)
    ensures EntryAfter(me, c, e, [a, b]) == Seen(me, c, Seen(me, c, e, a), b)
    ensures EntryAfter(me, c, e, [a, b] + [d]) == Seen(me, c, Seen(me, c, Seen(me, c, e, a), b), d)
  {
    hide Seen;
    var e1 := Seen(me, c, e, a);
    var e2 := Seen(me, c, e1, b);
    assert [a, b][1..] == [b] && ([a, b] + [d])[1..] == [b, d] && [b, d][1..] == [d];
    assert EntryAfter(me, c, e1, [b]) == e2;
    assert EntryAfter(me, c, e2, [d]) == Seen(me, c, e2, d);
    assert EntryAfter(me, c, e1, [b, d]) == EntryAfter(me, c, e2, [d]);
  }

  lemma CallMirrored(me: Address, contract: Contract, call: Call, id: ChannelId)
    requires Sound(contract) && Execute(contract, call).Mined?
    ensures var receipt := Execute(contract, call);
      EntryAfter(me, id, Expected(me, id, Get(contract, id)), receipt.logs) == Expected(me, id, Get(receipt.contract, id))
  {
    hide EntryAfter;
    hide Redeem;
    if call.RedeemTicket? {
      RedeemMirrored(me, contract, call, id);
    } else {
      var logs := Execute(contract, call).logs;
      EntryAfterFew(me, id, Expected(me, id, Get(contract, id)), logs[0], if |logs| > 1 then logs[1] else logs[0], logs[0]);
    }
  }

  lemma RedeemMirrored(me: Address, contract: Contract, call: Call, id: ChannelId)
    requires Sound(contract) && call.RedeemTicket? && Execute(contract, call).Mined?
    ensures var receipt := Execute(contract, call);
      EntryAfter(me, id, Expected(me, id, Get(contract, id)), receipt.logs) == Expected(me, id, Get(receipt.contract, id))
  {
    hide EntryAfter;
    var logs := Execute(contract, call).logs;
    EntryAfterFew(me, id, Expected(me, id, Get(contract, id)), logs[0], logs[1], if |logs| > 2 then logs[2] else logs[0]);
  }

  // A call to the channels contract, or a log of another contract the node listens to.
  datatype ChainStep = Transaction(call: Call) | Elsewhere(log: ContractLog)

  function ContractAfter(contract: Contract, step: ChainStep): Contract {
    if step.Transaction? && Execute(contract, step.call).Mined? then Execute(contract, step.call).contract
    else contract
  }

  function LogsOfStep(contract: Contract, step: ChainStep): seq<ContractLog> {
    match step
    case Transaction(call) => (match Execute(contract, call) case Reverted => [] case Mined(_, logs) => logs)
    case Elsewhere(log) => if IsChannelLog(log) then [] else [log]
  }

  function RunContract(contract: Contract, steps: seq<ChainStep>): Contract
    decreases |steps|
  {
    if steps == [] then contract else RunContract(ContractAfter(contract, steps[0]), steps[1..])
  }

  function LogsOf(contract: Contract, steps: seq<ChainStep>): seq<ContractLog>
    decreases |steps|
  {
    if steps == [] then []
    else LogsOfStep(contract, steps[0]) + LogsOf(ContractAfter(contract, steps[0]), steps[1..])
  }

  lemma StepMirrored(me: Address, contract: Contract, step: ChainStep, id: ChannelId)
    requires Sound(contract)
    ensures EntryAfter(me, id, Expected(me, id, Get(contract, id)), LogsOfStep(contract, step))
         == Expected(me, id, Get(ContractAfter(contract, step), id))
  {
    hide Execute;
    if step.Transaction? && Execute(contract, step.call).Mined? {
      CallMirrored(me, contract, step.call, id);
    }
  }

  lemma StepAgrees(cfg: Config, contract: Contract, index: Index, step: ChainStep)
    requires Sound(contract) && Agrees(cfg, contract, index) && RangesDisjoint(index.store.tickets)
    ensures var contract', index' := ContractAfter(contract, step), ApplyAll(cfg, index, LogsOfStep(contract, step));
      Sound(contract') && Agrees(cfg, contract', index') && RangesDisjoint(index'.store.tickets)
  {
    hide Execute;
    hide ApplyAll;
    hide EntryAfter;
    hide Expected;
    hide LogsOfStep;
    if step.Transaction? && Execute(contract, step.call).Mined? {
      ExecuteStaysSound(contract, step.call);
    }
    var index' := ApplyAll(cfg, index, LogsOfStep(contract, step));
    EntryFollowsAll(cfg, index, LogsOfStep(contract, step), ChannelId(0, 0));
    forall id ensures EntryOf(index', id) == Expected(cfg.me, id, Get(ContractAfter(contract, step), id)) {
      EntryFollowsAll(cfg, index, LogsOfStep(contract, step), id);
      StepMirrored(cfg.me, contract, step, id);
    }
  }

  /**
   Over every run of transactions and other logs, the index that has folded the logs agrees with the
   contract. Which epoch a foreign channel shows is part of `Expected`.
   */
  lemma {:induction false} RunAgrees(cfg: Config, contract: Contract, index: Index, steps: seq<ChainStep>)
    requires Sound(contract) && Agrees(cfg, contract, index) && RangesDisjoint(index.store.tickets)
    ensures var contract', index' := RunContract(contract, steps), ApplyAll(cfg, index, LogsOf(contract, steps));
      Sound(contract') && Agrees(cfg, contract', index') && RangesDisjoint(index'.store.tickets)
    decreases |steps|
  {
    hide Execute;
    hide Apply;
    hide LogsOfStep;
    hide Sound;
    hide Expected;
    hide ContractAfter;
    if steps != [] {
      StepAgrees(cfg, contract, index, steps[0]);
      var now := LogsOfStep(contract, steps[0]);
      var later := LogsOf(ContractAfter(contract, steps[0]), steps[1..]);
      ApplyAllConcat(cfg, index, now, later);
      RunAgrees(cfg, ContractAfter(contract, steps[0]), ApplyAll(cfg, index, now), steps[1..]);
    }
  }

  /** A node that starts with an empty channel table at the contract's deployment agrees with it ever after. */
  lemma FreshNodeAgrees(cfg: Config, noticePeriod: nat, index: Index, steps: seq<ChainStep>)
    requires index.channels == map[] && RangesDisjoint(index.store.tickets)
    ensures var start := Contract(map[], noticePeriod);
      Agrees(cfg, RunContract(start, steps), ApplyAll(cfg, index, LogsOf(start, steps)))
  {
    RunAgrees(cfg, Contract(map[], noticePeriod), index, steps);
  }

  /** How often the logs open a channel that the node shows as closed. */
  function Reopenings(me: Address, c: ChannelId, e: Option<ChannelEntry>, logs: seq<ContractLog>): nat
    decreases |logs|
  {
    if logs == [] then 0
    else
      (if About(logs[0], c) && logs[0].ChannelOpened? && e.Some? && e.value.status == Closed then 1 else 0)
      + Reopenings(me, c, Seen(me, c, e, logs[0]), logs[1..])
  }

  /** An own channel, once known, stays known, and its epoch grows by one per re-opening and never otherwise. */
  lemma {:induction false} OwnEpochCountsReopenings(cfg: Config, index: Index, logs: seq<ContractLog>, c: ChannelId)
    requires RangesDisjoint(index.store.tickets) && Own(c, cfg.me) && c in index.channels
    ensures var after := ApplyAll(cfg, index, logs);
      c in after.channels
      && after.channels[c].epoch == index.channels[c].epoch + Reopenings(cfg.me, c, EntryOf(index, c), logs)
    decreases |logs|
  {
    hide Apply;
    if logs != [] {
      EntryFollows(cfg, index, logs[0], c);
      RangesStayDisjoint(cfg, index, logs[0]);
      OwnEpochCountsReopenings(cfg, Apply(cfg, index, logs[0]), logs[1..], c);
    }
  }

  /** The epoch shown for an open foreign channel is the contract's exactly while it is in its first epoch. */
  lemma ForeignEpochExact(cfg: Config, contract: Contract, index: Index, id: ChannelId)
    requires Sound(contract) && Agrees(cfg, contract, index)
    requires !Own(id, cfg.me) && Get(contract, id).status != CLOSED
    ensures id in index.channels
    ensures index.channels[id].epoch == Get(contract, id).epoch <==> Get(contract, id).epoch == 1
  {
    assert EntryOf(index, id) == Expected(cfg.me, id, Get(contract, id));
  }

  /** Opening, closing and reopening a channel between two strangers is a run where the epochs differ. */
  lemma ForeignEpochDiffers()
    ensures var start, id := Contract(map[], 10), ChannelId(2, 3);
      var steps := [Transaction(FundChannel(2, 3, 5, true)), Transaction(CloseIncomingChannel(3, 2, true)),
                    Transaction(FundChannel(2, 3, 5, true))];
      Get(RunContract(start, steps), id) == Channel(5, 0, 0, 2, OPEN)
  {
    var start, id := Contract(map[], 10), ChannelId(2, 3);
    var fund, close := Transaction(FundChannel(2, 3, 5, true)), Transaction(CloseIncomingChannel(3, 2, true));
    var c1 := ContractAfter(start, fund);
    var c2 := ContractAfter(c1, close);
    var c3 := ContractAfter(c2, fund);
    assert Get(c1, id) == Channel(5, 0, 0, 1, OPEN);
    assert Get(c2, id) == Channel(0, 0, 0, 1, CLOSED);
    assert [fund, close, fund][1..] == [close, fund] && [close, fund][1..] == [fund] && [fund][1..] == [];
    assert RunContract(c2, [fund]) == c3;
    assert RunContract(c1, [close, fund]) == c3;
  }
}
