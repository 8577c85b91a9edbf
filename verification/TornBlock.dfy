/**
 The index and the tickets live in two databases. A block's changes to the index are committed together, but
 its changes to the tickets at once, log by log. So a crash inside a block leaves the tickets as after some of
 its logs and the rest as before the block. Running the block again then gives the same state as running it
 once without a crash, except for outgoing indices that had not reached the disk.
 */
module TornBlock {
  import opened HoprTypes
  import opened TicketStore
  import opened Handlers
  import opened HandlerProperties
  import opened LedgerRefinement
  import opened CrashReplay
  import opened OutgoingIndices

  /** What a crash leaves with its memory still at hand: tickets and outgoing indices after the given logs. */
  ghost function TornAfter(cfg: Config, index: Index, logs: seq<ContractLog>): Index {
    index.(store := ApplyAll(cfg, index, logs).store, outgoing := ApplyAll(cfg, index, logs).outgoing)
  }

  /** Two indices that differ in tickets and outgoing indices at most. */
  predicate SameOnChain(x: Index, y: Index) {
    && x.channels == y.channels && x.safeBalance == y.safeBalance
    && x.safeAllowance == y.safeAllowance && x.minWinProb == y.minWinProb
  }

  ghost predicate SubTable(fewer: TicketTable, tickets: TicketTable) {
    forall k :: k in fewer ==> k in tickets && fewer[k] == tickets[k]
  }

  lemma SameOnChainStays(cfg: Config, x: Index, y: Index, log: ContractLog)
    requires SameOnChain(x, y) && RangesDisjoint(x.store.tickets) && RangesDisjoint(y.store.tickets)
    ensures SameOnChain(Apply(cfg, x, log), Apply(cfg, y, log))
  {
    hide MarkAs;
    hide MarkKeys;
    hide Settle;
    if log.TicketRedeemed? && log.id in x.channels {
      AtMostOneMatch(x.store.tickets, log.id, x.channels[log.id], log.newTicketIndex);
      AtMostOneMatch(y.store.tickets, log.id, y.channels[log.id], log.newTicketIndex);
    }
  }

  lemma RemovedIsMonotone(cfg: Config, x: Index, y: Index, log: ContractLog)
    requires SameOnChain(x, y) && SubTable(x.store.tickets, y.store.tickets)
    ensures Removed(cfg, x, log) <= Removed(cfg, y, log)
  {
  }

  lemma SubTableIsDisjoint(fewer: TicketTable, tickets: TicketTable)
    requires SubTable(fewer, tickets) && RangesDisjoint(tickets)
    ensures RangesDisjoint(fewer)
  {
  }

  lemma {:induction false} TicketsShrink(cfg: Config, index: Index, logs: seq<ContractLog>)
    requires RangesDisjoint(index.store.tickets)
    ensures SubTable(ApplyAll(cfg, index, logs).store.tickets, index.store.tickets)
    decreases |logs|
  {
    hide Apply;
    hide RangesDisjoint;
    if logs != [] {
      RangesStayDisjoint(cfg, index, logs[0]);
      TicketsFollow(cfg, index, logs[0]);
      TicketsShrink(cfg, Apply(cfg, index, logs[0]), logs[1..]);
    }
  }

  /** Once the tickets a log removes are gone, the log does not touch the store when it is seen again. */
  lemma AlreadyRemoved(cfg: Config, index: Index, torn: Index, logs: seq<ContractLog>)
    requires logs != [] && SameOnChain(torn, index) && RangesDisjoint(index.store.tickets)
    requires SubTable(torn.store.tickets, ApplyAll(cfg, index, logs).store.tickets)
    ensures SubTable(torn.store.tickets, index.store.tickets) && RangesDisjoint(torn.store.tickets)
    ensures Apply(cfg, torn, logs[0]).store == torn.store
  {
    hide Apply;
    hide Removed;
    TicketsShrink(cfg, index, logs);
    SubTableIsDisjoint(torn.store.tickets, index.store.tickets);
    RangesStayDisjoint(cfg, index, logs[0]);
    TicketsShrink(cfg, Apply(cfg, index, logs[0]), logs[1..]);
    RemovedIsMonotone(cfg, torn, index, logs[0]);
    TicketsFollow(cfg, index, logs[0]);
    TicketsFollow(cfg, torn, logs[0]);
    assert Removed(cfg, torn, logs[0]) == {};
  }

  lemma {:induction false} ReplayKeepsStore(cfg: Config, index: Index, torn: Index, logs: seq<ContractLog>)
    requires SameOnChain(torn, index) && RangesDisjoint(index.store.tickets)
    requires SubTable(torn.store.tickets, ApplyAll(cfg, index, logs).store.tickets)
    ensures RangesDisjoint(torn.store.tickets)
    ensures ApplyAll(cfg, torn, logs).store == torn.store
    ensures SameOnChain(ApplyAll(cfg, torn, logs), ApplyAll(cfg, index, logs))
    decreases |logs|
  {
    hide Apply;
    hide RangesDisjoint;
    hide SameOnChain;
    if logs == [] {
      SubTableIsDisjoint(torn.store.tickets, index.store.tickets);
    } else {
      AlreadyRemoved(cfg, index, torn, logs);
      SameOnChainStays(cfg, torn, index, logs[0]);
      RangesStayDisjoint(cfg, index, logs[0]);
      ReplayKeepsStore(cfg, Apply(cfg, index, logs[0]), Apply(cfg, torn, logs[0]), logs[1..]);
    }
  }

  lemma ReplayKeepsOutgoing(cfg: Config, index: Index, logs: seq<ContractLog>, c: ChannelId)
    requires RangesDisjoint(index.store.tickets) && RangesDisjoint(TornAfter(cfg, index, logs).store.tickets)
    ensures OutOf(ApplyAll(cfg, TornAfter(cfg, index, logs), logs), c) == OutOf(ApplyAll(cfg, index, logs), c)
  {
    hide ApplyAll;
    OutFollowsAll(cfg, index, logs, c);
    OutFollowsAll(cfg, TornAfter(cfg, index, logs), logs, c);
    OutRestarts(cfg.me, c, EntryOf(index, c), OutOf(index, c), logs, []);
    assert logs + [] == logs;
  }

  lemma ReplayReachesTheSame(cfg: Config, index: Index, logs: seq<ContractLog>)
    requires RangesDisjoint(index.store.tickets)
    ensures ApplyAll(cfg, TornAfter(cfg, index, logs), logs) == ApplyAll(cfg, index, logs)
  {
    hide ApplyAll;
    hide RangesDisjoint;
    var torn := TornAfter(cfg, index, logs);
    ReplayKeepsStore(cfg, index, torn, logs);
    var x, y := ApplyAll(cfg, torn, logs), ApplyAll(cfg, index, logs);
    forall c ensures OutOf(x, c) == OutOf(y, c) {
      ReplayKeepsOutgoing(cfg, index, logs, c);
    }
    assert forall c :: c in x.outgoing <==> OutOf(x, c).Some?;
    assert forall c :: c in y.outgoing <==> OutOf(y, c).Some?;
    assert x.outgoing == y.outgoing;
  }

  /** With its memory at hand, running a torn block again ends where an undisturbed run ends. */
  lemma TornBlockWithMemory(cfg: Config, index: Index, logs: seq<ContractLog>, reached: nat)
    requires RangesDisjoint(index.store.tickets) && reached <= |logs|
    ensures RangesDisjoint(TornAfter(cfg, index, logs[..reached]).store.tickets)
    ensures ApplyAll(cfg, TornAfter(cfg, index, logs[..reached]), logs) == ApplyAll(cfg, index, logs)
  {
    hide ApplyAll;
    var done, rest := logs[..reached], logs[reached..];
    assert logs == done + rest;
    TicketsShrink(cfg, index, done);
    SubTableIsDisjoint(TornAfter(cfg, index, done).store.tickets, index.store.tickets);
    hide TornAfter;
    ReplayReachesTheSame(cfg, index, done);
    ApplyAllConcat(cfg, TornAfter(cfg, index, done), done, rest);
    ApplyAllConcat(cfg, index, done, rest);
  }

  /**
   A crash after any number of a block's logs, whatever outgoing indices had reached the disk, followed by
   running the whole block, ends where an undisturbed run ends in everything else, including the Safe balance.
   An outgoing index does so exactly if the block makes up for what was lost of it.
   */
  lemma TornBlockExactly(cfg: Config, index: Index, logs: seq<ContractLog>, reached: nat, persisted: map<ChannelId, nat>)
    requires RangesDisjoint(index.store.tickets) && reached <= |logs|
    ensures var torn := TornAfter(cfg, index, logs[..reached]);
      var again, once := ApplyAll(cfg, Reloaded(torn, persisted), logs), ApplyAll(cfg, index, logs);
      && SameButOutgoing(again, once)
      && forall c :: OutgoingIndex(again.outgoing, c) == OutgoingIndex(once.outgoing, c) <==>
           Recovers(FormAfter(cfg.me, c, EntryOf(index, c), logs), OutgoingIndex(persisted, c), OutgoingIndex(torn.outgoing, c))
  {
    hide ApplyAll;
    hide Recovers;
    hide FormAfter;
    TornBlockWithMemory(cfg, index, logs, reached);
    ReloadExactly(cfg, TornAfter(cfg, index, logs[..reached]), persisted, logs);
  }
}
