/**
 A process that dies while it handles a block, and what the next one reaches. The block's logs, the marked
 tickets, the index, the processed flags and the outgoing ticket indices are all written at different moments.
 The block can be one that just came from the stream or any one in the middle of a fast sync.
 */
module CrashRecovery {
  import opened HoprTypes
  import opened TicketStore
  import opened Handlers
  import opened HandlerProperties
  import opened LedgerRefinement
  import opened CrashReplay
  import opened OutgoingIndices
  import opened TornBlock
  import opened ChannelHistories
  import opened LateStart
  import opened LogStorage
  import opened Indexer

  // How far the process came; the outgoing indices on disk are whatever had been flushed, at any time before.
  datatype CrashPoint =
    | BlockStored
    | LogsTorn(reached: nat)
    | IndexCommitted
    | LogsProcessed

  predicate WithinBlock(point: CrashPoint, logs: seq<ContractLog>) {
    point.LogsTorn? ==> point.reached <= |logs|
  }

  predicate Committed(point: CrashPoint) {
    point == IndexCommitted || point == LogsProcessed
  }

  /** The index as committed, with the tickets as marked and the outgoing indices as the dying process had them. */
  ghost function InMemory(cfg: Config, index: Index, logs: seq<ContractLog>, point: CrashPoint): Index
    requires WithinBlock(point, logs)
  {
    match point
    case BlockStored => index
    case LogsTorn(reached) => TornAfter(cfg, index, logs[..reached])
    case IndexCommitted => ApplyAll(cfg, index, logs)
    case LogsProcessed => ApplyAll(cfg, index, logs)
  }

  /**
   The process is about to handle stored block m: all stored blocks before it have been processed, it and the
   later ones have not, and the stored logs are those of the chain so far.
   */
  ghost predicate Handling(cfg: Config, disk: Disk, m: nat, chain: seq<Block>, origin: Index) {
    && Complete(disk.logs, chain) && m < |disk.logs| && ProcessedUpTo(disk.logs, m)
    && disk.index == ApplyAll(cfg, origin, AllLogs(Raw(disk.logs)[..m]))
    && RangesDisjoint(disk.index.store.tickets)
  }

  function BlockLogs(disk: Disk, m: nat): seq<ContractLog>
    requires m < |disk.logs|
  {
    LogsIn(disk.logs[m].rows)
  }

  ghost function CrashedAt(cfg: Config, disk: Disk, m: nat, point: CrashPoint): Disk
    requires m < |disk.logs| && WithinBlock(point, BlockLogs(disk, m))
  {
    disk.(
      index := InMemory(cfg, disk.index, BlockLogs(disk, m), point),
      logs := if point == LogsProcessed then SetProcessed(disk.logs, disk.logs[m].id) else disk.logs)
  }

  // ---------- such states come up ----------

  lemma InsertedLast(store: seq<StoredBlock>, block: Block)
    requires forall i :: 0 <= i < |store| ==> store[i].id < block.id
    ensures var stored := Insert(store, block);
      && stored == store + [StoredBlock(block.id, NewRows(block.logs))]
      && Raw(stored) == Raw(store) + [block] && LastId(stored) == block.id
  {
    InsertAtEnd(store, block);
    assert LogsIn(NewRows(block.logs)) == block.logs;
  }

  /** A block that comes from the stream when everything stored has been processed is handled like this. */
  lemma StreamedBlockIsHandled(cfg: Config, disk: Disk, block: Block, chain: seq<Block>, origin: Index)
    requires ProcessedUpTo(disk.logs, |disk.logs|) && block.logs != []
    requires forall i :: 0 <= i < |disk.logs| ==> disk.logs[i].id < block.id
    requires Complete(StoreBlock(disk, block).logs, chain)
    requires disk.index == ApplyAll(cfg, origin, AllLogs(Raw(disk.logs))) && RangesDisjoint(disk.index.store.tickets)
    ensures Handling(cfg, StoreBlock(disk, block), |disk.logs|, chain, origin)
    ensures BlockLogs(StoreBlock(disk, block), |disk.logs|) == block.logs
  {
    hide ApplyAll;
    hide Complete;
    var n, stored := |disk.logs|, Insert(disk.logs, block);
    InsertedLast(disk.logs, block);
    assert !stored[n].rows[0].processed;
    assert ProcessedUpTo(stored, n);
    assert Raw(stored)[..n] == Raw(disk.logs);
    assert LogsIn(NewRows(block.logs)) == block.logs;
  }

  lemma SettingFlags(store: seq<StoredBlock>, m: nat)
    requires m < |store| && ProcessedUpTo(store, m) && Ascending(Raw(store))
    ensures ProcessedUpTo(SetProcessed(store, store[m].id), m + 1)
  {
    var done := SetProcessed(store, store[m].id);
    forall i | 0 <= i < |store| ensures HasUnprocessed(done[i].rows) <==> i >= m + 1 {
      assert HasUnprocessed(store[i].rows) <==> i >= m;
      if i != m {
        assert Raw(store)[i].id != Raw(store)[m].id;
        assert done[i].rows == store[i].rows;
      }
    }
  }

  lemma ChecksumsKeepProcessed(store: seq<StoredBlock>, m: nat)
    requires ProcessedUpTo(store, m)
    ensures ProcessedUpTo(UpdateChecksums(store), m)
  {
    var done := UpdateChecksums(store);
    forall i | 0 <= i < |store| ensures HasUnprocessed(done[i].rows) <==> i >= m {
      assert HasUnprocessed(store[i].rows) <==> i >= m;
      if HasUnprocessed(store[i].rows) {
        var j :| 0 <= j < |store[i].rows| && !store[i].rows[j].processed;
        assert !done[i].rows[j].processed;
      } else {
        assert forall j :: 0 <= j < |done[i].rows| ==> done[i].rows[j].processed == store[i].rows[j].processed;
      }
    }
  }

  lemma OneMoreBlock(blocks: seq<Block>, m: nat)
    requires m < |blocks|
    ensures AllLogs(blocks[..m + 1]) == AllLogs(blocks[..m]) + blocks[m].logs
    ensures AllLogs(blocks[m..]) == blocks[m].logs + AllLogs(blocks[m + 1..])
  {
    assert blocks[..m + 1] == blocks[..m] + [blocks[m]];
    AllLogsConcat(blocks[..m], [blocks[m]]);
    assert [blocks[m]][1..] == [] && AllLogs([blocks[m]]) == blocks[m].logs + [];
    assert blocks[m..][1..] == blocks[m + 1..];
  }

  /** Handling a block to its end leads to handling the next stored one, as in the fast sync loop. */
  lemma HandlingAdvances(cfg: Config, disk: Disk, m: nat, chain: seq<Block>, origin: Index)
    requires Handling(cfg, disk, m, chain, origin) && m + 1 < |disk.logs|
    ensures Handling(cfg, ProcessBlock(cfg, disk, Raw(disk.logs)[m]), m + 1, chain, origin)
  {
    hide ApplyAll;
    hide AllLogs;
    hide SetProcessed;
    hide UpdateChecksums;
    var raw, id := Raw(disk.logs), disk.logs[m].id;
    SettingFlags(disk.logs, m);
    ChecksumsKeepProcessed(SetProcessed(disk.logs, id), m + 1);
    FlagsKeepRaw(disk.logs, id);
    FlagsKeepRaw(SetProcessed(disk.logs, id), 0);
    SameRawSameLast(disk.logs, UpdateChecksums(SetProcessed(disk.logs, id)));
    OneMoreBlock(raw, m);
    ApplyAllConcat(cfg, origin, AllLogs(raw[..m]), raw[m].logs);
    EntryFollowsAll(cfg, disk.index, raw[m].logs, ChannelId(0, 0));
  }

  /** Starting over with fast sync begins with handling the first stored block. */
  lemma StartingOverIsHandled(cfg: Config, icfg: IndexerConfig, disk: Disk, chain: seq<Block>)
    requires Complete(disk.logs, chain) && RangesDisjoint(disk.index.store.tickets)
    requires forall i :: 0 <= i < |disk.logs| ==> disk.logs[i].rows != []
    ensures Handling(cfg, Prepared(icfg, disk, true), 0, chain, Cleared(icfg, Loaded(disk)))
  {
    hide Complete;
    var prepared := Prepared(icfg, disk, true);
    FlagsKeepRaw(disk.logs, 0);
    assert prepared.logs != [] by { assert Raw(prepared.logs) == Raw(disk.logs); NotEmpty(disk.logs, chain); }
    assert Complete(prepared.logs, chain) by { SameRawSameComplete(disk.logs, prepared.logs, chain); }
    forall i | 0 <= i < |prepared.logs| ensures HasUnprocessed(prepared.logs[i].rows) {
      FlagsExactly(disk.logs, 0, i, 0);
    }
  }

  lemma NotEmpty(store: seq<StoredBlock>, chain: seq<Block>)
    requires Complete(store, chain)
    ensures store != []
  {
  }

  lemma SameRawSameComplete(a: seq<StoredBlock>, b: seq<StoredBlock>, chain: seq<Block>)
    requires Complete(a, chain) && Raw(a) == Raw(b)
    ensures Complete(b, chain)
  {
    SameRawSameLast(a, b);
  }

  // ---------- a restart is a fold ----------

  function Beyond(disk: Disk, chain: seq<Block>): seq<ContractLog>
    requires disk.logs != []
  {
    AllLogs(From(chain, LastId(disk.logs) + 1))
  }

  /** The stored logs after block m. */
  function StoredAfter(disk: Disk, m: nat): seq<ContractLog>
    requires m < |disk.logs|
  {
    AllLogs(Raw(disk.logs)[m + 1..])
  }

  /**
   The logs the next process handles. With fast sync: all stored ones if it starts over with an empty index, else
   the unprocessed ones. Without: none of them. Then the chain beyond the stored logs.
   */
  function LogsAfterRestart(fast: bool, empty: bool, point: CrashPoint, disk: Disk, m: nat, chain: seq<Block>): seq<ContractLog>
    requires m < |disk.logs|
  {
    (if !fast then []
     else if empty then AllLogs(Raw(disk.logs))
     else if point == LogsProcessed then StoredAfter(disk, m)
     else BlockLogs(disk, m) + StoredAfter(disk, m))
    + Beyond(disk, chain)
  }

  /** The index a restart reaches after a crash; `empty` is whether it finds the tables empty and starts over. */
  ghost function Restarted(
    cfg: Config, icfg: IndexerConfig, disk: Disk, m: nat, point: CrashPoint, empty: bool, chain: seq<Block>): Index
    requires m < |disk.logs| && WithinBlock(point, BlockLogs(disk, m))
  {
    Start(cfg, icfg, CrashedAt(cfg, disk, m, point), empty, chain).index
  }

  lemma RawAt(disk: Disk, m: nat)
    requires m < |disk.logs|
    ensures Raw(disk.logs)[m] == Block(disk.logs[m].id, BlockLogs(disk, m))
  {
  }

  lemma CrashedStore(cfg: Config, disk: Disk, m: nat, point: CrashPoint, chain: seq<Block>, origin: Index)
    requires Handling(cfg, disk, m, chain, origin) && WithinBlock(point, BlockLogs(disk, m))
    ensures var store := CrashedAt(cfg, disk, m, point).logs;
      && Raw(store) == Raw(disk.logs) && Complete(store, chain) && LastId(store) == LastId(disk.logs)
      && ProcessedUpTo(store, if point == LogsProcessed then m + 1 else m)
  {
    hide InMemory;
    hide SetProcessed;
    FlagsKeepRaw(disk.logs, disk.logs[m].id);
    SettingFlags(disk.logs, m);
    hide ProcessedUpTo;
    hide Raw;
    SameRawSameLast(disk.logs, SetProcessed(disk.logs, disk.logs[m].id));
  }

  /** The stored logs that a restart with fast sync handles again. */
  lemma ReplayedLogs(
    cfg: Config, icfg: IndexerConfig, disk: Disk, m: nat, point: CrashPoint, empty: bool, chain: seq<Block>, origin: Index)
    requires Handling(cfg, disk, m, chain, origin) && WithinBlock(point, BlockLogs(disk, m))
    ensures var crashed := CrashedAt(cfg, disk, m, point);
      LogsAtAll(Raw(crashed.logs), IdsToSync(icfg, Prepared(icfg, crashed, empty).logs, empty)) + Beyond(disk, chain)
      == LogsAfterRestart(icfg.fastSync, empty, point, disk, m, chain)
  {
    hide InMemory;
    hide SetUnprocessed;
    hide SetProcessed;
    hide Beyond;
    hide ProcessedUpTo;
    hide From;
    var store, raw := CrashedAt(cfg, disk, m, point).logs, Raw(disk.logs);
    CrashedStore(cfg, disk, m, point, chain, origin);
    if icfg.fastSync {
      if empty {
        FlagsKeepRaw(store, 0);
        IdsAreOfRaw(SetUnprocessed(store));
        LogsAtStretch(raw, 0);
        assert raw[0..] == raw;
      } else {
        var from := if point == LogsProcessed then m + 1 else m;
        UnprocessedAreLast(store, from);
        LogsAtStretch(raw, from);
        OneMoreBlock(raw, m);
        RawAt(disk, m);
      }
    }
  }

  /**
   In every mode and from every crash point, a restart folds these logs over what the crash left, with the
   outgoing indices taken from the disk and, if it starts over, an index that knows nothing.
   */
  lemma RestartFolds(
    cfg: Config, icfg: IndexerConfig, disk: Disk, m: nat, point: CrashPoint, empty: bool, chain: seq<Block>, origin: Index)
    requires Handling(cfg, disk, m, chain, origin) && WithinBlock(point, BlockLogs(disk, m))
    requires icfg.startBlock < LastId(disk.logs)
    ensures var left := Reloaded(InMemory(cfg, disk.index, BlockLogs(disk, m), point), disk.persisted);
      Restarted(cfg, icfg, disk, m, point, empty, chain)
      == ApplyAll(cfg, if empty then Cleared(icfg, left) else left, LogsAfterRestart(icfg.fastSync, empty, point, disk, m, chain))
  {
    hide ApplyAll;
    hide Start;
    hide InMemory;
    hide LogsAtAll;
    hide IdsToSync;
    hide Raw;
    hide SetUnprocessed;
    hide SetProcessed;
    hide LogsAfterRestart;
    hide BlockLogs;
    var crashed := CrashedAt(cfg, disk, m, point);
    CrashedStore(cfg, disk, m, point, chain, origin);
    CompleteStartFolds(cfg, icfg, crashed, empty, chain);
    ReplayedLogs(cfg, icfg, disk, m, point, empty, chain, origin);
  }

  /** The fold over the whole chain is the fold over the block, the stored logs after it and those beyond. */
  lemma ChainFromBlock(cfg: Config, disk: Disk, m: nat, chain: seq<Block>, origin: Index)
    requires Handling(cfg, disk, m, chain, origin)
    ensures AllLogs(chain) == AllLogs(Raw(disk.logs)) + Beyond(disk, chain)
    ensures AllLogs(Raw(disk.logs)) == AllLogs(Raw(disk.logs)[..m]) + BlockLogs(disk, m) + StoredAfter(disk, m)
    ensures ApplyAll(cfg, origin, AllLogs(chain))
         == ApplyAll(cfg, ApplyAll(cfg, disk.index, BlockLogs(disk, m)), StoredAfter(disk, m) + Beyond(disk, chain))
  {
    hide ApplyAll;
    hide From;
    hide BlockLogs;
    ChainIsStoreAndTail(disk.logs, chain);
    hide Complete;
    hide ProcessedUpTo;
    StoredSplits(disk, m);
    hide AllLogs;
    hide StoredAfter;
    hide Beyond;
    hide Raw;
    SplitFold(cfg, origin, AllLogs(Raw(disk.logs)[..m]), BlockLogs(disk, m), StoredAfter(disk, m), Beyond(disk, chain));
  }

  lemma StoredSplits(disk: Disk, m: nat)
    requires m < |disk.logs|
    ensures AllLogs(Raw(disk.logs)) == AllLogs(Raw(disk.logs)[..m]) + BlockLogs(disk, m) + StoredAfter(disk, m)
  {
    var raw := Raw(disk.logs);
    RawAt(disk, m);
    OneMoreBlock(raw, m);
    assert raw == raw[..m] + raw[m..];
    AllLogsConcat(raw[..m], raw[m..]);
    hide AllLogs;
    hide BlockLogs;
    assert AllLogs(raw[..m]) + (BlockLogs(disk, m) + StoredAfter(disk, m))
        == AllLogs(raw[..m]) + BlockLogs(disk, m) + StoredAfter(disk, m);
  }

  lemma SplitFold(
    cfg: Config, origin: Index, a: seq<ContractLog>, b: seq<ContractLog>, d: seq<ContractLog>, e: seq<ContractLog>)
    ensures a + (b + d) == a + b + d
    ensures ApplyAll(cfg, origin, a + b + d + e) == ApplyAll(cfg, ApplyAll(cfg, ApplyAll(cfg, origin, a), b), d + e)
  {
    hide ApplyAll;
    assert a + b + d + e == a + (b + (d + e));
    ApplyAllConcat(cfg, origin, a, b + (d + e));
    ApplyAllConcat(cfg, ApplyAll(cfg, origin, a), b, d + e);
  }

  /**
   Had its memory survived, and without starting over, a restart would reach the fold over the whole chain, but
   for a committed block folded twice with fast sync, and for unprocessed stored logs left out without it.
   */
  lemma RestartWithMemory(cfg: Config, disk: Disk, m: nat, point: CrashPoint, chain: seq<Block>, fast: bool)
    requires m < |disk.logs| && WithinBlock(point, BlockLogs(disk, m)) && RangesDisjoint(disk.index.store.tickets)
    ensures var logs, beyond := BlockLogs(disk, m), Beyond(disk, chain);
      var left, once := InMemory(cfg, disk.index, logs, point), ApplyAll(cfg, disk.index, logs);
      && RangesDisjoint(left.store.tickets)
      && ApplyAll(cfg, left, LogsAfterRestart(fast, false, point, disk, m, chain)) ==
           if !fast then ApplyAll(cfg, left, beyond)
           else if point == IndexCommitted then ApplyAll(cfg, ApplyAll(cfg, once, logs), StoredAfter(disk, m) + beyond)
           else ApplyAll(cfg, once, StoredAfter(disk, m) + beyond)
  {
    hide ApplyAll;
    hide TornAfter;
    hide Beyond;
    hide StoredAfter;
    hide BlockLogs;
    var logs, after, beyond := BlockLogs(disk, m), StoredAfter(disk, m), Beyond(disk, chain);
    var left := InMemory(cfg, disk.index, logs, point);
    assert [] + beyond == beyond && logs + after + beyond == logs + (after + beyond);
    ApplyAllConcat(cfg, left, logs, after + beyond);
    EntryFollowsAll(cfg, disk.index, logs, ChannelId(0, 0));
    if point.LogsTorn? {
      TornBlockWithMemory(cfg, disk.index, logs, point.reached);
    }
  }

  lemma SameButBalanceStays(cfg: Config, x: Index, y: Index, log: ContractLog)
    requires SameButBalance(x, y)
    ensures SameButBalance(Apply(cfg, x, log), Apply(cfg, y, log))
  {
    hide MarkAs;
    hide MarkKeys;
    hide Settle;
    assert x.(safeBalance := y.safeBalance) == y;
  }

  lemma {:induction false} SameButBalanceFolds(cfg: Config, x: Index, y: Index, logs: seq<ContractLog>)
    requires SameButBalance(x, y)
    ensures SameButBalance(ApplyAll(cfg, x, logs), ApplyAll(cfg, y, logs))
    decreases |logs|
  {
    hide Apply;
    hide SameButBalance;
    if logs != [] {
      SameButBalanceStays(cfg, x, y, logs[0]);
      SameButBalanceFolds(cfg, Apply(cfg, x, logs[0]), Apply(cfg, y, logs[0]), logs[1..]);
    }
  }

  // ---------- restarts with fast sync that continue ----------

  /** Equality up to the Safe balance and the outgoing indices. */
  predicate SameButVolatile(x: Index, y: Index) {
    SameButOutgoing(x.(safeBalance := 0), y.(safeBalance := 0))
  }

  /** An own channel that a replayed block opens and closes shows a later epoch for ever. */
  lemma ReplayedEpochShows(cfg: Config, index: Index, logs: seq<ContractLog>, tail: seq<ContractLog>, c: ChannelId)
    requires RangesDisjoint(index.store.tickets) && Admitted(cfg, index, logs) && OpensAndCloses(cfg.me, logs, c)
    ensures var once := ApplyAll(cfg, index, logs);
      EntryOf(ApplyAll(cfg, ApplyAll(cfg, once, logs), tail), c) != EntryOf(ApplyAll(cfg, once, tail), c)
  {
    hide ApplyAll;
    hide EntryAfter;
    hide Admissible;
    var once := ApplyAll(cfg, index, logs);
    var e, e' := EntryOf(index, c), EntryOf(once, c);
    assert Admissible(logs, c, IsClosed(e));
    EntryFollowsAll(cfg, index, logs, c);
    EntryFollowsAll(cfg, once, logs, c);
    EntryFollowsAll(cfg, once, tail, c);
    EntryFollowsAll(cfg, ApplyAll(cfg, once, logs), tail, c);
    EntryNotAbsorbed(cfg.me, c, e, logs);
    ClosingAligns(cfg.me, c, e, e', None, None, logs);
    SameStatusStays(cfg.me, c, e', EntryAfter(cfg.me, c, e', logs), tail);
  }

  /** The outgoing index of an own channel is the same after one and two applications, whatever the block. */
  lemma ReplayedOutgoing(cfg: Config, index: Index, logs: seq<ContractLog>, tail: seq<ContractLog>, c: ChannelId)
    requires RangesDisjoint(index.store.tickets) && Admitted(cfg, index, logs) && DirectionOf(c, cfg.me) == Some(Outgoing)
    ensures var once := ApplyAll(cfg, index, logs);
      OutOf(ApplyAll(cfg, ApplyAll(cfg, once, logs), tail), c) == OutOf(ApplyAll(cfg, once, tail), c)
  {
    hide ApplyAll;
    hide EntryAfter;
    hide OutAfter;
    hide Admissible;
    hide FormAfter;
    hide Through;
    var once := ApplyAll(cfg, index, logs);
    var twice := ApplyAll(cfg, once, logs);
    var e, o := EntryOf(index, c), OutOf(index, c);
    var e', o' := EntryOf(once, c), OutOf(once, c);
    assert Admissible(logs, c, IsClosed(e));
    EntryFollowsAll(cfg, index, logs, c);
    EntryFollowsAll(cfg, once, logs, c);
    OutFollowsAll(cfg, index, logs, c);
    OutFollowsAll(cfg, once, logs, c);
    OutFollowsAll(cfg, once, tail, c);
    OutFollowsAll(cfg, twice, tail, c);
    if OpensAndCloses(cfg.me, logs, c) {
      OwnOnceOpenedIsKnown(cfg.me, c, e, logs);
      ClosingAligns(cfg.me, c, e, e', o, o', logs);
      SameStatusStays(cfg.me, c, e', EntryOf(twice, c), tail);
      OutIsForm(cfg.me, c, e', o', tail);
      OutIsForm(cfg.me, c, EntryOf(twice, c), OutOf(twice, c), tail);
    } else {
      EntryAbsorbed(cfg.me, c, e, logs);
      OutAbsorbed(cfg.me, c, e, o, logs);
    }
  }

  lemma HandlingIsDisjoint(cfg: Config, disk: Disk, m: nat, chain: seq<Block>, origin: Index)
    requires Handling(cfg, disk, m, chain, origin)
    ensures m < |disk.logs| && RangesDisjoint(disk.index.store.tickets)
  {
  }

  /**
   With fast sync, a restart after a crash at any point of any block reaches the fold over the whole chain, up
   to the Safe balance and the outgoing indices, exactly if it does not fold a committed block twice that both
   opens and closes an own channel.
   */
  lemma FastRestartExactly(
    cfg: Config, icfg: IndexerConfig, disk: Disk, m: nat, point: CrashPoint, chain: seq<Block>, origin: Index)
    requires Handling(cfg, disk, m, chain, origin) && WithinBlock(point, BlockLogs(disk, m))
    requires icfg.startBlock < LastId(disk.logs)
    requires icfg.fastSync && Current(cfg, disk.index) && Admitted(cfg, disk.index, BlockLogs(disk, m))
    ensures SameButVolatile(Restarted(cfg, icfg, disk, m, point, false, chain), ApplyAll(cfg, origin, AllLogs(chain)))
       <==> (point == IndexCommitted ==> forall c :: !OpensAndCloses(cfg.me, BlockLogs(disk, m), c))
  {
    hide ApplyAll;
    hide Restarted;
    hide InMemory;
    hide Current;
    hide Admitted;
    hide OpensAndCloses;
    hide LogsAfterRestart;
    hide BlockLogs;
    HandlingIsDisjoint(cfg, disk, m, chain, origin);
    RestartFolds(cfg, icfg, disk, m, point, false, chain, origin);
    ChainFromBlock(cfg, disk, m, chain, origin);
    RestartWithMemory(cfg, disk, m, point, chain, true);
    hide Handling;
    hide Beyond;
    hide StoredAfter;
    var block, tail := BlockLogs(disk, m), StoredAfter(disk, m) + Beyond(disk, chain);
    var once := ApplyAll(cfg, disk.index, block);
    var left, logs := InMemory(cfg, disk.index, block, point), LogsAfterRestart(true, false, point, disk, m, chain);
    OutgoingStaysIsolated(cfg, Reloaded(left, disk.persisted), left, logs);
    if point == IndexCommitted {
      if forall c :: !OpensAndCloses(cfg.me, block, c) {
        ReplayAbsorbed(cfg, disk.index, block);
        SameButBalanceFolds(cfg, ApplyAll(cfg, once, block), once, tail);
      } else {
        var c :| OpensAndCloses(cfg.me, block, c);
        ReplayedEpochShows(cfg, disk.index, block, tail, c);
      }
    }
  }

  /** Nothing stored is left out: it was handled before the crash, or fast sync handles it now. */
  predicate LeavesNothingOut(fast: bool, point: CrashPoint, disk: Disk, m: nat) {
    fast || (Committed(point) && m + 1 == |disk.logs|)
  }

  /**
   Whether a block is replayed or not, the outgoing index of an own channel is as in the fold over the whole
   chain exactly if the logs handled after the restart make up for what had not reached the disk.
   */
  lemma OutgoingRecoversExactly(
    cfg: Config, icfg: IndexerConfig, disk: Disk, m: nat, point: CrashPoint, chain: seq<Block>, origin: Index, c: ChannelId)
    requires Handling(cfg, disk, m, chain, origin) && WithinBlock(point, BlockLogs(disk, m))
    requires icfg.startBlock < LastId(disk.logs)
    requires Admitted(cfg, disk.index, BlockLogs(disk, m)) && DirectionOf(c, cfg.me) == Some(Outgoing)
    requires LeavesNothingOut(icfg.fastSync, point, disk, m)
    ensures var left := InMemory(cfg, disk.index, BlockLogs(disk, m), point);
      OutgoingIndex(Restarted(cfg, icfg, disk, m, point, false, chain).outgoing, c)
      == OutgoingIndex(ApplyAll(cfg, origin, AllLogs(chain)).outgoing, c)
      <==>
      Recovers(FormAfter(cfg.me, c, EntryOf(left, c), LogsAfterRestart(icfg.fastSync, false, point, disk, m, chain)),
        OutgoingIndex(disk.persisted, c), OutgoingIndex(left.outgoing, c))
  {
    hide ApplyAll;
    hide Restarted;
    hide Admitted;
    hide LogsAfterRestart;
    hide Recovers;
    hide FormAfter;
    hide BlockLogs;
    HandlingIsDisjoint(cfg, disk, m, chain, origin);
    RestartFolds(cfg, icfg, disk, m, point, false, chain, origin);
    ChainFromBlock(cfg, disk, m, chain, origin);
    RestartWithMemory(cfg, disk, m, point, chain, icfg.fastSync);
    LastHasNothingAfter(disk, m, Beyond(disk, chain));
    hide Handling;
    hide Beyond;
    hide StoredAfter;
    var block := BlockLogs(disk, m);
    var left := InMemory(cfg, disk.index, block, point);
    ReloadExactly(cfg, left, disk.persisted, LogsAfterRestart(icfg.fastSync, false, point, disk, m, chain));
    if icfg.fastSync && point == IndexCommitted {
      ReplayedOutgoing(cfg, disk.index, block, StoredAfter(disk, m) + Beyond(disk, chain), c);
    }
  }

  lemma LastHasNothingAfter(disk: Disk, m: nat, beyond: seq<ContractLog>)
    requires m < |disk.logs|
    ensures m + 1 == |disk.logs| ==> StoredAfter(disk, m) + beyond == beyond
  {
  }

  lemma SilentParts(a: seq<ContractLog>, b: seq<ContractLog>, c: ChannelId)
    requires Silent(a + b, c)
    ensures Silent(a, c) && Silent(b, c)
  {
    assert forall i :: 0 <= i < |a| ==> a[i] == (a + b)[i];
    assert forall i :: 0 <= i < |b| ==> b[i] == (a + b)[|a| + i];
  }

  lemma SilentLogsKeep(cfg: Config, index: Index, logs: seq<ContractLog>, c: ChannelId)
    requires RangesDisjoint(index.store.tickets) && Silent(logs, c)
    ensures var after := ApplyAll(cfg, index, logs);
      OutOf(after, c) == OutOf(index, c) && EntryOf(after, c) == EntryOf(index, c)
  {
    hide ApplyAll;
    EntryFollowsAll(cfg, index, logs, c);
    SilentKeeps(cfg.me, c, EntryOf(index, c), logs);
    OutFollowsAll(cfg, index, logs, c);
    SilentKeepsOut(cfg.me, c, EntryOf(index, c), OutOf(index, c), logs);
  }

  lemma SilentAfterwards(fast: bool, disk: Disk, m: nat, chain: seq<Block>, c: ChannelId)
    requires m < |disk.logs| && Silent(StoredAfter(disk, m) + Beyond(disk, chain), c)
    ensures Silent(LogsAfterRestart(fast, false, LogsProcessed, disk, m, chain), c)
  {
    hide StoredAfter;
    hide Beyond;
    SilentParts(StoredAfter(disk, m), Beyond(disk, chain), c);
    assert [] + Beyond(disk, chain) == Beyond(disk, chain);
  }

  /**
   So a redemption that was indexed and marked as processed, but not flushed, is forgotten: the index for the
   next ticket to issue starts again below what the channel has already redeemed, with or without fast sync.
   */
  lemma OutgoingIndexLost(
    cfg: Config, icfg: IndexerConfig, disk: Disk, m: nat, chain: seq<Block>, origin: Index, c: ChannelId, n: nat)
    requires Handling(cfg, disk, m, chain, origin) && icfg.startBlock < LastId(disk.logs)
    requires c in disk.index.channels && DirectionOf(c, cfg.me) == Some(Outgoing) && BlockLogs(disk, m) == [TicketRedeemed(c, n)]
    requires OutgoingIndex(disk.persisted, c) < n && Silent(StoredAfter(disk, m) + Beyond(disk, chain), c)
    ensures var final := Restarted(cfg, icfg, disk, m, LogsProcessed, false, chain);
      && OutgoingIndex(final.outgoing, c) == OutgoingIndex(disk.persisted, c)
      && c in final.channels && final.channels[c].ticketIndex == n && !OutgoingAhead(cfg, final)
  {
    hide ApplyAll;
    hide Restarted;
    hide Apply;
    hide BlockLogs;
    HandlingIsDisjoint(cfg, disk, m, chain, origin);
    RestartFolds(cfg, icfg, disk, m, LogsProcessed, false, chain, origin);
    hide Handling;
    hide Beyond;
    hide StoredAfter;
    SilentAfterwards(icfg.fastSync, disk, m, chain, c);
    var logs := LogsAfterRestart(icfg.fastSync, false, LogsProcessed, disk, m, chain);
    hide LogsAfterRestart;
    var once, log := ApplyAll(cfg, disk.index, BlockLogs(disk, m)), TicketRedeemed(c, n);
    var lost := Reloaded(once, disk.persisted);
    EntryFollowsAll(cfg, disk.index, BlockLogs(disk, m), c);
    EntryAfterFew(cfg.me, c, EntryOf(disk.index, c), log, log, log);
    SilentLogsKeep(cfg, lost, logs, c);
    var final := Restarted(cfg, icfg, disk, m, LogsProcessed, false, chain);
    assert OutOf(final, c) == OutOf(lost, c) && EntryOf(final, c) == EntryOf(lost, c);
  }

  // ---------- restarts without fast sync that continue ----------

  /** If the block was committed and no later one was stored, only outgoing indices can differ. */
  lemma SlowRestartAfterCommit(
    cfg: Config, icfg: IndexerConfig, disk: Disk, m: nat, point: CrashPoint, chain: seq<Block>, origin: Index)
    requires Handling(cfg, disk, m, chain, origin) && icfg.startBlock < LastId(disk.logs)
    requires !icfg.fastSync && Committed(point) && m + 1 == |disk.logs|
    ensures SameButOutgoing(Restarted(cfg, icfg, disk, m, point, false, chain), ApplyAll(cfg, origin, AllLogs(chain)))
  {
    hide ApplyAll;
    hide Restarted;
    hide LogsAfterRestart;
    hide BlockLogs;
    HandlingIsDisjoint(cfg, disk, m, chain, origin);
    RestartFolds(cfg, icfg, disk, m, point, false, chain, origin);
    ChainFromBlock(cfg, disk, m, chain, origin);
    RestartWithMemory(cfg, disk, m, point, chain, false);
    LastHasNothingAfter(disk, m, Beyond(disk, chain));
    hide Handling;
    hide Beyond;
    hide StoredAfter;
    var left := InMemory(cfg, disk.index, BlockLogs(disk, m), point);
    OutgoingStaysIsolated(cfg, Reloaded(left, disk.persisted), left, LogsAfterRestart(false, false, point, disk, m, chain));
  }

  /** Entries of channels between others are never closed ones, as closing removes them. */
  predicate NoClosedForeigner(me: Address, index: Index) {
    forall c :: c in index.channels && !Own(c, me) ==> index.channels[c].status != Closed
  }

  predicate LossIsHarmless(me: Address, index: Index, lost: seq<ContractLog>, later: seq<ContractLog>, c: ChannelId) {
    if Own(c, me) then MissingIsHarmless(me, c, EntryOf(index, c), lost, later)
    else ForeignMissingIsHarmless(me, c, EntryOf(index, c), lost, later)
  }

  /** The stored logs that no process handles any more: those after the last committed block. */
  function LostLogs(point: CrashPoint, disk: Disk, m: nat): seq<ContractLog>
    requires m < |disk.logs|
  {
    if Committed(point) then StoredAfter(disk, m) else BlockLogs(disk, m) + StoredAfter(disk, m)
  }

  /** The index as of the last committed block. */
  ghost function LastCommitted(cfg: Config, disk: Disk, m: nat, point: CrashPoint): Index
    requires m < |disk.logs|
  {
    if Committed(point) then ApplyAll(cfg, disk.index, BlockLogs(disk, m)) else disk.index
  }

  lemma LostLogsAreBetween(cfg: Config, disk: Disk, m: nat, point: CrashPoint, chain: seq<Block>, origin: Index)
    requires Handling(cfg, disk, m, chain, origin)
    ensures ApplyAll(cfg, origin, AllLogs(chain))
         == ApplyAll(cfg, LastCommitted(cfg, disk, m, point), LostLogs(point, disk, m) + Beyond(disk, chain))
    ensures RangesDisjoint(LastCommitted(cfg, disk, m, point).store.tickets)
  {
    hide ApplyAll;
    hide BlockLogs;
    ChainFromBlock(cfg, disk, m, chain, origin);
    HandlingIsDisjoint(cfg, disk, m, chain, origin);
    hide Handling;
    hide Beyond;
    hide StoredAfter;
    var block, after, beyond := BlockLogs(disk, m), StoredAfter(disk, m), Beyond(disk, chain);
    assert block + after + beyond == block + (after + beyond);
    ApplyAllConcat(cfg, disk.index, block, after + beyond);
    EntryFollowsAll(cfg, disk.index, block, ChannelId(0, 0));
  }

  /**
   Stored blocks that were not committed are lost without fast sync, and the channel table is still that of the
   fold over the whole chain exactly if the loss is harmless for every channel. For an own channel it never is
   when they open or close it.
   */
  lemma SlowRestartLosesExactly(
    cfg: Config, icfg: IndexerConfig, disk: Disk, m: nat, point: CrashPoint, chain: seq<Block>, origin: Index)
    requires Handling(cfg, disk, m, chain, origin) && WithinBlock(point, BlockLogs(disk, m))
    requires icfg.startBlock < LastId(disk.logs) && !icfg.fastSync
    requires NoClosedForeigner(cfg.me, LastCommitted(cfg, disk, m, point))
    requires Admitted(cfg, LastCommitted(cfg, disk, m, point), LostLogs(point, disk, m) + Beyond(disk, chain))
    ensures Restarted(cfg, icfg, disk, m, point, false, chain).channels == ApplyAll(cfg, origin, AllLogs(chain)).channels
       <==> forall c :: LossIsHarmless(cfg.me, LastCommitted(cfg, disk, m, point), LostLogs(point, disk, m), Beyond(disk, chain), c)
  {
    hide ApplyAll;
    hide Restarted;
    hide LastCommitted;
    hide LostLogs;
    hide LossIsHarmless;
    hide BlockLogs;
    HandlingIsDisjoint(cfg, disk, m, chain, origin);
    RestartFolds(cfg, icfg, disk, m, point, false, chain, origin);
    RestartWithMemory(cfg, disk, m, point, chain, false);
    LostLogsAreBetween(cfg, disk, m, point, chain, origin);
    var base, left := LastCommitted(cfg, disk, m, point), InMemory(cfg, disk.index, BlockLogs(disk, m), point);
    var lost, later := LostLogs(point, disk, m), Beyond(disk, chain);
    assert LogsAfterRestart(false, false, point, disk, m, chain) == later;
    hide Handling;
    hide Beyond;
    hide InMemory;
    hide Admitted;
    hide NoClosedForeigner;
    var final, fold := ApplyAll(cfg, Reloaded(left, disk.persisted), later), ApplyAll(cfg, base, lost + later);
    forall c ensures EntryOf(final, c) == EntryOf(fold, c) <==> LossIsHarmless(cfg.me, base, lost, later, c) {
      assert EntryOf(left, c) == EntryOf(base, c) by { CrashKeepsEntries(cfg, disk, m, point, c); }
      LossOnChannel(cfg, Reloaded(left, disk.persisted), base, lost, later, c);
    }
    SameEntriesSameTable(final, fold);
  }

  lemma CrashKeepsEntries(cfg: Config, disk: Disk, m: nat, point: CrashPoint, c: ChannelId)
    requires m < |disk.logs| && WithinBlock(point, BlockLogs(disk, m))
    ensures EntryOf(InMemory(cfg, disk.index, BlockLogs(disk, m), point), c) == EntryOf(LastCommitted(cfg, disk, m, point), c)
  {
  }

  lemma LossOnChannel(cfg: Config, left: Index, base: Index, lost: seq<ContractLog>, later: seq<ContractLog>, c: ChannelId)
    requires EntryOf(left, c) == EntryOf(base, c) && NoClosedForeigner(cfg.me, base) && Admitted(cfg, base, lost + later)
    requires RangesDisjoint(left.store.tickets) && RangesDisjoint(base.store.tickets)
    ensures EntryOf(ApplyAll(cfg, left, later), c) == EntryOf(ApplyAll(cfg, base, lost + later), c)
       <==> LossIsHarmless(cfg.me, base, lost, later, c)
  {
    hide ApplyAll;
    hide EntryAfter;
    hide Admissible;
    hide MissingIsHarmless;
    hide ForeignMissingIsHarmless;
    var e := EntryOf(base, c);
    assert Admissible(lost + later, c, IsClosed(e));
    EntryFollowsAll(cfg, left, later, c);
    EntryFollowsAll(cfg, base, lost + later, c);
    if Own(c, cfg.me) {
      MissedLogsExactly(cfg.me, c, e, lost, later);
    } else {
      ForeignMissedLogsExactly(cfg.me, c, e, lost, later);
    }
  }

  // ---------- restarts that start over ----------

  /** The index a first start works on. */
  predicate IsCleared(icfg: IndexerConfig, index: Index) {
    index == Cleared(icfg, index)
  }

  /** The logs whose effect on the tickets survives the crash. */
  function MarkedLogs(point: CrashPoint, disk: Disk, m: nat): seq<ContractLog>
    requires m < |disk.logs| && WithinBlock(point, BlockLogs(disk, m))
  {
    AllLogs(Raw(disk.logs)[..m])
    + match point
      case BlockStored => []
      case LogsTorn(reached) => BlockLogs(disk, m)[..reached]
      case _ => BlockLogs(disk, m)
  }

  /** They are a prefix of the stored logs, and what is left over of the index is what they made of the tickets. */
  lemma StartingOver(cfg: Config, icfg: IndexerConfig, disk: Disk, m: nat, point: CrashPoint, chain: seq<Block>, origin: Index)
    requires Handling(cfg, disk, m, chain, origin) && WithinBlock(point, BlockLogs(disk, m)) && IsCleared(icfg, origin)
    ensures var marked, stored := MarkedLogs(point, disk, m), AllLogs(Raw(disk.logs));
      && |marked| <= |stored| && stored[..|marked|] == marked
      && Cleared(icfg, InMemory(cfg, disk.index, BlockLogs(disk, m), point)) == TornAfter(cfg, origin, marked)
  {
    hide ApplyAll;
    hide BlockLogs;
    StoredSplits(disk, m);
    var done, block, after := AllLogs(Raw(disk.logs)[..m]), BlockLogs(disk, m), StoredAfter(disk, m);
    assert disk.index == ApplyAll(cfg, origin, done);
    hide Handling;
    hide Raw;
    hide AllLogs;
    hide StoredAfter;
    var part := match point case BlockStored => [] case LogsTorn(reached) => block[..reached] case _ => block;
    PrefixOfThree(done, block, after, part);
    NothingMore(done);
    ApplyAllConcat(cfg, origin, done, part);
  }

  lemma PrefixOfThree(a: seq<ContractLog>, b: seq<ContractLog>, d: seq<ContractLog>, part: seq<ContractLog>)
    requires part <= b
    ensures |a + part| <= |a + b + d| && (a + b + d)[..|a + part|] == a + part
  {
  }

  lemma NothingMore(a: seq<ContractLog>)
    ensures a + [] == a
  {
  }

  /**
   Fast sync that finds the tables empty after a crash starts over, over tickets that were already marked for
   some of the logs. It still reaches the fold over the whole chain, the Safe balance included; an outgoing index
   exactly if the chain makes up for what was not on disk.
   */
  lemma FastStartOverExactly(
    cfg: Config, icfg: IndexerConfig, disk: Disk, m: nat, point: CrashPoint, chain: seq<Block>, origin: Index)
    requires Handling(cfg, disk, m, chain, origin) && WithinBlock(point, BlockLogs(disk, m))
    requires icfg.startBlock < LastId(disk.logs) && icfg.fastSync && IsCleared(icfg, origin) && RangesDisjoint(origin.store.tickets)
    ensures var final, fold := Restarted(cfg, icfg, disk, m, point, true, chain), ApplyAll(cfg, origin, AllLogs(chain));
      && SameButOutgoing(final, fold)
      && forall c :: OutgoingIndex(final.outgoing, c) == OutgoingIndex(fold.outgoing, c) <==>
           Recovers(FormAfter(cfg.me, c, None, AllLogs(chain)), OutgoingIndex(disk.persisted, c),
             OutgoingIndex(InMemory(cfg, disk.index, BlockLogs(disk, m), point).outgoing, c))
  {
    hide ApplyAll;
    hide Restarted;
    hide Recovers;
    hide FormAfter;
    hide BlockLogs;
    hide MarkedLogs;
    var left := InMemory(cfg, disk.index, BlockLogs(disk, m), point);
    RestartFolds(cfg, icfg, disk, m, point, true, chain, origin);
    ChainFromBlock(cfg, disk, m, chain, origin);
    StartingOver(cfg, icfg, disk, m, point, chain, origin);
    assert LogsAfterRestart(true, true, point, disk, m, chain) == AllLogs(chain);
    hide Handling;
    hide InMemory;
    var marked, stored, beyond := MarkedLogs(point, disk, m), AllLogs(Raw(disk.logs)), Beyond(disk, chain);
    assert AllLogs(chain)[..|marked|] == marked;
    hide TornAfter;
    assert Cleared(icfg, Reloaded(left, disk.persisted)) == Reloaded(Cleared(icfg, left), disk.persisted);
    TornBlockExactly(cfg, origin, AllLogs(chain), |marked|, disk.persisted);
    assert forall c :: EntryOf(origin, c) == None;
  }

  /**
   Without fast sync, a node that finds the tables empty after a crash clears what it had and starts behind the
   stored logs. It reaches the fold over the whole chain exactly if that is harmless for every part of the index.
   */
  lemma SlowStartOverExactly(
    cfg: Config, icfg: IndexerConfig, disk: Disk, m: nat, point: CrashPoint, chain: seq<Block>, origin: Index)
    requires Handling(cfg, disk, m, chain, origin) && WithinBlock(point, BlockLogs(disk, m))
    requires icfg.startBlock < LastId(disk.logs) && !icfg.fastSync && IsCleared(icfg, origin)
    requires RangesDisjoint(origin.store.tickets) && TicketsIncoming(cfg, origin.store.tickets)
    requires forall c :: Admissible(AllLogs(chain), c, true)
    ensures SameIndex(Restarted(cfg, icfg, disk, m, point, true, chain), ApplyAll(cfg, origin, AllLogs(chain)))
       <==> LateIsHarmless(cfg, origin, disk.persisted, AllLogs(Raw(disk.logs)), Beyond(disk, chain))
  {
    hide ApplyAll;
    hide Restarted;
    hide BlockLogs;
    hide MarkedLogs;
    hide SameIndex;
    hide LateIsHarmless;
    hide Admissible;
    var left := InMemory(cfg, disk.index, BlockLogs(disk, m), point);
    RestartFolds(cfg, icfg, disk, m, point, true, chain, origin);
    ChainFromBlock(cfg, disk, m, chain, origin);
    StartingOver(cfg, icfg, disk, m, point, chain, origin);
    var marked, stored, beyond := MarkedLogs(point, disk, m), AllLogs(Raw(disk.logs)), Beyond(disk, chain);
    assert LogsAfterRestart(false, true, point, disk, m, chain) == beyond;
    hide Handling;
    hide InMemory;
    assert Cleared(icfg, Reloaded(left, disk.persisted)) == Late(cfg, origin, disk.persisted, stored[..|marked|]);
    LateIndexExactly(cfg, origin, disk.persisted, stored, |marked|, beyond);
  }

  /** So a committed block of one oracle log is undone when no table has a row yet and the oracle is silent later. */
  lemma StartOverForgetsMinimum(
    cfg: Config, icfg: IndexerConfig, disk: Disk, m: nat, chain: seq<Block>, origin: Index, before: nat, n: nat)
    requires Handling(cfg, disk, m, chain, origin) && icfg.startBlock < LastId(disk.logs) && !icfg.fastSync
    requires BlockLogs(disk, m) == [WinProbUpdated(before, n)] && m + 1 == |disk.logs|
    requires LastWinProb(Beyond(disk, chain)).None?
    ensures Restarted(cfg, icfg, disk, m, IndexCommitted, true, chain).minWinProb == icfg.initialWinProb
    ensures ApplyAll(cfg, origin, AllLogs(chain)).minWinProb == n
  {
    hide ApplyAll;
    hide Restarted;
    hide BlockLogs;
    var block, beyond := BlockLogs(disk, m), Beyond(disk, chain);
    RestartFolds(cfg, icfg, disk, m, IndexCommitted, true, chain, origin);
    ChainFromBlock(cfg, disk, m, chain, origin);
    LastHasNothingAfter(disk, m, beyond);
    assert LogsAfterRestart(false, true, IndexCommitted, disk, m, chain) == beyond;
    hide Handling;
    hide Beyond;
    LastValuesStand(cfg, Cleared(icfg, Reloaded(ApplyAll(cfg, disk.index, block), disk.persisted)), beyond);
    LastValuesStand(cfg, ApplyAll(cfg, disk.index, block), beyond);
    LastValuesStand(cfg, disk.index, block);
  }

  /**
   A full re-sync without fast sync starts behind the stored logs, whatever the node did before. It reaches the
   fold over the whole chain exactly if that is harmless for every part of the index, and an own channel is
   known exactly if it was opened beyond the stored logs.
   */
  lemma SlowResyncExactly(cfg: Config, icfg: IndexerConfig, disk: Disk, chain: seq<Block>)
    requires !icfg.fastSync && Complete(disk.logs, chain) && icfg.startBlock < LastId(disk.logs)
    requires RangesDisjoint(disk.index.store.tickets) && TicketsIncoming(cfg, disk.index.store.tickets)
    requires forall c :: Admissible(AllLogs(chain), c, true)
    ensures var start, stored, beyond := Cleared(icfg, Loaded(disk)), AllLogs(Raw(disk.logs)), AllLogs(From(chain, LastId(disk.logs) + 1));
      var resynced, fold := Start(cfg, icfg, disk, true, chain).index, ApplyAll(cfg, start, AllLogs(chain));
      && (SameIndex(resynced, fold) <==> LateIsHarmless(cfg, start, disk.persisted, stored, beyond))
      && (resynced.channels == fold.channels <==> forall c :: LateStartIsHarmless(cfg.me, c, stored, beyond))
      && (forall c :: Own(c, cfg.me) ==> (c in resynced.channels <==> HasOpened(beyond, c)))
      && (forall c :: Own(c, cfg.me) ==> (c in fold.channels <==> HasOpened(AllLogs(chain), c)))
  {
    hide ApplyAll;
    hide Start;
    hide EntryAfter;
    hide LateStartIsHarmless;
    hide HasOpened;
    hide AllLogs;
    hide From;
    hide SameIndex;
    hide LateIsHarmless;
    hide Admissible;
    var start, stored, beyond := Cleared(icfg, Loaded(disk)), AllLogs(Raw(disk.logs)), AllLogs(From(chain, LastId(disk.logs) + 1));
    SlowStartSkipsTheStore(cfg, icfg, disk, true, chain);
    ChainIsStoreAndTail(disk.logs, chain);
    hide Complete;
    var resynced, fold := Start(cfg, icfg, disk, true, chain).index, ApplyAll(cfg, start, AllLogs(chain));
    NothingToApply(cfg, start);
    assert stored[..0] == [];
    assert Late(cfg, start, disk.persisted, stored[..0]) == start;
    LateIndexExactly(cfg, start, disk.persisted, stored, 0, beyond);
    LateChannelsExactly(cfg, start, start, stored, beyond);
    forall c | Own(c, cfg.me)
      ensures EntryOf(resynced, c).Some? <==> HasOpened(beyond, c)
      ensures EntryOf(fold, c).Some? <==> HasOpened(AllLogs(chain), c)
    {
      EntryFollowsAll(cfg, start, beyond, c);
      EntryFollowsAll(cfg, start, AllLogs(chain), c);
      KnownOnceOpened(cfg.me, c, beyond);
      KnownOnceOpened(cfg.me, c, AllLogs(chain));
    }
    assert forall c :: c in resynced.channels <==> EntryOf(resynced, c).Some?;
    assert forall c :: c in fold.channels <==> EntryOf(fold, c).Some?;
  }
}
