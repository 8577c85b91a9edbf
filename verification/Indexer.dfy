/**
 The indexer from start to the running stream: what it prepares, which stored blocks it processes again,
 where it resumes, and what it does with each block that arrives.
 */
module Indexer {
  import opened HoprTypes
  import opened TicketStore
  import opened Handlers
  import opened HandlerProperties
  import opened LedgerRefinement
  import opened CrashReplay
  import opened OutgoingIndices
  import opened LogStorage

  datatype IndexerConfig = IndexerConfig(startBlock: nat, fastSync: bool, initialWinProb: nat)

  // The index as the running process sees it, the outgoing indices that have reached the disk, and the logs.
  datatype Disk = Disk(index: Index, persisted: map<ChannelId, nat>, logs: seq<StoredBlock>)

  ghost function ProcessBlock(cfg: Config, disk: Disk, block: Block): Disk {
    disk.(index := ApplyAll(cfg, disk.index, block.logs), logs := UpdateChecksums(SetProcessed(disk.logs, block.id)))
  }

  ghost function FastSync(cfg: Config, disk: Disk, ids: seq<nat>): Disk
    decreases |ids|
  {
    if ids == [] then disk
    else FastSync(cfg, ProcessBlock(cfg, disk, Block(ids[0], LogsAt(Raw(disk.logs), ids[0]))), ids[1..])
  }

  // Storing a log a second time is an error, and a block with such a log is dropped from the stream.
  predicate IsDropped(disk: Disk, block: Block) {
    block.logs != [] && Stores(Raw(disk.logs), block.id)
  }

  function StoreBlock(disk: Disk, block: Block): Disk {
    if block.logs == [] then disk else disk.(logs := Insert(disk.logs, block))
  }

  ghost function StreamOne(cfg: Config, disk: Disk, block: Block): Disk {
    if IsDropped(disk, block) then disk else ProcessBlock(cfg, StoreBlock(disk, block), block)
  }

  ghost function Stream(cfg: Config, disk: Disk, blocks: seq<Block>): Disk
    decreases |blocks|
  {
    if blocks == [] then disk else Stream(cfg, StreamOne(cfg, disk, blocks[0]), blocks[1..])
  }

  // Clearing the index leaves the tickets, which are in another database.
  function Cleared(icfg: IndexerConfig, index: Index): Index {
    index.(channels := map[], safeBalance := 0, safeAllowance := 0, minWinProb := icfg.initialWinProb)
  }

  // A process that starts has the outgoing indices from the disk.
  function Loaded(disk: Disk): Index {
    Reloaded(disk.index, disk.persisted)
  }

  function Prepared(icfg: IndexerConfig, disk: Disk, empty: bool): Disk {
    if empty then disk.(index := Cleared(icfg, Loaded(disk)), logs := SetUnprocessed(disk.logs))
    else disk.(index := Loaded(disk))
  }

  function IdsToSync(icfg: IndexerConfig, store: seq<StoredBlock>, empty: bool): seq<nat> {
    if !icfg.fastSync then [] else if empty then AllIds(store) else UnprocessedIds(store)
  }

  function ResumePoint(icfg: IndexerConfig, store: seq<StoredBlock>): nat {
    match LastChecksummed(store)
    case Some(last) => if icfg.startBlock < last then last + 1 else icfg.startBlock
    case None => icfg.startBlock
  }

  ghost function Synced(cfg: Config, icfg: IndexerConfig, disk: Disk, empty: bool): Disk {
    var prepared := Prepared(icfg, disk, empty);
    FastSync(cfg, prepared, IdsToSync(icfg, prepared.logs, empty))
  }

  /** A whole start: the mode's preparation, the fast sync, and the chain's blocks from the resume point on. */
  ghost function Start(cfg: Config, icfg: IndexerConfig, disk: Disk, empty: bool, chain: seq<Block>): Disk {
    var synced := Synced(cfg, icfg, disk, empty);
    Stream(cfg, synced, From(chain, ResumePoint(icfg, synced.logs)))
  }

  // ---------- every start is one fold ----------

  lemma {:induction false} FastSyncFolds(cfg: Config, disk: Disk, ids: seq<nat>)
    ensures FastSync(cfg, disk, ids).index == ApplyAll(cfg, disk.index, LogsAtAll(Raw(disk.logs), ids))
    ensures Raw(FastSync(cfg, disk, ids).logs) == Raw(disk.logs)
    decreases |ids|
  {
    hide ApplyAll;
    hide SetProcessed;
    hide UpdateChecksums;
    if ids == [] {
      NothingToApply(cfg, disk.index);
    } else {
      var block := Block(ids[0], LogsAt(Raw(disk.logs), ids[0]));
      var next := ProcessBlock(cfg, disk, block);
      FlagsKeepRaw(disk.logs, block.id);
      FlagsKeepRaw(SetProcessed(disk.logs, block.id), 0);
      FastSyncFolds(cfg, next, ids[1..]);
      ApplyAllConcat(cfg, disk.index, block.logs, LogsAtAll(Raw(disk.logs), ids[1..]));
    }
  }

  lemma NothingToApply(cfg: Config, index: Index)
    ensures ApplyAll(cfg, index, []) == index
  {
  }

  lemma {:induction false} UnstoredAgrees(a: seq<Block>, b: seq<Block>, blocks: seq<Block>)
    requires forall i :: 0 <= i < |blocks| ==> (Stores(a, blocks[i].id) <==> Stores(b, blocks[i].id))
    ensures Unstored(a, blocks) == Unstored(b, blocks)
  {
    if blocks != [] {
      assert Stores(a, blocks[0].id) <==> Stores(b, blocks[0].id);
      UnstoredAgrees(a, b, blocks[1..]);
    }
  }

  lemma StreamOneStores(cfg: Config, disk: Disk, block: Block, id: nat)
    requires id != block.id
    ensures Stores(Raw(StreamOne(cfg, disk, block).logs), id) <==> Stores(Raw(disk.logs), id)
  {
    hide ApplyAll;
    hide SetProcessed;
    hide UpdateChecksums;
    var stored := StoreBlock(disk, block);
    FlagsKeepRaw(stored.logs, block.id);
    FlagsKeepRaw(SetProcessed(stored.logs, block.id), 0);
    InsertStores(disk.logs, block, id);
  }

  /** The stream folds the logs of exactly those blocks that were not stored before. */
  lemma {:induction false} StreamFolds(cfg: Config, disk: Disk, blocks: seq<Block>)
    requires Ascending(blocks)
    ensures Stream(cfg, disk, blocks).index == ApplyAll(cfg, disk.index, AllLogs(Unstored(Raw(disk.logs), blocks)))
    decreases |blocks|
  {
    hide ApplyAll;
    hide SetProcessed;
    hide UpdateChecksums;
    hide Stores;
    if blocks == [] {
      NothingToApply(cfg, disk.index);
    } else {
      var next := StreamOne(cfg, disk, blocks[0]);
      var rest := Unstored(Raw(disk.logs), blocks[1..]);
      StreamFolds(cfg, next, blocks[1..]);
      forall i | 0 <= i < |blocks[1..]|
        ensures Stores(Raw(next.logs), blocks[1..][i].id) <==> Stores(Raw(disk.logs), blocks[1..][i].id)
      {
        StreamOneStores(cfg, disk, blocks[0], blocks[1..][i].id);
      }
      UnstoredAgrees(Raw(next.logs), Raw(disk.logs), blocks[1..]);
      ApplyAllConcat(cfg, disk.index, blocks[0].logs, AllLogs(rest));
      assert ([blocks[0]] + rest)[1..] == rest;
    }
  }

  lemma {:induction false} FromIsAscending(blocks: seq<Block>, id: nat)
    requires Ascending(blocks)
    ensures Ascending(From(blocks, id))
  {
    if blocks != [] {
      FromIsAscending(blocks[1..], id);
      var rest := From(blocks[1..], id);
      forall i | 0 <= i < |rest| ensures blocks[0].id < rest[i].id {
        InFrom(blocks[1..], id, i);
        assert rest[i] in blocks[1..];
      }
    }
  }

  /** In every mode, whatever the flags, a start is one fold over the stored logs it replays and the new ones. */
  lemma StartFolds(cfg: Config, icfg: IndexerConfig, disk: Disk, empty: bool, chain: seq<Block>)
    requires Ascending(chain)
    ensures var prepared, synced := Prepared(icfg, disk, empty), Synced(cfg, icfg, disk, empty);
      && Raw(synced.logs) == Raw(disk.logs)
      && Start(cfg, icfg, disk, empty, chain).index ==
           ApplyAll(cfg, prepared.index,
             LogsAtAll(Raw(disk.logs), IdsToSync(icfg, prepared.logs, empty))
             + AllLogs(Unstored(Raw(disk.logs), From(chain, ResumePoint(icfg, synced.logs)))))
  {
    hide ApplyAll;
    hide FastSync;
    hide Stream;
    hide SetUnprocessed;
    var prepared, synced := Prepared(icfg, disk, empty), Synced(cfg, icfg, disk, empty);
    FlagsKeepRaw(disk.logs, 0);
    var ids := IdsToSync(icfg, prepared.logs, empty);
    FastSyncFolds(cfg, prepared, ids);
    var blocks := From(chain, ResumePoint(icfg, synced.logs));
    FromIsAscending(chain, ResumePoint(icfg, synced.logs));
    StreamFolds(cfg, synced, blocks);
    ApplyAllConcat(cfg, prepared.index, LogsAtAll(Raw(disk.logs), ids), AllLogs(Unstored(Raw(disk.logs), blocks)));
  }

  // ---------- complete stored logs ----------

  function LastId(store: seq<StoredBlock>): nat
    requires store != []
  {
    store[|store| - 1].id
  }

  /** The stored logs are those of the chain up to the last stored block. */
  ghost predicate Complete(store: seq<StoredBlock>, chain: seq<Block>) {
    && store != [] && Ascending(chain) && Ascending(Raw(store))
    && Raw(store) == WithLogs(Before(chain, LastId(store) + 1))
  }

  lemma {:induction false} StoredExactly(blocks: seq<Block>, id: nat)
    ensures Stores(WithLogs(blocks), id) <==> exists i :: 0 <= i < |blocks| && blocks[i].id == id && blocks[i].logs != []
  {
    if blocks != [] {
      StoredExactly(blocks[1..], id);
      var rest := WithLogs(blocks[1..]);
      assert forall i :: 0 < i < |blocks| ==> blocks[i] == blocks[1..][i - 1];
      assert forall i :: 0 <= i < |blocks| - 1 ==> blocks[1..][i] == blocks[i + 1];
      if blocks[0].logs != [] {
        StoresFirst([blocks[0]] + rest, id);
        assert ([blocks[0]] + rest)[1..] == rest;
      }
    }
  }

  lemma {:induction false} InBefore(blocks: seq<Block>, id: nat, b: Block)
    ensures b in Before(blocks, id) <==> b in blocks && b.id < id
  {
    if blocks != [] {
      InBefore(blocks[1..], id, b);
    }
  }

  /** A complete store has every block of the chain with logs up to its last, and none beyond. */
  lemma CompleteStores(store: seq<StoredBlock>, chain: seq<Block>, b: Block)
    requires Complete(store, chain) && b in chain && b.logs != []
    ensures Stores(Raw(store), b.id) <==> b.id <= LastId(store)
  {
    var before := Before(chain, LastId(store) + 1);
    StoredExactly(before, b.id);
    InBefore(chain, LastId(store) + 1, b);
    if b.id <= LastId(store) {
      var i :| 0 <= i < |before| && before[i] == b;
    } else if Stores(Raw(store), b.id) {
      var i :| 0 <= i < |before| && before[i].id == b.id && before[i].logs != [];
      InBefore(chain, LastId(store) + 1, before[i]);
      assert false;
    }
  }

  lemma {:induction false} UnstoredIsTail(stored: seq<Block>, chain: seq<Block>, resume: nat, last: nat)
    requires Ascending(chain) && resume <= last + 1
    requires forall i :: 0 <= i < |chain| && chain[i].logs != [] ==> (Stores(stored, chain[i].id) <==> chain[i].id <= last)
    ensures AllLogs(Unstored(stored, From(chain, resume))) == AllLogs(From(chain, last + 1))
  {
    hide Stores;
    if chain != [] {
      UnstoredIsTail(stored, chain[1..], resume, last);
      var b, rest := chain[0], From(chain[1..], resume);
      assert chain[0].logs != [] ==> (Stores(stored, chain[0].id) <==> chain[0].id <= last);
      if b.id >= resume {
        assert ([b] + rest)[1..] == rest;
        assert ([b] + Unstored(stored, rest))[1..] == Unstored(stored, rest);
      }
      if b.id > last {
        assert ([b] + From(chain[1..], last + 1))[1..] == From(chain[1..], last + 1);
      }
    }
  }

  lemma {:induction false} LastChecksummedIsStored(store: seq<StoredBlock>)
    requires Ascending(Raw(store))
    ensures LastChecksummed(store).Some? ==> store != [] && LastChecksummed(store).value <= LastId(store)
    decreases |store|
  {
    if store != [] && !HasChecksum(store[|store| - 1].rows) {
      var rest := store[..|store| - 1];
      assert Raw(rest) == Raw(store)[..|rest|];
      LastChecksummedIsStored(rest);
      if LastChecksummed(rest).Some? {
        assert Raw(store)[|rest| - 1].id < Raw(store)[|rest|].id;
      }
    }
  }

  lemma ResumeIsEarlyEnough(icfg: IndexerConfig, store: seq<StoredBlock>)
    requires store != [] && Ascending(Raw(store)) && icfg.startBlock < LastId(store)
    ensures ResumePoint(icfg, store) <= LastId(store) + 1
  {
    LastChecksummedIsStored(store);
  }

  lemma SameRawSameLast(a: seq<StoredBlock>, b: seq<StoredBlock>)
    requires Raw(a) == Raw(b) && a != []
    ensures b != [] && LastId(a) == LastId(b)
  {
    assert Raw(a)[|a| - 1].id == LastId(a) && Raw(b)[|b| - 1].id == LastId(b);
  }

  /** Over a complete store every start folds the replayed stored blocks and then the chain beyond the store. */
  lemma CompleteStartFolds(cfg: Config, icfg: IndexerConfig, disk: Disk, empty: bool, chain: seq<Block>)
    requires Complete(disk.logs, chain) && icfg.startBlock < LastId(disk.logs)
    ensures var prepared := Prepared(icfg, disk, empty);
      Start(cfg, icfg, disk, empty, chain).index ==
        ApplyAll(cfg, prepared.index,
          LogsAtAll(Raw(disk.logs), IdsToSync(icfg, prepared.logs, empty)) + AllLogs(From(chain, LastId(disk.logs) + 1)))
  {
    hide ApplyAll;
    hide Start;
    hide Synced;
    hide Stores;
    var synced := Synced(cfg, icfg, disk, empty);
    StartFolds(cfg, icfg, disk, empty, chain);
    SameRawSameLast(disk.logs, synced.logs);
    ResumeIsEarlyEnough(icfg, synced.logs);
    forall i | 0 <= i < |chain| && chain[i].logs != []
      ensures Stores(Raw(disk.logs), chain[i].id) <==> chain[i].id <= LastId(disk.logs)
    {
      CompleteStores(disk.logs, chain, chain[i]);
    }
    UnstoredIsTail(Raw(disk.logs), chain, ResumePoint(icfg, synced.logs), LastId(disk.logs));
  }

  lemma ChainIsStoreAndTail(store: seq<StoredBlock>, chain: seq<Block>)
    requires Complete(store, chain)
    ensures AllLogs(chain) == AllLogs(Raw(store)) + AllLogs(From(chain, LastId(store) + 1))
  {
    var head, tail := Before(chain, LastId(store) + 1), From(chain, LastId(store) + 1);
    SplitAt(chain, LastId(store) + 1);
    AllLogsConcat(head, tail);
    EmptyBlocksHaveNoLogs(head);
  }

  lemma {:induction false} IdsAreOfRaw(store: seq<StoredBlock>)
    ensures AllIds(store) == IdsOf(Raw(store))
  {
    if store != [] {
      IdsAreOfRaw(store[1..]);
      assert Raw(store)[1..] == Raw(store[1..]);
    }
  }

  /** The first m blocks are processed entirely, each later one is not. */
  predicate ProcessedUpTo(store: seq<StoredBlock>, m: nat) {
    m <= |store| && forall i :: 0 <= i < |store| ==> (HasUnprocessed(store[i].rows) <==> i >= m)
  }

  lemma {:induction false} UnprocessedAreLast(store: seq<StoredBlock>, m: nat)
    requires ProcessedUpTo(store, m)
    ensures UnprocessedIds(store) == IdsOf(Raw(store)[m..])
    decreases |store|
  {
    hide HasUnprocessed;
    if store != [] {
      var m' := if m == 0 then 0 else m - 1;
      assert forall i :: 0 <= i < |store| - 1 ==> store[1..][i] == store[i + 1];
      assert HasUnprocessed(store[0].rows) <==> m == 0;
      UnprocessedAreLast(store[1..], m');
      assert Raw(store)[1..] == Raw(store[1..]);
      if m == 0 {
        assert Raw(store)[0..][1..] == Raw(store[1..])[0..];
      } else {
        assert Raw(store)[m..] == Raw(store[1..])[m - 1..];
      }
    }
  }

  /** Fast sync from scratch, then the stream, is one ordered fold over the whole chain. */
  lemma FastSyncFromScratch(cfg: Config, icfg: IndexerConfig, disk: Disk, chain: seq<Block>)
    requires icfg.fastSync && Complete(disk.logs, chain) && icfg.startBlock < LastId(disk.logs)
    ensures Start(cfg, icfg, disk, true, chain).index == ApplyAll(cfg, Cleared(icfg, Loaded(disk)), AllLogs(chain))
  {
    hide ApplyAll;
    hide Start;
    var raw := Raw(disk.logs);
    CompleteStartFolds(cfg, icfg, disk, true, chain);
    ChainIsStoreAndTail(disk.logs, chain);
    FlagsKeepRaw(disk.logs, 0);
    IdsAreOfRaw(SetUnprocessed(disk.logs));
    LogsAtStretch(raw, 0);
    assert raw[0..] == raw;
  }

  /**
   So is fast sync that continues after a block-aligned processed prefix, up to the outgoing indices. One of
   those is as the fold has it exactly if the logs from there on make up for what had not reached the disk.
   */
  lemma FastSyncContinues(cfg: Config, icfg: IndexerConfig, disk: Disk, chain: seq<Block>, origin: Index, m: nat)
    requires icfg.fastSync && Complete(disk.logs, chain) && icfg.startBlock < LastId(disk.logs)
    requires ProcessedUpTo(disk.logs, m) && disk.index == ApplyAll(cfg, origin, AllLogs(Raw(disk.logs)[..m]))
    requires RangesDisjoint(disk.index.store.tickets)
    ensures var final, fold := Start(cfg, icfg, disk, false, chain).index, ApplyAll(cfg, origin, AllLogs(chain));
      var rest := AllLogs(Raw(disk.logs)[m..]) + AllLogs(From(chain, LastId(disk.logs) + 1));
      && SameButOutgoing(final, fold)
      && forall c :: OutgoingIndex(final.outgoing, c) == OutgoingIndex(fold.outgoing, c) <==>
           Recovers(FormAfter(cfg.me, c, EntryOf(disk.index, c), rest),
             OutgoingIndex(disk.persisted, c), OutgoingIndex(disk.index.outgoing, c))
  {
    hide ApplyAll;
    hide Start;
    hide AllLogs;
    hide From;
    hide Recovers;
    hide FormAfter;
    var raw, tail := Raw(disk.logs), AllLogs(From(chain, LastId(disk.logs) + 1));
    CompleteStartFolds(cfg, icfg, disk, false, chain);
    ChainIsStoreAndTail(disk.logs, chain);
    UnprocessedAreLast(disk.logs, m);
    LogsAtStretch(raw, m);
    hide Complete;
    hide ProcessedUpTo;
    FoldFromPrefix(cfg, origin, raw, m, tail);
    ReloadExactly(cfg, disk.index, disk.persisted, AllLogs(raw[m..]) + tail);
  }

  lemma FoldFromPrefix(cfg: Config, origin: Index, blocks: seq<Block>, m: nat, tail: seq<ContractLog>)
    requires m <= |blocks|
    ensures ApplyAll(cfg, ApplyAll(cfg, origin, AllLogs(blocks[..m])), AllLogs(blocks[m..]) + tail)
         == ApplyAll(cfg, origin, AllLogs(blocks) + tail)
  {
    hide ApplyAll;
    assert blocks == blocks[..m] + blocks[m..];
    AllLogsConcat(blocks[..m], blocks[m..]);
    ApplyAllConcat(cfg, origin, AllLogs(blocks[..m]), AllLogs(blocks[m..]) + tail);
    assert AllLogs(blocks[..m]) + (AllLogs(blocks[m..]) + tail) == AllLogs(blocks) + tail;
  }

  /** Without fast sync the stored logs are skipped, processed or not: what follows is the chain beyond them. */
  lemma SlowStartSkipsTheStore(cfg: Config, icfg: IndexerConfig, disk: Disk, empty: bool, chain: seq<Block>)
    requires !icfg.fastSync && Complete(disk.logs, chain) && icfg.startBlock < LastId(disk.logs)
    ensures Start(cfg, icfg, disk, empty, chain).index
         == ApplyAll(cfg, Prepared(icfg, disk, empty).index, AllLogs(From(chain, LastId(disk.logs) + 1)))
  {
    hide ApplyAll;
    hide Start;
    var tail := AllLogs(From(chain, LastId(disk.logs) + 1));
    CompleteStartFolds(cfg, icfg, disk, empty, chain);
    assert [] + tail == tail;
  }

  // ---------- where the stream starts ----------

  predicate NoChecksums(store: seq<StoredBlock>) {
    forall i :: 0 <= i < |store| ==> !HasChecksum(store[i].rows)
  }

  lemma {:induction false} LastChecksummedExactly(store: seq<StoredBlock>)
    requires Ascending(Raw(store))
    ensures LastChecksummed(store).None? <==> NoChecksums(store)
    ensures LastChecksummed(store).Some? ==>
      && (exists i :: 0 <= i < |store| && HasChecksum(store[i].rows) && store[i].id == LastChecksummed(store).value)
      && (forall i :: 0 <= i < |store| && HasChecksum(store[i].rows) ==> store[i].id <= LastChecksummed(store).value)
    decreases |store|
  {
    hide HasChecksum;
    if store != [] {
      var rest := store[..|store| - 1];
      assert Raw(rest) == Raw(store)[..|rest|];
      LastChecksummedExactly(rest);
      forall i | 0 <= i < |store| ensures store[i].id <= store[|store| - 1].id {
        assert Raw(store)[i].id <= Raw(store)[|store| - 1].id;
      }
      assert forall i :: 0 <= i < |rest| ==> rest[i] == store[i];
    }
  }

  predicate IsLastWithChecksum(store: seq<StoredBlock>, i: nat)
    requires i < |store|
  {
    HasChecksum(store[i].rows) && forall j :: 0 <= j < |store| && HasChecksum(store[j].rows) ==> store[j].id <= store[i].id
  }

  /**
   The stream starts right after the last block with a checksum, if the configured start lies before that block,
   and otherwise at the configured start.
   */
  lemma ResumesExactly(icfg: IndexerConfig, store: seq<StoredBlock>)
    requires Ascending(Raw(store))
    ensures (forall i :: 0 <= i < |store| && HasChecksum(store[i].rows) ==> store[i].id <= icfg.startBlock) ==>
      ResumePoint(icfg, store) == icfg.startBlock
    ensures forall i :: 0 <= i < |store| && IsLastWithChecksum(store, i) && icfg.startBlock < store[i].id ==>
      ResumePoint(icfg, store) == store[i].id + 1
  {
    LastChecksummedExactly(store);
  }

  /**
   If no stored block lies beyond the configured start, or none has a checksum and none is replayed, the chain is
   followed from the configured start block on, that block included.
   */
  lemma StartsAtConfiguredBlock(cfg: Config, icfg: IndexerConfig, disk: Disk, empty: bool, chain: seq<Block>)
    requires Ascending(chain) && Ascending(Raw(disk.logs))
    requires (forall i :: 0 <= i < |disk.logs| ==> disk.logs[i].id <= icfg.startBlock) || (!icfg.fastSync && NoChecksums(disk.logs))
    ensures var prepared := Prepared(icfg, disk, empty);
      Start(cfg, icfg, disk, empty, chain).index ==
        ApplyAll(cfg, prepared.index,
          LogsAtAll(Raw(disk.logs), IdsToSync(icfg, prepared.logs, empty))
          + AllLogs(Unstored(Raw(disk.logs), From(chain, icfg.startBlock))))
  {
    hide ApplyAll;
    hide Start;
    hide Synced;
    StartFolds(cfg, icfg, disk, empty, chain);
    var synced := Synced(cfg, icfg, disk, empty);
    if forall i :: 0 <= i < |disk.logs| ==> disk.logs[i].id <= icfg.startBlock {
      forall i | 0 <= i < |synced.logs| ensures synced.logs[i].id <= icfg.startBlock {
        assert Raw(synced.logs)[i].id == Raw(disk.logs)[i].id;
      }
    } else {
      SlowSyncKeepsChecksums(cfg, icfg, disk, empty);
    }
    ResumesExactly(icfg, synced.logs);
  }

  lemma SlowSyncKeepsChecksums(cfg: Config, icfg: IndexerConfig, disk: Disk, empty: bool)
    requires !icfg.fastSync && NoChecksums(disk.logs)
    ensures NoChecksums(Synced(cfg, icfg, disk, empty).logs)
  {
    var synced := Synced(cfg, icfg, disk, empty);
    forall i | 0 <= i < |synced.logs| ensures !HasChecksum(synced.logs[i].rows) {
      assert !HasChecksum(disk.logs[i].rows);
      assert forall j :: 0 <= j < |disk.logs[i].rows| ==> synced.logs[i].rows[j].checksummed == disk.logs[i].rows[j].checksummed;
    }
  }

  /** A first start, in any mode, folds the chain from the configured start block on, that block included. */
  lemma FirstStart(cfg: Config, icfg: IndexerConfig, disk: Disk, empty: bool, chain: seq<Block>)
    requires Ascending(chain) && disk.logs == []
    ensures Start(cfg, icfg, disk, empty, chain).index
         == ApplyAll(cfg, if empty then Cleared(icfg, Loaded(disk)) else Loaded(disk), AllLogs(From(chain, icfg.startBlock)))
  {
    hide ApplyAll;
    hide Start;
    StartsAtConfiguredBlock(cfg, icfg, disk, empty, chain);
    assert Raw(disk.logs) == [];
    AllUnstored(From(chain, icfg.startBlock));
    assert [] + AllLogs(From(chain, icfg.startBlock)) == AllLogs(From(chain, icfg.startBlock));
  }

  lemma {:induction false} AllUnstored(blocks: seq<Block>)
    ensures Unstored([], blocks) == blocks
  {
    if blocks != [] {
      AllUnstored(blocks[1..]);
    }
  }

  /** After any block was processed, everything stored is covered, so the next start resumes behind all of it. */
  lemma ProcessedIsCovered(cfg: Config, icfg: IndexerConfig, disk: Disk, block: Block)
    requires disk.logs != [] && Ascending(Raw(disk.logs)) && icfg.startBlock < LastId(disk.logs)
    requires forall i :: 0 <= i < |disk.logs| ==> disk.logs[i].rows != []
    ensures ResumePoint(icfg, ProcessBlock(cfg, disk, block).logs) == LastId(disk.logs) + 1
  {
    hide ApplyAll;
    var marked, n := SetProcessed(disk.logs, block.id), |disk.logs|;
    FlagsKeepRaw(disk.logs, block.id);
    FlagsKeepRaw(marked, 0);
    FlagsExactly(disk.logs, block.id, n - 1, 0);
    FlagsExactly(marked, 0, n - 1, 0);
    hide SetProcessed;
    var after := UpdateChecksums(marked);
    hide UpdateChecksums;
    LastIsCovered(after);
    SameRawSameLast(disk.logs, after);
    ResumesExactly(icfg, after);
  }

  lemma LastIsCovered(store: seq<StoredBlock>)
    requires store != [] && Ascending(Raw(store))
    requires store[|store| - 1].rows != [] && store[|store| - 1].rows[0].checksummed
    ensures IsLastWithChecksum(store, |store| - 1)
  {
    forall j | 0 <= j < |store| ensures store[j].id <= store[|store| - 1].id {
      assert Raw(store)[j].id <= Raw(store)[|store| - 1].id;
    }
  }

  /** Storing a block does not cover it: a node that dies before processing it resumes where it would have. */
  lemma StoredIsNotCovered(icfg: IndexerConfig, disk: Disk, block: Block)
    requires Ascending(Raw(disk.logs)) && forall i :: 0 <= i < |disk.logs| ==> disk.logs[i].id < block.id
    ensures ResumePoint(icfg, StoreBlock(disk, block).logs) == ResumePoint(icfg, disk.logs)
    ensures block.logs != [] ==> UnprocessedIds(StoreBlock(disk, block).logs) == UnprocessedIds(disk.logs) + [block.id]
  {
    if block.logs != [] {
      var stored := Insert(disk.logs, block);
      InsertAtEnd(disk.logs, block);
      var last := StoredBlock(block.id, NewRows(block.logs));
      assert stored == disk.logs + [last] && stored[..|disk.logs|] == disk.logs;
      assert !HasChecksum(last.rows);
      assert !last.rows[0].processed;
      UnprocessedAppend(disk.logs, last);
    }
  }

  lemma {:induction false} UnprocessedAppend(store: seq<StoredBlock>, last: StoredBlock)
    ensures UnprocessedIds(store + [last]) == UnprocessedIds(store) + if HasUnprocessed(last.rows) then [last.id] else []
    decreases |store|
  {
    hide HasUnprocessed;
    if store == [] {
      assert (store + [last])[1..] == [];
    } else {
      assert (store + [last])[1..] == store[1..] + [last];
      UnprocessedAppend(store[1..], last);
      var end := if HasUnprocessed(last.rows) then [last.id] else [];
      var first := if HasUnprocessed(store[0].rows) then [store[0].id] else [];
      Associates(first, UnprocessedIds(store[1..]), end);
    }
  }

  lemma Associates(a: seq<nat>, b: seq<nat>, c: seq<nat>)
    ensures a + (b + c) == a + b + c
  {
  }

  /** What the stream brings is stored behind the rest, in order and unchanged. */
  lemma {:induction false} StreamStores(cfg: Config, disk: Disk, blocks: seq<Block>)
    requires Ascending(blocks)
    requires forall i, j :: 0 <= i < |disk.logs| && 0 <= j < |blocks| ==> disk.logs[i].id < blocks[j].id
    ensures Raw(Stream(cfg, disk, blocks).logs) == Raw(disk.logs) + WithLogs(blocks)
    decreases |blocks|
  {
    hide StreamOne;
    if blocks != [] {
      var next := StreamOne(cfg, disk, blocks[0]);
      StreamOneAppends(cfg, disk, blocks[0]);
      BeforeTheRest(disk.logs, next.logs, blocks);
      hide Raw;
      StreamStores(cfg, next, blocks[1..]);
      if blocks[0].logs != [] {
        AppendOne(Raw(disk.logs), blocks[0], WithLogs(blocks[1..]));
      }
    }
  }

  lemma AppendOne(a: seq<Block>, b: Block, rest: seq<Block>)
    ensures a + [b] + rest == a + ([b] + rest)
  {
  }

  lemma BeforeTheRest(store: seq<StoredBlock>, next: seq<StoredBlock>, blocks: seq<Block>)
    requires blocks != [] && Ascending(blocks)
    requires forall i, j :: 0 <= i < |store| && 0 <= j < |blocks| ==> store[i].id < blocks[j].id
    requires Raw(next) == Raw(store) + if blocks[0].logs == [] then [] else [blocks[0]]
    ensures forall i, j :: 0 <= i < |next| && 0 <= j < |blocks[1..]| ==> next[i].id < blocks[1..][j].id
  {
    forall i, j | 0 <= i < |next| && 0 <= j < |blocks[1..]| ensures next[i].id < blocks[1..][j].id {
      assert Raw(next)[i].id == next[i].id;
      assert i < |store| ==> Raw(store)[i].id == store[i].id;
    }
  }

  lemma StreamOneAppends(cfg: Config, disk: Disk, block: Block)
    requires forall i :: 0 <= i < |disk.logs| ==> disk.logs[i].id < block.id
    ensures Raw(StreamOne(cfg, disk, block).logs) == Raw(disk.logs) + if block.logs == [] then [] else [block]
  {
    hide ApplyAll;
    assert !Stores(Raw(disk.logs), block.id);
    var stored := StoreBlock(disk, block);
    FlagsKeepRaw(stored.logs, block.id);
    FlagsKeepRaw(SetProcessed(stored.logs, block.id), 0);
    InsertAtEnd(disk.logs, block);
    assert LogsIn(NewRows(block.logs)) == block.logs;
    assert Raw(disk.logs) + [] == Raw(disk.logs);
  }
}
