/** The database of raw contract logs: the blocks stored so far, in order, and two flags per log. */
module LogStorage {
  import opened HoprTypes
  import opened Handlers

  datatype Block = Block(id: nat, logs: seq<ContractLog>)

  // Whether the log has been processed, and whether it is covered by a checksum.
  datatype StoredLog = StoredLog(log: ContractLog, processed: bool, checksummed: bool)

  // A block is stored in one go, so the log table is a sequence of blocks by ascending number.
  datatype StoredBlock = StoredBlock(id: nat, rows: seq<StoredLog>)

  function LogsIn(rows: seq<StoredLog>): (logs: seq<ContractLog>)
    ensures |logs| == |rows|
  {
    seq(|rows|, i requires 0 <= i < |rows| => rows[i].log)
  }

  function Raw(store: seq<StoredBlock>): (blocks: seq<Block>)
    ensures |blocks| == |store|
  {
    seq(|store|, i requires 0 <= i < |store| => Block(store[i].id, LogsIn(store[i].rows)))
  }

  function Stores(blocks: seq<Block>, id: nat): bool {
    exists i :: 0 <= i < |blocks| && blocks[i].id == id
  }

  ghost predicate Ascending(blocks: seq<Block>) {
    forall i, j :: 0 <= i < j < |blocks| ==> blocks[i].id < blocks[j].id
  }

  function LogsAt(blocks: seq<Block>, id: nat): seq<ContractLog> {
    if blocks == [] then [] else if blocks[0].id == id then blocks[0].logs else LogsAt(blocks[1..], id)
  }

  function AllLogs(blocks: seq<Block>): seq<ContractLog> {
    if blocks == [] then [] else blocks[0].logs + AllLogs(blocks[1..])
  }

  /** The logs of the given blocks, in the given order. */
  function LogsAtAll(blocks: seq<Block>, ids: seq<nat>): seq<ContractLog> {
    if ids == [] then [] else LogsAt(blocks, ids[0]) + LogsAtAll(blocks, ids[1..])
  }

  function From(blocks: seq<Block>, id: nat): seq<Block> {
    if blocks == [] then []
    else if blocks[0].id >= id then [blocks[0]] + From(blocks[1..], id)
    else From(blocks[1..], id)
  }

  function Before(blocks: seq<Block>, id: nat): seq<Block> {
    if blocks == [] then []
    else if blocks[0].id < id then [blocks[0]] + Before(blocks[1..], id)
    else Before(blocks[1..], id)
  }

  // Logs are what is stored, so a block without any leaves no trace.
  function WithLogs(blocks: seq<Block>): seq<Block> {
    if blocks == [] then []
    else if blocks[0].logs == [] then WithLogs(blocks[1..])
    else [blocks[0]] + WithLogs(blocks[1..])
  }

  /** The blocks that can be stored without meeting a log already there. */
  function Unstored(stored: seq<Block>, blocks: seq<Block>): seq<Block> {
    if blocks == [] then []
    else if blocks[0].logs != [] && Stores(stored, blocks[0].id) then Unstored(stored, blocks[1..])
    else [blocks[0]] + Unstored(stored, blocks[1..])
  }

  // ---------- what the queries and updates do ----------

  function NewRows(logs: seq<ContractLog>): seq<StoredLog> {
    seq(|logs|, i requires 0 <= i < |logs| => StoredLog(logs[i], false, false))
  }

  function Insert(store: seq<StoredBlock>, block: Block): seq<StoredBlock> {
    if store == [] || block.id < store[0].id then [StoredBlock(block.id, NewRows(block.logs))] + store
    else [store[0]] + Insert(store[1..], block)
  }

  function MapRows(store: seq<StoredBlock>, f: (nat, StoredLog) -> StoredLog): (r: seq<StoredBlock>)
    ensures |r| == |store|
  {
    seq(|store|, i requires 0 <= i < |store| =>
      StoredBlock(store[i].id, seq(|store[i].rows|, j requires 0 <= j < |store[i].rows| => f(store[i].id, store[i].rows[j]))))
  }

  function SetProcessed(store: seq<StoredBlock>, block: nat): seq<StoredBlock> {
    MapRows(store, (id, row: StoredLog) => if id == block then row.(processed := true) else row)
  }

  function SetUnprocessed(store: seq<StoredBlock>): seq<StoredBlock> {
    MapRows(store, (id, row: StoredLog) => row.(processed := false))
  }

  // Every stored log without a checksum gets one, processed or not.
  function UpdateChecksums(store: seq<StoredBlock>): seq<StoredBlock> {
    MapRows(store, (id, row: StoredLog) => row.(checksummed := true))
  }

  predicate HasUnprocessed(rows: seq<StoredLog>) {
    exists i :: 0 <= i < |rows| && !rows[i].processed
  }

  predicate HasChecksum(rows: seq<StoredLog>) {
    exists i :: 0 <= i < |rows| && rows[i].checksummed
  }

  function AllIds(store: seq<StoredBlock>): seq<nat> {
    if store == [] then [] else [store[0].id] + AllIds(store[1..])
  }

  function UnprocessedIds(store: seq<StoredBlock>): seq<nat> {
    if store == [] then []
    else (if HasUnprocessed(store[0].rows) then [store[0].id] else []) + UnprocessedIds(store[1..])
  }

  function LastChecksummed(store: seq<StoredBlock>): Option<nat> {
    if store == [] then None
    else
      var last := store[|store| - 1];
      if HasChecksum(last.rows) then Some(last.id) else LastChecksummed(store[..|store| - 1])
  }

  // ---------- lemmas ----------

  lemma MapRowsKeepsRaw(store: seq<StoredBlock>, f: (nat, StoredLog) -> StoredLog)
    requires forall id, row :: f(id, row).log == row.log
    ensures Raw(MapRows(store, f)) == Raw(store)
  {
    var mapped := MapRows(store, f);
    forall i | 0 <= i < |store| ensures Raw(mapped)[i] == Raw(store)[i] {
      assert LogsIn(mapped[i].rows) == LogsIn(store[i].rows);
    }
  }

  /** Setting flags changes no log. */
  lemma FlagsKeepRaw(store: seq<StoredBlock>, block: nat)
    ensures Raw(SetProcessed(store, block)) == Raw(store)
    ensures Raw(SetUnprocessed(store)) == Raw(store)
    ensures Raw(UpdateChecksums(store)) == Raw(store)
  {
    MapRowsKeepsRaw(store, (id, row: StoredLog) => if id == block then row.(processed := true) else row);
    MapRowsKeepsRaw(store, (id, row: StoredLog) => row.(processed := false));
    MapRowsKeepsRaw(store, (id, row: StoredLog) => row.(checksummed := true));
  }

  lemma StoresFirst(blocks: seq<Block>, id: nat)
    requires blocks != []
    ensures Stores(blocks, id) <==> blocks[0].id == id || Stores(blocks[1..], id)
  {
    assert forall i :: 0 < i < |blocks| ==> blocks[i] == blocks[1..][i - 1];
    assert forall i :: 0 <= i < |blocks| - 1 ==> blocks[1..][i] == blocks[i + 1];
  }

  lemma {:induction false} InsertStores(store: seq<StoredBlock>, block: Block, id: nat)
    ensures Stores(Raw(Insert(store, block)), id) <==> Stores(Raw(store), id) || id == block.id
    decreases |store|
  {
    var inserted := Insert(store, block);
    StoresFirst(Raw(inserted), id);
    assert Raw(inserted)[1..] == Raw(inserted[1..]);
    if store != [] && block.id >= store[0].id {
      StoresFirst(Raw(store), id);
      assert Raw(store)[1..] == Raw(store[1..]);
      assert inserted[1..] == Insert(store[1..], block);
      InsertStores(store[1..], block, id);
    } else {
      assert inserted[1..] == store;
    }
  }

  lemma {:induction false} InsertAtEnd(store: seq<StoredBlock>, block: Block)
    requires forall i :: 0 <= i < |store| ==> store[i].id <= block.id
    ensures Insert(store, block) == store + [StoredBlock(block.id, NewRows(block.logs))]
    decreases |store|
  {
    if store != [] {
      InsertAtEnd(store[1..], block);
    }
  }

  lemma {:induction false} AllLogsConcat(a: seq<Block>, b: seq<Block>)
    ensures AllLogs(a + b) == AllLogs(a) + AllLogs(b)
    decreases |a|
  {
    if a == [] {
      assert a + b == b;
    } else {
      assert (a + b)[1..] == a[1..] + b;
      AllLogsConcat(a[1..], b);
    }
  }

  lemma {:induction false} EmptyBlocksHaveNoLogs(blocks: seq<Block>)
    ensures AllLogs(WithLogs(blocks)) == AllLogs(blocks)
  {
    if blocks != [] {
      EmptyBlocksHaveNoLogs(blocks[1..]);
      if blocks[0].logs != [] {
        assert ([blocks[0]] + WithLogs(blocks[1..]))[1..] == WithLogs(blocks[1..]);
      }
    }
  }

  lemma {:induction false} SplitAt(blocks: seq<Block>, id: nat)
    requires Ascending(blocks)
    ensures blocks == Before(blocks, id) + From(blocks, id)
  {
    if blocks != [] {
      SplitAt(blocks[1..], id);
      if blocks[0].id >= id {
        NoneBefore(blocks[1..], id);
      }
    }
  }

  lemma {:induction false} NoneBefore(blocks: seq<Block>, id: nat)
    requires forall i :: 0 <= i < |blocks| ==> blocks[i].id >= id
    ensures Before(blocks, id) == [] && From(blocks, id) == blocks
  {
    if blocks != [] {
      NoneBefore(blocks[1..], id);
    }
  }

  lemma {:induction false} InFrom(blocks: seq<Block>, id: nat, i: nat)
    requires i < |From(blocks, id)|
    ensures From(blocks, id)[i].id >= id && From(blocks, id)[i] in blocks
  {
    if blocks[0].id >= id {
      if i > 0 {
        InFrom(blocks[1..], id, i - 1);
      }
    } else {
      InFrom(blocks[1..], id, i);
    }
  }

  /** Reading a block by its number finds the block itself. */
  lemma {:induction false} LogsAtItsNumber(blocks: seq<Block>, i: nat)
    requires Ascending(blocks) && i < |blocks|
    ensures LogsAt(blocks, blocks[i].id) == blocks[i].logs
  {
    if i > 0 {
      LogsAtItsNumber(blocks[1..], i - 1);
    }
  }

  function IdsOf(blocks: seq<Block>): seq<nat> {
    if blocks == [] then [] else [blocks[0].id] + IdsOf(blocks[1..])
  }

  /** Reading a stretch of blocks by their numbers reads its logs in order. */
  lemma {:induction false} LogsAtStretch(blocks: seq<Block>, from: nat)
    requires Ascending(blocks) && from <= |blocks|
    ensures LogsAtAll(blocks, IdsOf(blocks[from..])) == AllLogs(blocks[from..])
    decreases |blocks| - from
  {
    if from < |blocks| {
      LogsAtItsNumber(blocks, from);
      assert blocks[from..][1..] == blocks[from + 1..];
      var ids := IdsOf(blocks[from..]);
      assert ids[1..] == IdsOf(blocks[from + 1..]);
      LogsAtStretch(blocks, from + 1);
    }
  }

  /** Each update changes its flag on exactly the rows it is for, and no other flag. */
  lemma FlagsExactly(store: seq<StoredBlock>, block: nat, i: nat, j: nat)
    requires i < |store| && j < |store[i].rows|
    ensures var row := store[i].rows[j];
      var processed, unprocessed, covered := SetProcessed(store, block), SetUnprocessed(store), UpdateChecksums(store);
      && |processed| == |unprocessed| == |covered| == |store|
      && |processed[i].rows| == |unprocessed[i].rows| == |covered[i].rows| == |store[i].rows|
      && processed[i].rows[j].processed == (row.processed || store[i].id == block)
      && !unprocessed[i].rows[j].processed && covered[i].rows[j].processed == row.processed
      && processed[i].rows[j].checksummed == row.checksummed
      && unprocessed[i].rows[j].checksummed == row.checksummed && covered[i].rows[j].checksummed
  {
  }
}
