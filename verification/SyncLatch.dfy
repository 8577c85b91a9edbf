/**
 The running stream: before a block is processed the sync progress is updated, and its events are passed on
 only once the node counts as synced.
 */
module SyncLatch {
  import opened HoprTypes
  import opened Handlers
  import opened LogStorage
  import opened Indexer

  datatype Pipeline = Pipeline(
    disk: Disk, synced: bool, chainHead: nat, notifications: nat, egress: seq<ChainEvent>)

  // A block with the head the chain would report if asked before the block is processed.
  datatype Arrival = Arrival(block: Block, reportedHead: nat)

  function HeadAfter(p: Pipeline, start: nat, a: Arrival): nat {
    if !p.synced && SatSub(p.chainHead, start) == 0 then a.reportedHead else p.chainHead
  }

  function SyncedAfter(p: Pipeline, start: nat, a: Arrival): bool {
    p.synced || a.block.id >= HeadAfter(p, start, a)
  }

  // A dropped block yields no events.
  ghost function BlockEvents(cfg: Config, disk: Disk, block: Block): seq<ChainEvent> {
    if IsDropped(disk, block) then [] else EventsOf(cfg, disk.index, block.logs)
  }

  ghost function Advance(cfg: Config, p: Pipeline, start: nat, a: Arrival): Pipeline {
    var synced := SyncedAfter(p, start, a);
    Pipeline(
      StreamOne(cfg, p.disk, a.block),
      synced,
      HeadAfter(p, start, a),
      p.notifications + if synced && !p.synced then 1 else 0,
      p.egress + if synced then BlockEvents(cfg, p.disk, a.block) else [])
  }

  ghost function RunPipeline(cfg: Config, p: Pipeline, start: nat, arrivals: seq<Arrival>): Pipeline
    decreases |arrivals|
  {
    if arrivals == [] then p else RunPipeline(cfg, Advance(cfg, p, start, arrivals[0]), start, arrivals[1..])
  }

  function BlocksOf(arrivals: seq<Arrival>): (blocks: seq<Block>)
    ensures |blocks| == |arrivals|
  {
    seq(|arrivals|, i requires 0 <= i < |arrivals| => arrivals[i].block)
  }

  ghost function EventsOfBlocks(cfg: Config, disk: Disk, blocks: seq<Block>): seq<ChainEvent>
    decreases |blocks|
  {
    if blocks == [] then []
    else BlockEvents(cfg, disk, blocks[0]) + EventsOfBlocks(cfg, StreamOne(cfg, disk, blocks[0]), blocks[1..])
  }

  /** The head against which arriving blocks are measured: the recorded one, or the first reported one if that is spent. */
  function RecordedHead(chainHead: nat, start: nat, arrivals: seq<Arrival>): nat
    requires arrivals != []
  {
    if chainHead > start then chainHead else arrivals[0].reportedHead
  }

  /** The first n arrivals stay below the recorded head, the next one, if any, reaches it. */
  predicate ReachesHeadAfter(chainHead: nat, start: nat, arrivals: seq<Arrival>, n: nat) {
    && n <= |arrivals|
    && (forall i :: 0 <= i < n ==> arrivals[i].block.id < RecordedHead(chainHead, start, arrivals))
    && (n < |arrivals| ==> arrivals[n].block.id >= RecordedHead(chainHead, start, arrivals))
  }

  lemma {:induction false} OnceSyncedAllPasses(cfg: Config, p: Pipeline, start: nat, arrivals: seq<Arrival>)
    requires p.synced
    ensures var p' := RunPipeline(cfg, p, start, arrivals);
      && p'.synced && p'.notifications == p.notifications && p'.chainHead == p.chainHead
      && p'.egress == p.egress + EventsOfBlocks(cfg, p.disk, BlocksOf(arrivals))
    decreases |arrivals|
  {
    hide StreamOne;
    hide BlockEvents;
    if arrivals != [] {
      var next := Advance(cfg, p, start, arrivals[0]);
      OnceSyncedAllPasses(cfg, next, start, arrivals[1..]);
      var blocks := BlocksOf(arrivals);
      assert blocks[1..] == BlocksOf(arrivals[1..]);
      assert EventsOfBlocks(cfg, p.disk, blocks)
          == BlockEvents(cfg, p.disk, blocks[0]) + EventsOfBlocks(cfg, next.disk, blocks[1..]);
    }
  }

  lemma {:induction false} PipelineStreams(cfg: Config, p: Pipeline, start: nat, arrivals: seq<Arrival>)
    ensures RunPipeline(cfg, p, start, arrivals).disk == Stream(cfg, p.disk, BlocksOf(arrivals))
    decreases |arrivals|
  {
    hide StreamOne;
    hide BlockEvents;
    if arrivals != [] {
      assert BlocksOf(arrivals)[1..] == BlocksOf(arrivals[1..]);
      PipelineStreams(cfg, Advance(cfg, p, start, arrivals[0]), start, arrivals[1..]);
    }
  }

  lemma FirstArrivalSyncs(cfg: Config, p: Pipeline, start: nat, arrivals: seq<Arrival>)
    requires !p.synced && arrivals != [] && arrivals[0].block.id >= HeadAfter(p, start, arrivals[0])
    ensures var p' := RunPipeline(cfg, p, start, arrivals);
      && p'.synced && p'.notifications == p.notifications + 1
      && p'.egress == p.egress + EventsOfBlocks(cfg, p.disk, BlocksOf(arrivals))
  {
    hide StreamOne;
    hide BlockEvents;
    var blocks, next := BlocksOf(arrivals), Advance(cfg, p, start, arrivals[0]);
    OnceSyncedAllPasses(cfg, next, start, arrivals[1..]);
    assert blocks[1..] == BlocksOf(arrivals[1..]);
    assert EventsOfBlocks(cfg, p.disk, blocks)
        == BlockEvents(cfg, p.disk, blocks[0]) + EventsOfBlocks(cfg, next.disk, blocks[1..]);
  }

  /**
   Whether a node is synced, how often it was announced and what was passed on, after any arrivals at or
   beyond the start block: nothing before the first block that reaches the recorded head, one announcement
   at it, and from it on every event of every block in order.
   */
  lemma {:induction false} EgressFromTheHead(cfg: Config, p: Pipeline, start: nat, arrivals: seq<Arrival>, n: nat)
    requires !p.synced && arrivals != [] && forall i :: 0 <= i < |arrivals| ==> arrivals[i].block.id >= start
    requires ReachesHeadAfter(p.chainHead, start, arrivals, n)
    ensures var p', blocks := RunPipeline(cfg, p, start, arrivals), BlocksOf(arrivals);
      && p'.synced == (n < |arrivals|)
      && p'.notifications == p.notifications + (if n < |arrivals| then 1 else 0)
      && p'.egress == p.egress + EventsOfBlocks(cfg, Stream(cfg, p.disk, blocks[..n]), blocks[n..])
    decreases |arrivals|
  {
    hide StreamOne;
    hide BlockEvents;
    var blocks := BlocksOf(arrivals);
    var next, rest := Advance(cfg, p, start, arrivals[0]), arrivals[1..];
    assert blocks[1..] == BlocksOf(rest);
    assert HeadAfter(p, start, arrivals[0]) == RecordedHead(p.chainHead, start, arrivals);
    if n == 0 {
      FirstArrivalSyncs(cfg, p, start, arrivals);
      assert blocks[..0] == [] && blocks[0..] == blocks;
    } else {
      assert blocks[..n][1..] == blocks[1..][..n - 1] && blocks[n..] == blocks[1..][n - 1..];
      assert Stream(cfg, p.disk, blocks[..n]) == Stream(cfg, next.disk, blocks[1..][..n - 1]);
      if rest == [] {
        assert blocks[n..] == [];
      } else {
        assert forall i :: 0 <= i < |rest| ==> rest[i] == arrivals[i + 1];
        EgressFromTheHead(cfg, next, start, rest, n - 1);
      }
    }
  }

  /** For any arrivals at all, also earlier ones: a synced node stays so, and is announced exactly when it becomes so. */
  lemma {:induction false} AnnouncedOnce(cfg: Config, p: Pipeline, start: nat, arrivals: seq<Arrival>)
    ensures var p' := RunPipeline(cfg, p, start, arrivals);
      && (p.synced ==> p'.synced)
      && p'.notifications == p.notifications + (if p'.synced && !p.synced then 1 else 0)
      && p.egress <= p'.egress
      && (!p'.synced ==> p'.egress == p.egress)
    decreases |arrivals|
  {
    hide StreamOne;
    hide BlockEvents;
    if arrivals != [] {
      AnnouncedOnce(cfg, Advance(cfg, p, start, arrivals[0]), start, arrivals[1..]);
    }
  }

  /** The events of a stretch of blocks are those of the one fold over the logs that were not stored before. */
  lemma {:induction false} BlocksGiveTheirEvents(cfg: Config, disk: Disk, blocks: seq<Block>)
    requires Ascending(blocks)
    ensures EventsOfBlocks(cfg, disk, blocks) == EventsOf(cfg, disk.index, AllLogs(Unstored(Raw(disk.logs), blocks)))
    decreases |blocks|
  {
    hide ApplyAll;
    hide EventsOf;
    hide SetProcessed;
    hide UpdateChecksums;
    hide Stores;
    if blocks == [] {
      NoLogsNoEvents(cfg, disk.index);
    } else {
      var next, rest := StreamOne(cfg, disk, blocks[0]), Unstored(Raw(disk.logs), blocks[1..]);
      BlocksGiveTheirEvents(cfg, next, blocks[1..]);
      forall i | 0 <= i < |blocks[1..]|
        ensures Stores(Raw(next.logs), blocks[1..][i].id) <==> Stores(Raw(disk.logs), blocks[1..][i].id)
      {
        StreamOneStores(cfg, disk, blocks[0], blocks[1..][i].id);
      }
      UnstoredAgrees(Raw(next.logs), Raw(disk.logs), blocks[1..]);
      EventsOfConcat(cfg, disk.index, blocks[0].logs, AllLogs(rest));
      assert ([blocks[0]] + rest)[1..] == rest;
      assert [] + EventsOf(cfg, disk.index, AllLogs(rest)) == EventsOf(cfg, disk.index, AllLogs(rest));
    }
  }

  lemma NoLogsNoEvents(cfg: Config, index: Index)
    ensures EventsOf(cfg, index, []) == []
  {
  }
}
