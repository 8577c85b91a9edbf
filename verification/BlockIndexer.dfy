/** The indexer as it works: one object that processes blocks in place, from the database and from the stream. */
module BlockIndexer {
  import opened HoprTypes
  import opened TicketStore
  import opened Handlers
  import opened EventHandlers
  import opened LogStorage
  import opened SyncLatch
  import opened OutgoingIndices
  import Spec = Indexer

  class ChainIndexer {
    const handlers: ContractEventHandlers
    var persisted: map<ChannelId, nat>     // the outgoing ticket indices on disk
    var logs: seq<StoredBlock>
    var isSynced: bool
    var chainHead: nat
    var notifications: nat
    var egress: seq<ChainEvent>

    constructor (handlers: ContractEventHandlers, persisted: map<ChannelId, nat>, logs: seq<StoredBlock>, chainHead: nat)
      ensures this.handlers == handlers
      ensures State() == Pipeline(Spec.Disk(handlers.State(), persisted, logs), false, chainHead, 0, [])
    {
      this.handlers, this.persisted, this.logs := handlers, persisted, logs;
      isSynced, this.chainHead, notifications, egress := false, chainHead, 0, [];
    }

    function OnDisk(): Spec.Disk
      reads this, handlers
    {
      Spec.Disk(handlers.State(), persisted, logs)
    }

    function State(): Pipeline
      reads this, handlers
    {
      Pipeline(OnDisk(), isSynced, chainHead, notifications, egress)
    }

    /** Three commits one after the other: the index, the processed flags, the checksums. */
    method ProcessBlock(block: Block) returns (events: seq<ChainEvent>)
      modifies this`logs, handlers
      ensures OnDisk() == Spec.ProcessBlock(handlers.cfg, old(OnDisk()), block)
      ensures events == EventsOf(handlers.cfg, old(handlers.State()), block.logs)
    {
      hide ApplyAll;
      hide EventsOf;
      events := handlers.CollectBlockEvents(block.logs);
      logs := SetProcessed(logs, block.id);
      logs := UpdateChecksums(logs);
    }

    method ProcessBlockById(id: nat)
      modifies this`logs, handlers
      ensures OnDisk() == Spec.ProcessBlock(handlers.cfg, old(OnDisk()), Block(id, LogsAt(Raw(old(logs)), id)))
    {
      var _ := ProcessBlock(Block(id, LogsAt(Raw(logs), id)));
    }

    method FastSync(ids: seq<nat>)
      modifies this`logs, handlers
      ensures OnDisk() == Spec.FastSync(handlers.cfg, old(OnDisk()), ids)
    {
      hide Spec.ProcessBlock;
      assert ids[0..] == ids;
      for i := 0 to |ids|
        invariant Spec.FastSync(handlers.cfg, OnDisk(), ids[i..]) == Spec.FastSync(handlers.cfg, old(OnDisk()), ids)
      {
        assert ids[i..][1..] == ids[i + 1..];
        ProcessBlockById(ids[i]);
      }
    }

    /** Runs now and then beside everything else and writes the indices that have grown, one row after the other. */
    method PersistOutgoingTicketIndices()
      modifies this`persisted
      ensures persisted == Flush(old(persisted), handlers.outgoing)
    {
      var rest := persisted.Keys + handlers.outgoing.Keys;
      ghost var all, before := rest, persisted;
      while rest != {}
        invariant rest <= all && persisted.Keys <= all && before.Keys <= persisted.Keys
        invariant all - rest <= persisted.Keys
        invariant forall c :: c in all - rest ==> persisted[c] == Flush(before, handlers.outgoing)[c]
        invariant forall c :: c in rest ==> OutgoingIndex(persisted, c) == OutgoingIndex(before, c)
        decreases rest
      {
        var c :| c in rest;
        rest := rest - {c};
        var cached, stored := OutgoingIndex(handlers.outgoing, c), OutgoingIndex(persisted, c);
        persisted := persisted[c := if cached > stored then cached else stored];
      }
      assert persisted == Flush(before, handlers.outgoing);
    }

    method CalculateSyncProcess(block: nat, start: nat, reportedHead: nat)
      modifies this`isSynced, this`chainHead, this`notifications
      ensures var a := Arrival(Block(block, []), reportedHead);
        && isSynced == SyncedAfter(old(State()), start, a)
        && chainHead == HeadAfter(old(State()), start, a)
        && notifications == old(notifications) + if isSynced && !old(isSynced) then 1 else 0
    {
      var head := chainHead;
      if !isSynced {
        var difference := SatSub(head, start);
        if difference == 0 {
          chainHead := reportedHead;
          head := reportedHead;
        }
        if block >= head {
          isSynced := true;
          notifications := notifications + 1;
        }
      }
    }

    /** Stores a block's logs unless one of them is stored already, in which case the block goes no further. */
    method StoreLogs(block: Block) returns (stored: bool)
      modifies this`logs
      ensures stored == !Spec.IsDropped(old(OnDisk()), block)
      ensures OnDisk() == if stored then Spec.StoreBlock(old(OnDisk()), block) else old(OnDisk())
    {
      stored := block.logs == [] || !Stores(Raw(logs), block.id);
      if stored && block.logs != [] {
        logs := Insert(logs, block);
      }
    }

    method HandleArrival(a: Arrival, start: nat)
      modifies this, handlers
      ensures State() == Advance(handlers.cfg, old(State()), start, a)
    {
      hide ApplyAll;
      hide EventsOf;
      hide Spec.ProcessBlock;
      CalculateSyncProcess(a.block.id, start, a.reportedHead);
      var stored := StoreLogs(a.block);
      if stored {
        var events := ProcessBlock(a.block);
        ghost var p := State();
        for i := 0 to |events|
          invariant State() == p.(egress := p.egress + if p.synced then events[..i] else [])
        {
          if isSynced {
            assert events[..i + 1] == events[..i] + [events[i]];
            egress := egress + [events[i]];
          }
        }
        assert events[..|events|] == events;
      }
      assert old(egress) + [] == old(egress);
    }

    method RunStream(arrivals: seq<Arrival>, start: nat)
      modifies this, handlers
      ensures State() == RunPipeline(handlers.cfg, old(State()), start, arrivals)
    {
      hide Advance;
      assert arrivals[0..] == arrivals;
      for i := 0 to |arrivals|
        invariant RunPipeline(handlers.cfg, State(), start, arrivals[i..])
               == RunPipeline(handlers.cfg, old(State()), start, arrivals)
      {
        assert arrivals[i..][1..] == arrivals[i + 1..];
        HandleArrival(arrivals[i], start);
      }
    }

    /**
     Loads outgoing indices from the disk, clears or keeps the index as the mode says, replays stored blocks, and
     follows the chain from the resume point.
     */
    method Start(icfg: Spec.IndexerConfig, indexIsEmpty: bool, chain: seq<Block>, reportedHead: nat -> nat)
      modifies this, handlers
      ensures OnDisk() == Spec.Start(handlers.cfg, icfg, old(OnDisk()), indexIsEmpty, chain)
    {
      hide Spec.FastSync;
      hide Spec.Stream;
      handlers.outgoing := persisted;
      if indexIsEmpty {
        handlers.channels := map[];
        handlers.safeBalance, handlers.safeAllowance := 0, 0;
        handlers.minWinProb := icfg.initialWinProb;
        logs := SetUnprocessed(logs);
      }
      assert OnDisk() == Spec.Prepared(icfg, old(OnDisk()), indexIsEmpty);
      NothingToSync(handlers.cfg, OnDisk());
      if icfg.fastSync {
        var ids := if indexIsEmpty then AllIds(logs) else UnprocessedIds(logs);
        FastSync(ids);
      }
      var next := Spec.ResumePoint(icfg, logs);
      var blocks := From(chain, next);
      var arrivals := seq(|blocks|, i requires 0 <= i < |blocks| => Arrival(blocks[i], reportedHead(blocks[i].id)));
      assert BlocksOf(arrivals) == blocks;
      PipelineStreams(handlers.cfg, State(), next, arrivals);
      RunStream(arrivals, next);
    }
  }

  lemma NothingToSync(cfg: Config, disk: Spec.Disk)
    ensures Spec.FastSync(cfg, disk, []) == disk
  {
  }
}
