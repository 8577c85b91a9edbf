/**
 An index that starts from nothing behind the early logs, against one that folds them all. The two end alike
 exactly if, part by part, the later logs make up for the earlier ones.
 */
module LateStart {
  import opened HoprTypes
  import opened TicketStore
  import opened Handlers
  import opened HandlerProperties
  import opened LedgerRefinement
  import opened CrashReplay
  import opened OutgoingIndices
  import opened ChannelHistories
  import opened SafeBalance

  /** Equality of two indices, reading an outgoing index without a row as zero. */
  ghost predicate SameIndex(x: Index, y: Index) {
    SameButOutgoing(x, y) && forall c :: OutgoingIndex(x.outgoing, c) == OutgoingIndex(y.outgoing, c)
  }

  /** Tickets are on channels towards this node. */
  ghost predicate TicketsIncoming(cfg: Config, tickets: TicketTable) {
    forall k :: k in tickets ==> DirectionOf(k.channel, cfg.me) == Some(Incoming)
  }

  // ---------- the store ----------

  ghost predicate OwnUnknown(cfg: Config, index: Index) {
    forall c :: c in index.channels ==> !Own(c, cfg.me)
  }

  lemma UnknownLogKeepsStore(cfg: Config, index: Index, log: ContractLog)
    requires RangesDisjoint(index.store.tickets) && TicketsIncoming(cfg, index.store.tickets)
    requires OwnUnknown(cfg, index) && (log.ChannelOpened? ==> !Own(log.id, cfg.me))
    ensures var after := Apply(cfg, index, log);
      after.store == index.store && OwnUnknown(cfg, after) && forall c :: OutOf(after, c) == OutOf(index, c)
  {
    hide Apply;
    var after := Apply(cfg, index, log);
    assert Removed(cfg, index, log) == {};
    TicketsFollow(cfg, index, log);
    forall c ensures c in after.channels ==> !Own(c, cfg.me) {
      EntryFollows(cfg, index, log, c);
    }
    forall c ensures OutOf(after, c) == OutOf(index, c) {
      OutFollows(cfg, index, log, c);
    }
  }

  /** Logs that open no own channel leave the store and the outgoing indices of a node that knows none. */
  lemma {:induction false} UnknownLogsKeepStore(cfg: Config, index: Index, logs: seq<ContractLog>)
    requires RangesDisjoint(index.store.tickets) && TicketsIncoming(cfg, index.store.tickets)
    requires OwnUnknown(cfg, index) && forall c :: Own(c, cfg.me) ==> !HasOpened(logs, c)
    ensures var after := ApplyAll(cfg, index, logs);
      after.store == index.store && OwnUnknown(cfg, after) && forall c :: OutOf(after, c) == OutOf(index, c)
    decreases |logs|
  {
    hide Apply;
    hide RangesDisjoint;
    hide TicketsIncoming;
    hide OwnUnknown;
    if logs != [] {
      forall c | Own(c, cfg.me) ensures !HasOpened(logs[1..], c) && logs[0] != ChannelOpened(c) {
        HasInRest(logs, c);
      }
      UnknownLogKeepsStore(cfg, index, logs[0]);
      UnknownLogsKeepStore(cfg, Apply(cfg, index, logs[0]), logs[1..]);
    }
  }

  ghost predicate Twins(cfg: Config, x: Index, y: Index) {
    && x.store == y.store
    && forall c :: Own(c, cfg.me) ==> EntryOf(x, c) == EntryOf(y, c)
  }

  lemma TwinsRemoveTheSame(cfg: Config, x: Index, y: Index, log: ContractLog)
    requires Twins(cfg, x, y) && TicketsIncoming(cfg, x.store.tickets)
    ensures Removed(cfg, x, log) == Removed(cfg, y, log) && Redeems(cfg, x, log) == Redeems(cfg, y, log)
  {
    forall c | Own(c, cfg.me)
      ensures c in x.channels <==> c in y.channels
      ensures c in x.channels ==> x.channels[c] == y.channels[c]
    {
      assert EntryOf(x, c) == EntryOf(y, c);
    }
    assert forall k :: k in x.store.tickets ==> Own(k.channel, cfg.me);
    hide EntryOf;
  }

  lemma TwinsStep(cfg: Config, x: Index, y: Index, log: ContractLog)
    requires Twins(cfg, x, y) && TicketsIncoming(cfg, x.store.tickets) && RangesDisjoint(x.store.tickets)
    ensures var x', y' := Apply(cfg, x, log), Apply(cfg, y, log);
      Twins(cfg, x', y') && TicketsIncoming(cfg, x'.store.tickets) && RangesDisjoint(x'.store.tickets)
  {
    hide Apply;
    hide Removed;
    hide Redeems;
    hide MarkKeys;
    hide RangesDisjoint;
    TwinsRemoveTheSame(cfg, x, y, log);
    StoreFollows(cfg, x, log);
    StoreFollows(cfg, y, log);
    TicketsFollow(cfg, x, log);
    RangesStayDisjoint(cfg, x, log);
    forall c | Own(c, cfg.me) ensures EntryOf(Apply(cfg, x, log), c) == EntryOf(Apply(cfg, y, log), c) {
      EntryFollows(cfg, x, log, c);
      EntryFollows(cfg, y, log, c);
    }
  }

  /** What happens to tickets depends on own channels alone. */
  lemma {:induction false} TwinsStay(cfg: Config, x: Index, y: Index, logs: seq<ContractLog>)
    requires Twins(cfg, x, y) && TicketsIncoming(cfg, x.store.tickets) && RangesDisjoint(x.store.tickets)
    ensures Twins(cfg, ApplyAll(cfg, x, logs), ApplyAll(cfg, y, logs))
    decreases |logs|
  {
    hide Apply;
    hide RangesDisjoint;
    hide TicketsIncoming;
    hide Twins;
    if logs != [] {
      TwinsStep(cfg, x, y, logs[0]);
      TwinsStay(cfg, Apply(cfg, x, logs[0]), Apply(cfg, y, logs[0]), logs[1..]);
    }
  }

  // ---------- values kept once per node ----------

  lemma {:induction false} LastValuesConcat(cfg: Config, a: seq<ContractLog>, b: seq<ContractLog>)
    ensures LastApproval(cfg, a + b) == if LastApproval(cfg, b).Some? then LastApproval(cfg, b) else LastApproval(cfg, a)
    ensures LastWinProb(a + b) == if LastWinProb(b).Some? then LastWinProb(b) else LastWinProb(a)
    decreases |b|
  {
    if b == [] {
      assert a + b == a;
    } else {
      assert (a + b)[..|a + b| - 1] == a + b[..|b| - 1];
      LastValuesConcat(cfg, a, b[..|b| - 1]);
    }
  }

  /** The value is set later, or was never set to another than the initial one. */
  predicate ValueIsHarmless(early: Option<nat>, later: Option<nat>, initial: nat) {
    later.Some? || early.None? || early.value == initial
  }

  /** Both balances are moved to the same: they are equal, or held by the same bound. */
  predicate BalanceIsHarmless(safe: Address, balance: nat, early: seq<ContractLog>, later: seq<ContractLog>) {
    var floor, ceiling := Folded(safe, 0, later), Folded(safe, MAX_U256, later);
    var late, full := balance + Net(later, safe), Folded(safe, balance, early) + Net(later, safe);
    late == full || (late <= floor && full <= floor) || (late >= ceiling && full >= ceiling) || floor == ceiling
  }

  lemma {:induction false} FoldedStaysWithin(safe: Address, balance: nat, logs: seq<ContractLog>)
    requires balance <= MAX_U256
    ensures Folded(safe, balance, logs) <= MAX_U256
    decreases |logs|
  {
    if logs != [] {
      FoldedStaysWithin(safe, Moved(safe, balance, logs[0]), logs[1..]);
    }
  }

  lemma BalanceExactly(safe: Address, balance: nat, early: seq<ContractLog>, later: seq<ContractLog>)
    requires balance <= MAX_U256
    ensures Folded(safe, balance, later) == Folded(safe, Folded(safe, balance, early), later)
       <==> BalanceIsHarmless(safe, balance, early, later)
  {
    FoldedStaysWithin(safe, balance, early);
    var full := Folded(safe, balance, early);
    ClampFolds(safe, balance, 0, MAX_U256, later);
    ClampFolds(safe, full, 0, MAX_U256, later);
    hide Folded;
    hide Net;
    assert Clamp(balance, 0, MAX_U256) == balance && Clamp(full, 0, MAX_U256) == full;
  }

  // ---------- the whole index ----------

  /** A start behind the early logs, with the tickets as some of them left them and outgoing indices from disk. */
  ghost function Late(cfg: Config, start: Index, persisted: map<ChannelId, nat>, seen: seq<ContractLog>): Index {
    Reloaded(start.(store := ApplyAll(cfg, start, seen).store), persisted)
  }

  ghost predicate LateIsHarmless(
    cfg: Config, start: Index, persisted: map<ChannelId, nat>, early: seq<ContractLog>, later: seq<ContractLog>)
  {
    && (forall c :: LateStartIsHarmless(cfg.me, c, early, later))
    && ValueIsHarmless(LastApproval(cfg, early), LastApproval(cfg, later), start.safeAllowance)
    && ValueIsHarmless(LastWinProb(early), LastWinProb(later), start.minWinProb)
    && BalanceIsHarmless(cfg.safe, start.safeBalance, early, later)
    && (forall c :: Recovers(FormAfter(cfg.me, c, None, later), OutgoingIndex(persisted, c), OutgoingIndex(start.outgoing, c)))
  }

  ghost predicate LateSetting(cfg: Config, start: Index, early: seq<ContractLog>, later: seq<ContractLog>) {
    && start.channels == map[] && start.safeBalance <= MAX_U256
    && RangesDisjoint(start.store.tickets) && TicketsIncoming(cfg, start.store.tickets)
    && forall c :: Admissible(early + later, c, true)
  }

  lemma LateValuesExactly(cfg: Config, start: Index, late: Index, early: seq<ContractLog>, later: seq<ContractLog>)
    requires late.safeAllowance == start.safeAllowance && late.minWinProb == start.minWinProb
    requires late.safeBalance == start.safeBalance <= MAX_U256
    ensures var x, y := ApplyAll(cfg, late, later), ApplyAll(cfg, start, early + later);
      && (x.safeAllowance == y.safeAllowance <==> ValueIsHarmless(LastApproval(cfg, early), LastApproval(cfg, later), start.safeAllowance))
      && (x.minWinProb == y.minWinProb <==> ValueIsHarmless(LastWinProb(early), LastWinProb(later), start.minWinProb))
      && (x.safeBalance == y.safeBalance <==> BalanceIsHarmless(cfg.safe, start.safeBalance, early, later))
  {
    hide ApplyAll;
    hide BalanceIsHarmless;
    LastValuesStand(cfg, late, later);
    LastValuesStand(cfg, start, early + later);
    LastValuesConcat(cfg, early, later);
    ApplyAllConcat(cfg, start, early, later);
    BalanceIsFolded(cfg, late, later);
    BalanceIsFolded(cfg, start, early);
    BalanceIsFolded(cfg, ApplyAll(cfg, start, early), later);
    BalanceExactly(cfg.safe, start.safeBalance, early, later);
  }

  lemma LateChannelsExactly(cfg: Config, start: Index, late: Index, early: seq<ContractLog>, later: seq<ContractLog>)
    requires start.channels == map[] && late.channels == map[]
    requires RangesDisjoint(start.store.tickets) && RangesDisjoint(late.store.tickets)
    requires forall c :: Admissible(early + later, c, true)
    ensures ApplyAll(cfg, late, later).channels == ApplyAll(cfg, start, early + later).channels
       <==> forall c :: LateStartIsHarmless(cfg.me, c, early, later)
  {
    hide ApplyAll;
    hide EntryAfter;
    hide LateStartIsHarmless;
    hide Admissible;
    var x, y := ApplyAll(cfg, late, later), ApplyAll(cfg, start, early + later);
    forall c ensures EntryOf(x, c) == EntryOf(y, c) <==> LateStartIsHarmless(cfg.me, c, early, later) {
      EntryFollowsAll(cfg, late, later, c);
      EntryFollowsAll(cfg, start, early + later, c);
      LateStartExactly(cfg.me, c, early, later);
    }
    SameEntriesSameTable(x, y);
  }

  lemma SameEntriesSameTable(x: Index, y: Index)
    ensures x.channels == y.channels <==> forall c :: EntryOf(x, c) == EntryOf(y, c)
  {
    if forall c :: EntryOf(x, c) == EntryOf(y, c) {
      assert forall c :: c in x.channels <==> EntryOf(x, c).Some?;
      assert forall c :: c in y.channels <==> EntryOf(y, c).Some?;
      assert x.channels == y.channels;
    }
  }

  /** If no own channel was opened early, tickets come out the same, and outgoing indices by what was on disk. */
  lemma LateStoreAndOutgoing(
    cfg: Config, start: Index, persisted: map<ChannelId, nat>, early: seq<ContractLog>, seen: nat, later: seq<ContractLog>, c: ChannelId)
    requires LateSetting(cfg, start, early, later) && seen <= |early|
    requires forall c :: Own(c, cfg.me) ==> !HasOpened(early, c)
    ensures var x, y := ApplyAll(cfg, Late(cfg, start, persisted, early[..seen]), later), ApplyAll(cfg, start, early + later);
      && x.store == y.store
      && (OutgoingIndex(x.outgoing, c) == OutgoingIndex(y.outgoing, c) <==>
            Recovers(FormAfter(cfg.me, c, None, later), OutgoingIndex(persisted, c), OutgoingIndex(start.outgoing, c)))
  {
    hide ApplyAll;
    hide Admissible;
    hide EntryAfter;
    hide OutAfter;
    hide FormAfter;
    hide Recovers;
    forall d | Own(d, cfg.me) ensures !HasOpened(early[..seen], d) {
      assert forall i :: 0 <= i < seen ==> early[..seen][i] == early[i];
    }
    UnknownLogsKeepStore(cfg, start, early[..seen]);
    UnknownLogsKeepStore(cfg, start, early);
    var late, base := Late(cfg, start, persisted, early[..seen]), ApplyAll(cfg, start, early);
    assert late == Reloaded(start, persisted);
    forall d | Own(d, cfg.me) ensures EntryOf(late, d) == EntryOf(base, d) {
      assert d !in base.channels;
    }
    TwinsStay(cfg, late, base, later);
    ApplyAllConcat(cfg, start, early, later);
    ReloadExactly(cfg, start, persisted, later);
    OutFollowsAll(cfg, start, later, c);
    OutFollowsAll(cfg, base, later, c);
    if Own(c, cfg.me) {
      assert EntryOf(base, c) == None && EntryOf(start, c) == None;
    } else {
      ForeignOutUntouched(cfg.me, c, EntryOf(start, c), OutOf(start, c), later);
      ForeignOutUntouched(cfg.me, c, EntryOf(base, c), OutOf(base, c), later);
    }
  }

  lemma LateIsDisjoint(cfg: Config, start: Index, persisted: map<ChannelId, nat>, seen: seq<ContractLog>)
    requires RangesDisjoint(start.store.tickets)
    ensures RangesDisjoint(Late(cfg, start, persisted, seen).store.tickets)
  {
    EntryFollowsAll(cfg, start, seen, ChannelId(0, 0));
  }

  /** The late start ends with the whole index as the fold has it exactly if it is harmless part by part. */
  lemma LateIndexExactly(
    cfg: Config, start: Index, persisted: map<ChannelId, nat>, early: seq<ContractLog>, seen: nat, later: seq<ContractLog>)
    requires LateSetting(cfg, start, early, later) && seen <= |early|
    ensures SameIndex(ApplyAll(cfg, Late(cfg, start, persisted, early[..seen]), later), ApplyAll(cfg, start, early + later))
       <==> LateIsHarmless(cfg, start, persisted, early, later)
  {
    hide ApplyAll;
    hide ValueIsHarmless;
    hide BalanceIsHarmless;
    hide Recovers;
    hide FormAfter;
    hide Admissible;
    LateIsDisjoint(cfg, start, persisted, early[..seen]);
    var late := Late(cfg, start, persisted, early[..seen]);
    var x, y := ApplyAll(cfg, late, later), ApplyAll(cfg, start, early + later);
    LateValuesExactly(cfg, start, late, early, later);
    LateChannelsExactly(cfg, start, late, early, later);
    if forall c :: LateStartIsHarmless(cfg.me, c, early, later) {
      forall c | Own(c, cfg.me) ensures !HasOpened(early, c) {
        assert LateStartIsHarmless(cfg.me, c, early, later);
      }
      forall c ensures x.store == y.store
        && (OutgoingIndex(x.outgoing, c) == OutgoingIndex(y.outgoing, c) <==>
              Recovers(FormAfter(cfg.me, c, None, later), OutgoingIndex(persisted, c), OutgoingIndex(start.outgoing, c)))
      {
        LateStoreAndOutgoing(cfg, start, persisted, early, seen, later, c);
      }
      assert x.store == y.store by { LateStoreAndOutgoing(cfg, start, persisted, early, seen, later, ChannelId(0, 0)); }
    }
  }
}
