/**
 A block whose logs were applied but not yet marked as processed is applied again after a restart. The
 second application changes nothing exactly when no own channel is both opened and closed in that block;
 the Safe balance is the exception.
 */
module CrashReplay {
  import opened HoprTypes
  import opened TicketStore
  import opened Handlers
  import opened HandlerProperties
  import opened Channels
  import opened LedgerRefinement

  predicate IsClosed(e: Option<ChannelEntry>) {
    e.None? || e.value.status == Closed
  }

  // The contract opens a channel only when it is closed and does anything else only when it is not.
  predicate Legal(log: ContractLog, c: ChannelId, closed: bool) {
    About(log, c) ==> log.ChannelOpened? == closed
  }

  predicate ClosedNow(log: ContractLog, c: ChannelId, closed: bool) {
    if About(log, c) then log.ChannelClosed? else closed
  }

  /** What the contract can emit about one channel, given whether it is closed at the start. */
  predicate Admissible(logs: seq<ContractLog>, c: ChannelId, closed: bool)
    decreases |logs|
  {
    logs == [] || (Legal(logs[0], c, closed) && Admissible(logs[1..], c, ClosedNow(logs[0], c, closed)))
  }

  predicate HasOpened(logs: seq<ContractLog>, c: ChannelId) {
    exists i :: 0 <= i < |logs| && logs[i] == ChannelOpened(c)
  }

  predicate HasClosed(logs: seq<ContractLog>, c: ChannelId) {
    exists i :: 0 <= i < |logs| && logs[i] == ChannelClosed(c)
  }

  lemma HasInRest(logs: seq<ContractLog>, c: ChannelId)
    requires logs != []
    ensures HasOpened(logs, c) <==> logs[0] == ChannelOpened(c) || HasOpened(logs[1..], c)
    ensures HasClosed(logs, c) <==> logs[0] == ChannelClosed(c) || HasClosed(logs[1..], c)
  {
    assert forall i :: 0 < i < |logs| ==> logs[i] == logs[1..][i - 1];
    assert forall i :: 0 <= i < |logs| - 1 ==> logs[1..][i] == logs[i + 1];
  }

  /** Without openings and closings each field is either overwritten from any start or left alone. */
  lemma {:induction false} SettersOverwrite(me: Address, c: ChannelId, x: ChannelEntry, y: ChannelEntry, logs: seq<ContractLog>)
    requires !HasOpened(logs, c) && !HasClosed(logs, c)
    ensures var x', y' := EntryAfter(me, c, Some(x), logs), EntryAfter(me, c, Some(y), logs);
      && x'.Some? && y'.Some?
      && x'.value.epoch == x.epoch && y'.value.epoch == y.epoch
      && (x'.value.balance == y'.value.balance || (x'.value.balance == x.balance && y'.value.balance == y.balance))
      && (x'.value.ticketIndex == y'.value.ticketIndex || (x'.value.ticketIndex == x.ticketIndex && y'.value.ticketIndex == y.ticketIndex))
      && (x'.value.status == y'.value.status || (x'.value.status == x.status && y'.value.status == y.status))
      && (x.status != Closed ==> x'.value.status != Closed)
    decreases |logs|
  {
    if logs != [] {
      HasInRest(logs, c);
      var x1, y1 := Seen(me, c, Some(x), logs[0]), Seen(me, c, Some(y), logs[0]);
      SettersOverwrite(me, c, x1.value, y1.value, logs[1..]);
    }
  }

  lemma SettersAbsorbed(me: Address, c: ChannelId, x: ChannelEntry, logs: seq<ContractLog>)
    requires !HasOpened(logs, c) && !HasClosed(logs, c)
    ensures var once := EntryAfter(me, c, Some(x), logs);
      EntryAfter(me, c, once, logs) == once
  {
    SettersOverwrite(me, c, x, x, logs);
    SettersOverwrite(me, c, x, EntryAfter(me, c, Some(x), logs).value, logs);
  }

  predicate Silent(logs: seq<ContractLog>, c: ChannelId) {
    forall i :: 0 <= i < |logs| ==> !About(logs[i], c)
  }

  lemma {:induction false} ClosedWithoutOpeningIsSilent(logs: seq<ContractLog>, c: ChannelId)
    requires Admissible(logs, c, true) && !HasOpened(logs, c)
    ensures Silent(logs, c)
    decreases |logs|
  {
    if logs != [] {
      HasInRest(logs, c);
      ClosedWithoutOpeningIsSilent(logs[1..], c);
      assert forall i :: 0 < i < |logs| ==> logs[i] == logs[1..][i - 1];
    }
  }

  lemma {:induction false} OpenWithoutClosingHasNoOpening(logs: seq<ContractLog>, c: ChannelId)
    requires Admissible(logs, c, false) && !HasClosed(logs, c)
    ensures !HasOpened(logs, c)
    decreases |logs|
  {
    if logs != [] {
      HasInRest(logs, c);
      OpenWithoutClosingHasNoOpening(logs[1..], c);
    }
  }

  lemma {:induction false} SilentKeeps(me: Address, c: ChannelId, e: Option<ChannelEntry>, logs: seq<ContractLog>)
    requires Silent(logs, c)
    ensures EntryAfter(me, c, e, logs) == e
    decreases |logs|
  {
    if logs != [] {
      SilentKeeps(me, c, e, logs[1..]);
    }
  }

  /** A block that opens a channel without closing it: the second opening is refused, the rest overwrites. */
  lemma {:induction false} OpeningAbsorbed(me: Address, c: ChannelId, e: Option<ChannelEntry>, logs: seq<ContractLog>)
    requires IsClosed(e) && Admissible(logs, c, true) && !HasClosed(logs, c)
    ensures var once := EntryAfter(me, c, e, logs);
      EntryAfter(me, c, once, logs) == once
    decreases |logs|
  {
    if logs == [] {
    } else if !About(logs[0], c) {
      HasInRest(logs, c);
      OpeningAbsorbed(me, c, e, logs[1..]);
    } else {
      HasInRest(logs, c);
      var o := Seen(me, c, e, logs[0]);
      OpenWithoutClosingHasNoOpening(logs[1..], c);
      SettersOverwrite(me, c, o.value, o.value, logs[1..]);
      SettersAbsorbed(me, c, o.value, logs[1..]);
    }
  }

  /** A block that closes an own channel without opening it ends in the same closed entry from any start. */
  lemma {:induction false} ClosingErases(me: Address, c: ChannelId, x: ChannelEntry, logs: seq<ContractLog>)
    requires Own(c, me) && Admissible(logs, c, false) && !HasOpened(logs, c) && HasClosed(logs, c)
    ensures EntryAfter(me, c, Some(x), logs) == Some(ChannelEntry(0, 0, Closed, x.epoch))
    decreases |logs|
  {
    HasInRest(logs, c);
    var x1 := Seen(me, c, Some(x), logs[0]);
    if logs[0] == ChannelClosed(c) {
      ClosedWithoutOpeningIsSilent(logs[1..], c);
      SilentKeeps(me, c, x1, logs[1..]);
    } else {
      ClosingErases(me, c, x1.value, logs[1..]);
    }
  }

  /** Closing a foreign channel forgets it, so a block with a closing does not depend on what was there. */
  lemma {:induction false} ForeignClosingForgets(me: Address, c: ChannelId, d: Option<ChannelEntry>, e: Option<ChannelEntry>, logs: seq<ContractLog>)
    requires !Own(c, me) && HasClosed(logs, c)
    ensures EntryAfter(me, c, d, logs) == EntryAfter(me, c, e, logs)
    decreases |logs|
  {
    HasInRest(logs, c);
    if logs[0] != ChannelClosed(c) {
      ForeignClosingForgets(me, c, Seen(me, c, d, logs[0]), Seen(me, c, e, logs[0]), logs[1..]);
    }
  }

  lemma EntryAbsorbed(me: Address, c: ChannelId, e: Option<ChannelEntry>, logs: seq<ContractLog>)
    requires Admissible(logs, c, IsClosed(e))
    requires !(Own(c, me) && HasOpened(logs, c) && HasClosed(logs, c))
    ensures var once := EntryAfter(me, c, e, logs);
      EntryAfter(me, c, once, logs) == once
  {
    var once := EntryAfter(me, c, e, logs);
    if HasClosed(logs, c) {
      if Own(c, me) {
        if IsClosed(e) {
          ClosedWithoutOpeningIsSilent(logs, c);
        } else {
          ClosingErases(me, c, e.value, logs);
          ClosingErases(me, c, once.value, logs);
        }
      } else {
        ForeignClosingForgets(me, c, e, once, logs);
      }
    } else if IsClosed(e) {
      OpeningAbsorbed(me, c, e, logs);
    } else {
      OpenWithoutClosingHasNoOpening(logs, c);
      SettersAbsorbed(me, c, e.value, logs);
    }
  }

  lemma {:induction false} OwnEpochNeverShrinks(me: Address, c: ChannelId, x: ChannelEntry, logs: seq<ContractLog>)
    requires Own(c, me)
    ensures var x' := EntryAfter(me, c, Some(x), logs);
      x'.Some? && x'.value.epoch >= x.epoch
    decreases |logs|
  {
    if logs != [] {
      OwnEpochNeverShrinks(me, c, Seen(me, c, Some(x), logs[0]).value, logs[1..]);
    }
  }

  /** An opening that meets a closed entry raises the epoch; it does so after any closing. */
  lemma {:induction false} OpeningGrowsEpoch(me: Address, c: ChannelId, x: ChannelEntry, logs: seq<ContractLog>, closed: bool)
    requires Own(c, me) && Admissible(logs, c, closed) && HasOpened(logs, c)
    requires closed ==> x.status == Closed
    ensures var x' := EntryAfter(me, c, Some(x), logs);
      x'.Some? && x'.value.epoch > x.epoch
    decreases |logs|
  {
    HasInRest(logs, c);
    var x1 := Seen(me, c, Some(x), logs[0]);
    if About(logs[0], c) && closed {
      OwnEpochNeverShrinks(me, c, x1.value, logs[1..]);
    } else {
      OpeningGrowsEpoch(me, c, x1.value, logs[1..], ClosedNow(logs[0], c, closed));
    }
  }

  lemma {:induction false} ReopeningGrowsEpoch(me: Address, c: ChannelId, e: Option<ChannelEntry>, y: ChannelEntry, logs: seq<ContractLog>)
    requires Own(c, me) && Admissible(logs, c, true) && HasOpened(logs, c) && HasClosed(logs, c)
    requires IsClosed(e) && EntryAfter(me, c, e, logs).Some?
    requires y.status == Closed || EntryAfter(me, c, e, logs).value.status != Closed
    ensures var y' := EntryAfter(me, c, Some(y), logs);
      y'.Some? && y'.value.epoch > y.epoch
    decreases |logs|
  {
    HasInRest(logs, c);
    if y.status == Closed {
      OpeningGrowsEpoch(me, c, y, logs, true);
    } else if !About(logs[0], c) {
      ReopeningGrowsEpoch(me, c, e, y, logs[1..]);
    } else {
      var o := Seen(me, c, e, logs[0]);
      if !HasOpened(logs[1..], c) {
        ClosingErases(me, c, o.value, logs[1..]);
      }
      OpeningGrowsEpoch(me, c, y, logs[1..], false);
    }
  }

  lemma EntryNotAbsorbed(me: Address, c: ChannelId, e: Option<ChannelEntry>, logs: seq<ContractLog>)
    requires Admissible(logs, c, IsClosed(e))
    requires Own(c, me) && HasOpened(logs, c) && HasClosed(logs, c)
    ensures var once := EntryAfter(me, c, e, logs);
      var twice := EntryAfter(me, c, once, logs);
      once.Some? && twice.Some? && twice.value.epoch > once.value.epoch
  {
    var once := EntryAfter(me, c, e, logs);
    if IsClosed(e) {
      OwnOnceOpenedIsKnown(me, c, e, logs);
      ReopeningGrowsEpoch(me, c, e, once.value, logs);
    } else {
      OwnEpochNeverShrinks(me, c, e.value, logs);
      OpeningGrowsEpoch(me, c, once.value, logs, false);
    }
  }

  lemma {:induction false} OwnOnceOpenedIsKnown(me: Address, c: ChannelId, e: Option<ChannelEntry>, logs: seq<ContractLog>)
    requires Own(c, me) && HasOpened(logs, c)
    ensures EntryAfter(me, c, e, logs).Some?
    decreases |logs|
  {
    HasInRest(logs, c);
    var e1 := Seen(me, c, e, logs[0]);
    if e1.Some? {
      OwnEpochNeverShrinks(me, c, e1.value, logs[1..]);
    } else {
      OwnOnceOpenedIsKnown(me, c, e1, logs[1..]);
    }
  }

  // ---------- tickets and counters ----------

  /** No ticket is left that the log could remove. */
  ghost predicate Quiet(cfg: Config, tickets: TicketTable, log: ContractLog) {
    match log
    case ChannelOpened(id) => forall k :: k in tickets ==> k.channel != id
    case ChannelClosed(id) => Own(id, cfg.me) ==> forall k :: k in tickets ==> k.channel != id
    case TicketRedeemed(id, n) => forall k :: k in tickets && k.channel == id ==> k.index >= n
    case WinProbUpdated(o, n) => ApproxLess(o, n) ==> forall k :: k in tickets ==> tickets[k].winProb >= n
    case _ => true
  }

  lemma QuietRemovesNothing(cfg: Config, index: Index, log: ContractLog)
    requires RangesDisjoint(index.store.tickets) && Quiet(cfg, index.store.tickets, log)
    ensures Apply(cfg, index, log).store == index.store
  {
    hide Apply;
    TicketsFollow(cfg, index, log);
    assert Removed(cfg, index, log) == {};
  }

  lemma QuietAfterwards(cfg: Config, index: Index, log: ContractLog)
    requires RangesDisjoint(index.store.tickets) && Current(cfg, index)
    requires log.ChannelOpened? ==> IsClosed(EntryOf(index, log.id))
    ensures Quiet(cfg, Apply(cfg, index, log).store.tickets, log)
  {
    hide Apply;
    TicketsFollow(cfg, index, log);
  }

  ghost predicate Admitted(cfg: Config, index: Index, logs: seq<ContractLog>) {
    forall c :: Admissible(logs, c, IsClosed(EntryOf(index, c)))
  }

  lemma AdmittedRest(cfg: Config, index: Index, logs: seq<ContractLog>)
    requires logs != [] && RangesDisjoint(index.store.tickets) && Admitted(cfg, index, logs)
    ensures Admitted(cfg, Apply(cfg, index, logs[0]), logs[1..])
    ensures logs[0].ChannelOpened? ==> IsClosed(EntryOf(index, logs[0].id))
  {
    hide Apply;
    forall c ensures Admissible(logs[1..], c, IsClosed(EntryOf(Apply(cfg, index, logs[0]), c))) {
      assert Admissible(logs, c, IsClosed(EntryOf(index, c)));
      EntryFollows(cfg, index, logs[0], c);
    }
    if logs[0].ChannelOpened? {
      assert Admissible(logs, logs[0].id, IsClosed(EntryOf(index, logs[0].id)));
    }
  }

  ghost predicate AllQuiet(cfg: Config, tickets: TicketTable, logs: seq<ContractLog>) {
    forall i :: 0 <= i < |logs| ==> Quiet(cfg, tickets, logs[i])
  }

  lemma FewerTicketsStayQuiet(cfg: Config, tickets: TicketTable, fewer: TicketTable, log: ContractLog)
    requires Quiet(cfg, tickets, log)
    requires forall k :: k in fewer ==> k in tickets && fewer[k] == tickets[k]
    ensures Quiet(cfg, fewer, log)
  {
  }

  lemma {:induction false} BlockLeavesQuiet(cfg: Config, index: Index, logs: seq<ContractLog>)
    requires RangesDisjoint(index.store.tickets) && Current(cfg, index) && Admitted(cfg, index, logs)
    ensures var once := ApplyAll(cfg, index, logs);
      && (forall k :: k in once.store.tickets ==> k in index.store.tickets && once.store.tickets[k] == index.store.tickets[k])
      && AllQuiet(cfg, once.store.tickets, logs)
    decreases |logs|
  {
    hide Apply;
    hide Quiet;
    hide Current;
    hide RangesDisjoint;
    hide Admitted;
    if logs != [] {
      RangesStayDisjoint(cfg, index, logs[0]);
      var next := Apply(cfg, index, logs[0]);
      AdmittedRest(cfg, index, logs);
      QuietAfterwards(cfg, index, logs[0]);
      TicketsFollow(cfg, index, logs[0]);
      TicketsStayCurrent(cfg, index, logs[0]);
      BlockLeavesQuiet(cfg, next, logs[1..]);
      var once := ApplyAll(cfg, index, logs);
      FewerTicketsStayQuiet(cfg, next.store.tickets, once.store.tickets, logs[0]);
      forall i | 0 <= i < |logs| ensures Quiet(cfg, once.store.tickets, logs[i]) {
        if i > 0 { assert logs[i] == logs[1..][i - 1]; }
      }
    }
  }

  lemma {:induction false} QuietBlockKeepsStore(cfg: Config, index: Index, logs: seq<ContractLog>)
    requires RangesDisjoint(index.store.tickets) && AllQuiet(cfg, index.store.tickets, logs)
    ensures ApplyAll(cfg, index, logs).store == index.store
    decreases |logs|
  {
    hide Apply;
    if logs != [] {
      QuietRemovesNothing(cfg, index, logs[0]);
      QuietBlockKeepsStore(cfg, Apply(cfg, index, logs[0]), logs[1..]);
    }
  }

  /** Whatever the block does, its second application moves no ticket and no value. */
  lemma StoreAbsorbed(cfg: Config, index: Index, logs: seq<ContractLog>)
    requires RangesDisjoint(index.store.tickets) && Current(cfg, index) && Admitted(cfg, index, logs)
    ensures var once := ApplyAll(cfg, index, logs);
      ApplyAll(cfg, once, logs).store == once.store
  {
    var once := ApplyAll(cfg, index, logs);
    BlockLeavesQuiet(cfg, index, logs);
    QuietBlockKeepsStore(cfg, once, logs);
  }

  // ---------- outgoing ticket indices ----------

  function OutOf(index: Index, c: ChannelId): Option<nat> {
    if c in index.outgoing then Some(index.outgoing[c]) else None
  }

  /** The outgoing index of one channel, given the entry its log meets. */
  function NextOut(me: Address, c: ChannelId, e: Option<ChannelEntry>, o: Option<nat>, log: ContractLog): Option<nat> {
    if !About(log, c) || e.None? then o
    else
      match log
      case ChannelOpened(_) => if Own(c, me) && e.value.status == Closed then Some(0) else o
      case ChannelClosed(_) => if DirectionOf(c, me) == Some(Outgoing) then Some(0) else o
      case TicketRedeemed(_, n) =>
        if DirectionOf(c, me) == Some(Outgoing) then
          Some(if o.Some? && o.value >= n then o.value else n)
        else o
      case _ => o
  }

  function OutAfter(me: Address, c: ChannelId, e: Option<ChannelEntry>, o: Option<nat>, logs: seq<ContractLog>): Option<nat>
    decreases |logs|
  {
    if logs == [] then o
    else OutAfter(me, c, Seen(me, c, e, logs[0]), NextOut(me, c, e, o, logs[0]), logs[1..])
  }

  lemma OutFollows(cfg: Config, index: Index, log: ContractLog, c: ChannelId)
    requires RangesDisjoint(index.store.tickets)
    ensures OutOf(Apply(cfg, index, log), c) == NextOut(cfg.me, c, EntryOf(index, c), OutOf(index, c), log)
  {
    hide MarkAs;
    hide MarkKeys;
    hide Settle;
    if log.TicketRedeemed? && log.id in index.channels {
      AtMostOneMatch(index.store.tickets, log.id, index.channels[log.id], log.newTicketIndex);
    }
  }

  lemma {:induction false} OutFollowsAll(cfg: Config, index: Index, logs: seq<ContractLog>, c: ChannelId)
    requires RangesDisjoint(index.store.tickets)
    ensures OutOf(ApplyAll(cfg, index, logs), c) == OutAfter(cfg.me, c, EntryOf(index, c), OutOf(index, c), logs)
    decreases |logs|
  {
    hide Apply;
    hide NextOut;
    if logs != [] {
      OutFollows(cfg, index, logs[0], c);
      EntryFollows(cfg, index, logs[0], c);
      RangesStayDisjoint(cfg, index, logs[0]);
      OutFollowsAll(cfg, Apply(cfg, index, logs[0]), logs[1..], c);
    }
  }

  predicate RaisedBeyond(me: Address, c: ChannelId, o: Option<nat>, logs: seq<ContractLog>) {
    DirectionOf(c, me) == Some(Outgoing) ==>
      forall i :: 0 <= i < |logs| && About(logs[i], c) && logs[i].TicketRedeemed? ==>
        o.Some? && o.value >= logs[i].newTicketIndex
  }

  /** Without openings and closings the outgoing index ends at or above every redeemed index. */
  lemma {:induction false} OutEndsBeyond(me: Address, c: ChannelId, x: ChannelEntry, o: Option<nat>, logs: seq<ContractLog>)
    requires !HasOpened(logs, c) && !HasClosed(logs, c)
    ensures var o' := OutAfter(me, c, Some(x), o, logs);
      RaisedBeyond(me, c, o', logs) && (o.Some? ==> o'.Some? && o'.value >= o.value)
    decreases |logs|
  {
    if logs != [] {
      HasInRest(logs, c);
      var o1 := NextOut(me, c, Some(x), o, logs[0]);
      OutEndsBeyond(me, c, Seen(me, c, Some(x), logs[0]).value, o1, logs[1..]);
      assert forall i :: 0 < i < |logs| ==> logs[i] == logs[1..][i - 1];
    }
  }

  lemma {:induction false} OutBeyondStays(me: Address, c: ChannelId, x: ChannelEntry, o: Option<nat>, logs: seq<ContractLog>)
    requires !HasOpened(logs, c) && !HasClosed(logs, c) && RaisedBeyond(me, c, o, logs)
    ensures OutAfter(me, c, Some(x), o, logs) == o
    decreases |logs|
  {
    if logs != [] {
      HasInRest(logs, c);
      assert forall i :: 0 <= i < |logs| - 1 ==> logs[1..][i] == logs[i + 1];
      OutBeyondStays(me, c, Seen(me, c, Some(x), logs[0]).value, o, logs[1..]);
    }
  }

  lemma {:induction false} SilentKeepsOut(me: Address, c: ChannelId, e: Option<ChannelEntry>, o: Option<nat>, logs: seq<ContractLog>)
    requires Silent(logs, c)
    ensures OutAfter(me, c, e, o, logs) == o
    decreases |logs|
  {
    if logs != [] {
      SilentKeepsOut(me, c, e, o, logs[1..]);
    }
  }

  /** A block that opens a channel without closing it: the refused second opening does not reset the index. */
  lemma {:induction false} OpeningAbsorbedOut(me: Address, c: ChannelId, e: Option<ChannelEntry>, o: Option<nat>, logs: seq<ContractLog>)
    requires IsClosed(e) && Admissible(logs, c, true) && !HasClosed(logs, c)
    ensures var e', o' := EntryAfter(me, c, e, logs), OutAfter(me, c, e, o, logs);
      OutAfter(me, c, e', o', logs) == o'
    decreases |logs|
  {
    if logs == [] {
    } else if !About(logs[0], c) {
      HasInRest(logs, c);
      OpeningAbsorbedOut(me, c, e, o, logs[1..]);
    } else {
      HasInRest(logs, c);
      var e1, o1 := Seen(me, c, e, logs[0]).value, NextOut(me, c, e, o, logs[0]);
      OpenWithoutClosingHasNoOpening(logs[1..], c);
      SettersOverwrite(me, c, e1, e1, logs[1..]);
      OutEndsBeyond(me, c, e1, o1, logs[1..]);
      var e2, o2 := EntryAfter(me, c, e, logs).value, OutAfter(me, c, e, o, logs);
      OutBeyondStays(me, c, e2, o2, logs[1..]);
    }
  }

  /** A block that closes a channel without opening it ends with a reset index, or never touched it. */
  lemma {:induction false} ClosingResetsOut(me: Address, c: ChannelId, x: ChannelEntry, o: Option<nat>, logs: seq<ContractLog>)
    requires Own(c, me) && Admissible(logs, c, false) && !HasOpened(logs, c) && HasClosed(logs, c)
    ensures OutAfter(me, c, Some(x), o, logs) == if DirectionOf(c, me) == Some(Outgoing) then Some(0) else o
    decreases |logs|
  {
    HasInRest(logs, c);
    var x1, o1 := Seen(me, c, Some(x), logs[0]), NextOut(me, c, Some(x), o, logs[0]);
    if logs[0] == ChannelClosed(c) {
      ClosedWithoutOpeningIsSilent(logs[1..], c);
      SilentKeepsOut(me, c, x1, o1, logs[1..]);
    } else {
      ClosingResetsOut(me, c, x1.value, o1, logs[1..]);
    }
  }

  lemma {:induction false} ForeignOutUntouched(me: Address, c: ChannelId, e: Option<ChannelEntry>, o: Option<nat>, logs: seq<ContractLog>)
    requires !Own(c, me)
    ensures OutAfter(me, c, e, o, logs) == o
    decreases |logs|
  {
    if logs != [] {
      ForeignOutUntouched(me, c, Seen(me, c, e, logs[0]), o, logs[1..]);
    }
  }

  lemma OutAbsorbed(me: Address, c: ChannelId, e: Option<ChannelEntry>, o: Option<nat>, logs: seq<ContractLog>)
    requires Admissible(logs, c, IsClosed(e))
    requires !(Own(c, me) && HasOpened(logs, c) && HasClosed(logs, c))
    ensures var e', o' := EntryAfter(me, c, e, logs), OutAfter(me, c, e, o, logs);
      OutAfter(me, c, e', o', logs) == o'
  {
    var e', o' := EntryAfter(me, c, e, logs), OutAfter(me, c, e, o, logs);
    if !Own(c, me) {
      ForeignOutUntouched(me, c, e, o, logs);
      ForeignOutUntouched(me, c, e', o', logs);
    } else if HasClosed(logs, c) {
      if IsClosed(e) {
        ClosedWithoutOpeningIsSilent(logs, c);
      } else {
        ClosingErases(me, c, e.value, logs);
        ClosingResetsOut(me, c, e.value, o, logs);
        ClosingResetsOut(me, c, e'.value, o', logs);
      }
    } else if IsClosed(e) {
      OpeningAbsorbedOut(me, c, e, o, logs);
    } else {
      OpenWithoutClosingHasNoOpening(logs, c);
      SettersOverwrite(me, c, e.value, e.value, logs);
      OutEndsBeyond(me, c, e.value, o, logs);
      OutBeyondStays(me, c, e'.value, o', logs);
    }
  }

  // ---------- values kept once per node ----------

  lemma {:induction false} GlobalsOverwrite(cfg: Config, x: Index, y: Index, logs: seq<ContractLog>)
    ensures var x', y' := ApplyAll(cfg, x, logs), ApplyAll(cfg, y, logs);
      && (x'.safeAllowance == y'.safeAllowance || (x'.safeAllowance == x.safeAllowance && y'.safeAllowance == y.safeAllowance))
      && (x'.minWinProb == y'.minWinProb || (x'.minWinProb == x.minWinProb && y'.minWinProb == y.minWinProb))
    decreases |logs|
  {
    if logs != [] {
      ValuesFollow(cfg, x, logs[0]);
      ValuesFollow(cfg, y, logs[0]);
      hide Apply;
      GlobalsOverwrite(cfg, Apply(cfg, x, logs[0]), Apply(cfg, y, logs[0]), logs[1..]);
    }
  }

  /** Equality of two indices up to the Safe balance. */
  predicate SameButBalance(x: Index, y: Index) {
    x.(safeBalance := 0) == y.(safeBalance := 0)
  }

  predicate OpensAndCloses(me: Address, logs: seq<ContractLog>, c: ChannelId) {
    Own(c, me) && HasOpened(logs, c) && HasClosed(logs, c)
  }

  /**
   Replaying a block the contract can have produced is absorbed, up to the Safe balance, exactly when no
   own channel is both opened and closed in it.
   */
  lemma ReplayAbsorbed(cfg: Config, index: Index, logs: seq<ContractLog>)
    requires RangesDisjoint(index.store.tickets) && Current(cfg, index) && Admitted(cfg, index, logs)
    ensures var once := ApplyAll(cfg, index, logs);
      SameButBalance(ApplyAll(cfg, once, logs), once) <==> forall c :: !OpensAndCloses(cfg.me, logs, c)
  {
    hide ApplyAll;
    hide EntryAfter;
    hide OutAfter;
    hide Admissible;
    var once := ApplyAll(cfg, index, logs);
    var twice := ApplyAll(cfg, once, logs);
    forall c
      ensures EntryOf(twice, c) == EntryOf(once, c) <==> !OpensAndCloses(cfg.me, logs, c)
      ensures !OpensAndCloses(cfg.me, logs, c) ==> OutOf(twice, c) == OutOf(once, c)
    {
      ReplayOfChannel(cfg, index, logs, c);
    }
    StoreAbsorbed(cfg, index, logs);
    GlobalsOverwrite(cfg, index, once, logs);
    if forall c :: !OpensAndCloses(cfg.me, logs, c) {
      SameByLookup(twice, once);
    }
  }

  lemma ReplayOfChannel(cfg: Config, index: Index, logs: seq<ContractLog>, c: ChannelId)
    requires RangesDisjoint(index.store.tickets) && Admitted(cfg, index, logs)
    ensures var once := ApplyAll(cfg, index, logs);
      var twice := ApplyAll(cfg, once, logs);
      && (EntryOf(twice, c) == EntryOf(once, c) <==> !OpensAndCloses(cfg.me, logs, c))
      && (!OpensAndCloses(cfg.me, logs, c) ==> OutOf(twice, c) == OutOf(once, c))
  {
    hide ApplyAll;
    hide EntryAfter;
    hide OutAfter;
    var once := ApplyAll(cfg, index, logs);
    var e, o := EntryOf(index, c), OutOf(index, c);
    assert Admissible(logs, c, IsClosed(e));
    EntryFollowsAll(cfg, index, logs, c);
    EntryFollowsAll(cfg, once, logs, c);
    OutFollowsAll(cfg, index, logs, c);
    OutFollowsAll(cfg, once, logs, c);
    if OpensAndCloses(cfg.me, logs, c) {
      EntryNotAbsorbed(cfg.me, c, e, logs);
    } else {
      EntryAbsorbed(cfg.me, c, e, logs);
      OutAbsorbed(cfg.me, c, e, o, logs);
    }
  }

  lemma SameByLookup(x: Index, y: Index)
    requires forall c :: EntryOf(x, c) == EntryOf(y, c) && OutOf(x, c) == OutOf(y, c)
    requires x.store == y.store && x.safeAllowance == y.safeAllowance && x.minWinProb == y.minWinProb
    ensures SameButBalance(x, y)
  {
    assert forall c :: c in x.channels <==> EntryOf(x, c).Some?;
    assert forall c :: c in y.channels <==> EntryOf(y, c).Some?;
    assert forall c :: c in x.outgoing <==> OutOf(x, c).Some?;
    assert forall c :: c in y.outgoing <==> OutOf(y, c).Some?;
    assert x.channels == y.channels;
    assert x.outgoing == y.outgoing;
  }

  // ---------- blocks of contract transactions ----------

  predicate ClosedAfter(logs: seq<ContractLog>, c: ChannelId, closed: bool)
    decreases |logs|
  {
    if logs == [] then closed
    else ClosedAfter(logs[1..], c, ClosedNow(logs[0], c, closed))
  }

  lemma {:induction false} AdmissibleConcat(a: seq<ContractLog>, b: seq<ContractLog>, c: ChannelId, closed: bool)
    requires Admissible(a, c, closed) && Admissible(b, c, ClosedAfter(a, c, closed))
    ensures Admissible(a + b, c, closed)
    decreases |a|
  {
    if a == [] {
      assert a + b == b;
    } else {
      assert (a + b)[1..] == a[1..] + b;
      AdmissibleConcat(a[1..], b, c, ClosedNow(a[0], c, closed));
    }
  }

  lemma FewLogsAdmissible(c: ChannelId, closed: bool, l0: ContractLog, l1: ContractLog, l2: ContractLog)
    ensures var closed1 := ClosedNow(l0, c, closed);
      var closed2 := ClosedNow(l1, c, closed1);
      && ClosedAfter([l0], c, closed) == closed1
      && ClosedAfter([l0, l1], c, closed) == closed2
      && ClosedAfter([l0, l1] + [l2], c, closed) == ClosedNow(l2, c, closed2)
      && (Legal(l0, c, closed) ==> Admissible([l0], c, closed))
      && (Legal(l0, c, closed) && Legal(l1, c, closed1) ==> Admissible([l0, l1], c, closed))
      && (Legal(l0, c, closed) && Legal(l1, c, closed1) && Legal(l2, c, closed2) ==> Admissible([l0, l1] + [l2], c, closed))
  {
    hide Legal;
    hide ClosedNow;
    assert [l0, l1][1..] == [l1] && ([l0, l1] + [l2])[1..] == [l1, l2] && [l1, l2][1..] == [l2];
    var closed1 := ClosedNow(l0, c, closed);
    var closed2 := ClosedNow(l1, c, closed1);
    assert Admissible([l2], c, closed2) == Legal(l2, c, closed2);
    assert ClosedAfter([l2], c, closed2) == ClosedNow(l2, c, closed2);
    assert ClosedAfter([l1], c, closed1) == closed2;
    assert ClosedAfter([l1, l2], c, closed1) == ClosedAfter([l2], c, closed2);
    assert Admissible([l1], c, closed1) == Legal(l1, c, closed1);
    assert Admissible([l1, l2], c, closed1) == (Legal(l1, c, closed1) && Admissible([l2], c, closed2));
  }

  lemma RedeemAdmissible(contract: Contract, call: Call, c: ChannelId)
    requires Sound(contract) && call.RedeemTicket? && Execute(contract, call).Mined?
    ensures var closed, receipt := Get(contract, c).status == CLOSED, Execute(contract, call);
      && Admissible(receipt.logs, c, closed)
      && ClosedAfter(receipt.logs, c, closed) == (Get(receipt.contract, c).status == CLOSED)
  {
    hide Admissible;
    hide ClosedAfter;
    var closed, logs := Get(contract, c).status == CLOSED, Execute(contract, call).logs;
    FewLogsAdmissible(c, closed, logs[0], logs[1], if |logs| > 2 then logs[2] else logs[0]);
  }

  lemma StepAdmissible(contract: Contract, step: ChainStep, c: ChannelId)
    requires Sound(contract)
    ensures var closed, logs := Get(contract, c).status == CLOSED, LogsOfStep(contract, step);
      Admissible(logs, c, closed) && ClosedAfter(logs, c, closed) == (Get(ContractAfter(contract, step), c).status == CLOSED)
  {
    hide Admissible;
    hide ClosedAfter;
    hide Redeem;
    var closed, logs := Get(contract, c).status == CLOSED, LogsOfStep(contract, step);
    if step.Transaction? && step.call.RedeemTicket? && Execute(contract, step.call).Mined? {
      RedeemAdmissible(contract, step.call, c);
    } else if logs == [] {
      NoLogsAdmissible(c, closed);
    } else {
      var first := logs[0];
      FewLogsAdmissible(c, closed, first, if |logs| > 1 then logs[1] else first, first);
    }
  }

  lemma NoLogsAdmissible(c: ChannelId, closed: bool)
    ensures Admissible([], c, closed) && ClosedAfter([], c, closed) == closed
  {
  }

  lemma {:induction false} RunAdmissible(contract: Contract, steps: seq<ChainStep>, c: ChannelId)
    requires Sound(contract)
    ensures Admissible(LogsOf(contract, steps), c, Get(contract, c).status == CLOSED)
    decreases |steps|
  {
    hide Execute;
    hide Sound;
    hide LogsOfStep;
    if steps != [] {
      var next := ContractAfter(contract, steps[0]);
      if steps[0].Transaction? && Execute(contract, steps[0].call).Mined? {
        ExecuteStaysSound(contract, steps[0].call);
      }
      StepAdmissible(contract, steps[0], c);
      RunAdmissible(next, steps[1..], c);
      AdmissibleConcat(LogsOfStep(contract, steps[0]), LogsOf(next, steps[1..]), c, Get(contract, c).status == CLOSED);
    }
  }

  /**
   The block a run of the contract produces, applied again to an index that agreed with the contract before
   it, is absorbed up to the Safe balance exactly when it does not both open and close an own channel.
   */
  lemma ContractBlockReplay(cfg: Config, contract: Contract, index: Index, steps: seq<ChainStep>)
    requires Sound(contract) && Agrees(cfg, contract, index)
    requires RangesDisjoint(index.store.tickets) && Current(cfg, index)
    ensures var logs := LogsOf(contract, steps);
      var once := ApplyAll(cfg, index, logs);
      && (SameButBalance(ApplyAll(cfg, once, logs), once) <==> forall c :: !OpensAndCloses(cfg.me, logs, c))
      && Agrees(cfg, RunContract(contract, steps), once)
  {
    hide ApplyAll;
    hide Admissible;
    hide LogsOf;
    hide RunContract;
    hide RangesDisjoint;
    hide Current;
    var logs := LogsOf(contract, steps);
    forall c ensures Admissible(logs, c, IsClosed(EntryOf(index, c))) {
      RunAdmissible(contract, steps, c);
      assert EntryOf(index, c) == Expected(cfg.me, c, Get(contract, c));
    }
    ReplayAbsorbed(cfg, index, logs);
    RunAgrees(cfg, contract, index, steps);
  }
}
