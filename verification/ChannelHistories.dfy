/** When two histories of one channel that differ in what was missed end in the same entry. */
module ChannelHistories {
  import opened HoprTypes
  import opened Handlers
  import opened HandlerProperties
  import opened LedgerRefinement
  import opened CrashReplay
  import opened OutgoingIndices

  lemma {:induction false} AdmissibleSplits(a: seq<ContractLog>, b: seq<ContractLog>, c: ChannelId, closed: bool)
    requires Admissible(a + b, c, closed)
    ensures Admissible(a, c, closed) && Admissible(b, c, ClosedAfter(a, c, closed))
    decreases |a|
  {
    if a == [] {
      assert a + b == b;
    } else {
      assert (a + b)[1..] == a[1..] + b;
      AdmissibleSplits(a[1..], b, c, ClosedNow(a[0], c, closed));
    }
  }

  /** Over an admissible history the entry is closed or missing exactly while the channel is closed. */
  lemma {:induction false} TracksClosed(me: Address, c: ChannelId, e: Option<ChannelEntry>, logs: seq<ContractLog>)
    requires Admissible(logs, c, IsClosed(e))
    ensures IsClosed(EntryAfter(me, c, e, logs)) == ClosedAfter(logs, c, IsClosed(e))
    decreases |logs|
  {
    if logs != [] {
      TracksClosed(me, c, Seen(me, c, e, logs[0]), logs[1..]);
    }
  }

  /** The entry of a foreign channel never shows it as closed. */
  lemma {:induction false} ForeignNeverClosed(me: Address, c: ChannelId, e: Option<ChannelEntry>, logs: seq<ContractLog>)
    requires !Own(c, me) && (e.Some? ==> e.value.status != Closed)
    ensures var e' := EntryAfter(me, c, e, logs); e'.Some? ==> e'.value.status != Closed
    decreases |logs|
  {
    if logs != [] {
      ForeignNeverClosed(me, c, Seen(me, c, e, logs[0]), logs[1..]);
    }
  }

  // ---------- entries that agree on being closed ----------

  predicate SameStatus(x: Option<ChannelEntry>, y: Option<ChannelEntry>) {
    x.Some? && y.Some? && (x.value.status == Closed <==> y.value.status == Closed)
  }

  /** They keep agreeing, a difference in epochs stays, and the outgoing index goes the same way. */
  lemma {:induction false} SameStatusStays(me: Address, c: ChannelId, x: Option<ChannelEntry>, y: Option<ChannelEntry>, logs: seq<ContractLog>)
    requires Own(c, me) && SameStatus(x, y)
    ensures var x', y' := EntryAfter(me, c, x, logs), EntryAfter(me, c, y, logs);
      && SameStatus(x', y')
      && (y.value.epoch > x.value.epoch ==> y'.value.epoch > x'.value.epoch)
      && FormAfter(me, c, x, logs) == FormAfter(me, c, y, logs)
    decreases |logs|
  {
    if logs != [] {
      SameStatusStays(me, c, Seen(me, c, x, logs[0]), Seen(me, c, y, logs[0]), logs[1..]);
    }
  }

  /** A closing makes any two entries agree from there on, and any two outgoing indices as well. */
  lemma {:induction false} ClosingAligns(
    me: Address, c: ChannelId, x: Option<ChannelEntry>, y: Option<ChannelEntry>, o: Option<nat>, p: Option<nat>, logs: seq<ContractLog>)
    requires Own(c, me) && Admissible(logs, c, IsClosed(x)) && y.Some? && HasClosed(logs, c)
    ensures SameStatus(EntryAfter(me, c, x, logs), EntryAfter(me, c, y, logs))
    ensures DirectionOf(c, me) == Some(Outgoing) ==> OutAfter(me, c, x, o, logs) == OutAfter(me, c, y, p, logs)
    decreases |logs|
  {
    HasInRest(logs, c);
    var x', y' := Seen(me, c, x, logs[0]), Seen(me, c, y, logs[0]);
    var o', p' := NextOut(me, c, x, o, logs[0]), NextOut(me, c, y, p, logs[0]);
    if logs[0] == ChannelClosed(c) {
      SameStatusStays(me, c, x', y', logs[1..]);
      OutIsForm(me, c, x', o', logs[1..]);
      OutIsForm(me, c, y', p', logs[1..]);
    } else {
      ClosingAligns(me, c, x', y', o', p', logs[1..]);
    }
  }

  // ---------- a history that missed an opening ----------

  predicate Behind(x: Option<ChannelEntry>, y: Option<ChannelEntry>) {
    y.Some? && y.value.epoch >= 1 && (x.Some? ==> x.value.epoch < y.value.epoch)
  }

  lemma {:induction false} StaysBehind(me: Address, c: ChannelId, x: Option<ChannelEntry>, y: Option<ChannelEntry>, logs: seq<ContractLog>)
    requires Own(c, me) && Behind(x, y) && Admissible(logs, c, IsClosed(y))
    ensures Behind(EntryAfter(me, c, x, logs), EntryAfter(me, c, y, logs))
    decreases |logs|
  {
    if logs != [] {
      StaysBehind(me, c, Seen(me, c, x, logs[0]), Seen(me, c, y, logs[0]), logs[1..]);
    }
  }

  lemma {:induction false} OpeningLeavesBehind(me: Address, c: ChannelId, e: Option<ChannelEntry>, logs: seq<ContractLog>)
    requires Own(c, me) && Admissible(logs, c, IsClosed(e)) && HasOpened(logs, c)
    ensures Behind(e, EntryAfter(me, c, e, logs))
    decreases |logs|
  {
    HasInRest(logs, c);
    var e' := Seen(me, c, e, logs[0]);
    if logs[0] == ChannelOpened(c) {
      OwnEpochNeverShrinks(me, c, e'.value, logs[1..]);
    } else {
      OpeningLeavesBehind(me, c, e', logs[1..]);
      if e.Some? {
        OwnEpochNeverShrinks(me, c, e.value, [logs[0]]);
      }
    }
  }

  /** Who missed a closing does not see the next opening. */
  lemma {:induction false} OpeningIsRefused(me: Address, c: ChannelId, x: ChannelEntry, y: ChannelEntry, logs: seq<ContractLog>)
    requires Own(c, me) && x.status != Closed && y.status == Closed && x.epoch <= y.epoch
    requires Admissible(logs, c, true) && HasOpened(logs, c)
    ensures Behind(EntryAfter(me, c, Some(x), logs), EntryAfter(me, c, Some(y), logs))
    decreases |logs|
  {
    HasInRest(logs, c);
    if logs[0] == ChannelOpened(c) {
      StaysBehind(me, c, Seen(me, c, Some(x), logs[0]), Seen(me, c, Some(y), logs[0]), logs[1..]);
    } else {
      OpeningIsRefused(me, c, x, y, logs[1..]);
    }
  }

  // ---------- a history that missed changes of an open channel ----------

  predicate SetsBalance(logs: seq<ContractLog>, c: ChannelId) {
    exists i :: 0 <= i < |logs| && (logs[i].ChannelBalanceIncreased? || logs[i].ChannelBalanceDecreased?) && logs[i].id == c
  }

  predicate SetsTicketIndex(logs: seq<ContractLog>, c: ChannelId) {
    exists i :: 0 <= i < |logs| && logs[i].TicketRedeemed? && logs[i].id == c
  }

  predicate SetsStatus(logs: seq<ContractLog>, c: ChannelId) {
    exists i :: 0 <= i < |logs| && logs[i].OutgoingChannelClosureInitiated? && logs[i].id == c
  }

  lemma SetsInRest(logs: seq<ContractLog>, c: ChannelId)
    requires logs != []
    ensures SetsBalance(logs, c) <==>
      ((logs[0].ChannelBalanceIncreased? || logs[0].ChannelBalanceDecreased?) && logs[0].id == c) || SetsBalance(logs[1..], c)
    ensures SetsTicketIndex(logs, c) <==> (logs[0].TicketRedeemed? && logs[0].id == c) || SetsTicketIndex(logs[1..], c)
    ensures SetsStatus(logs, c) <==>
      (logs[0].OutgoingChannelClosureInitiated? && logs[0].id == c) || SetsStatus(logs[1..], c)
  {
    assert forall i :: 0 < i < |logs| ==> logs[i] == logs[1..][i - 1];
    assert forall i :: 0 <= i < |logs| - 1 ==> logs[1..][i] == logs[i + 1];
  }

  /** Each field that differs is set by the logs. */
  predicate MadeUp(x: ChannelEntry, y: ChannelEntry, logs: seq<ContractLog>, c: ChannelId) {
    && (x.balance == y.balance || SetsBalance(logs, c))
    && (x.ticketIndex == y.ticketIndex || SetsTicketIndex(logs, c))
    && (x.status == y.status || SetsStatus(logs, c))
  }

  lemma {:induction false} SettersExactly(me: Address, c: ChannelId, x: ChannelEntry, y: ChannelEntry, logs: seq<ContractLog>)
    requires !HasOpened(logs, c) && !HasClosed(logs, c) && x.epoch == y.epoch
    ensures EntryAfter(me, c, Some(x), logs) == EntryAfter(me, c, Some(y), logs) <==> MadeUp(x, y, logs, c)
    decreases |logs|
  {
    if logs != [] {
      HasInRest(logs, c);
      SetsInRest(logs, c);
      hide SetsBalance;
      hide SetsTicketIndex;
      hide SetsStatus;
      SettersExactly(me, c, Seen(me, c, Some(x), logs[0]).value, Seen(me, c, Some(y), logs[0]).value, logs[1..]);
    }
  }

  lemma {:induction false} ClosingMakesSame(me: Address, c: ChannelId, x: ChannelEntry, y: ChannelEntry, logs: seq<ContractLog>)
    requires Own(c, me) && x.epoch == y.epoch && x.status != Closed && y.status != Closed
    requires Admissible(logs, c, false) && HasClosed(logs, c)
    ensures EntryAfter(me, c, Some(x), logs) == EntryAfter(me, c, Some(y), logs)
    decreases |logs|
  {
    HasInRest(logs, c);
    if logs[0] != ChannelClosed(c) {
      ClosingMakesSame(me, c, Seen(me, c, Some(x), logs[0]).value, Seen(me, c, Some(y), logs[0]).value, logs[1..]);
    }
  }

  /**
   Missing some logs of an own channel goes unnoticed exactly if they neither open nor close it, and what
   comes later closes it or sets every field that they changed.
   */
  predicate MissingIsHarmless(me: Address, c: ChannelId, e: Option<ChannelEntry>, missed: seq<ContractLog>, later: seq<ContractLog>) {
    && !HasOpened(missed, c) && !HasClosed(missed, c)
    && var e' := EntryAfter(me, c, e, missed);
       (e.Some? && e'.Some? ==> HasClosed(later, c) || MadeUp(e.value, e'.value, later, c))
  }

  lemma MissedLogsExactly(me: Address, c: ChannelId, e: Option<ChannelEntry>, missed: seq<ContractLog>, later: seq<ContractLog>)
    requires Own(c, me) && Admissible(missed + later, c, IsClosed(e))
    ensures EntryAfter(me, c, e, later) == EntryAfter(me, c, e, missed + later) <==> MissingIsHarmless(me, c, e, missed, later)
  {
    hide EntryAfter;
    hide Admissible;
    var e' := EntryAfter(me, c, e, missed);
    AdmissibleSplits(missed, later, c, IsClosed(e));
    EntryAfterConcat(me, c, e, missed, later);
    TracksClosed(me, c, e, missed);
    if HasOpened(missed, c) {
      OpeningLeavesBehind(me, c, e, missed);
      StaysBehind(me, c, e, e', later);
    } else if IsClosed(e) {
      ClosedWithoutOpeningIsSilent(missed, c);
      SilentKeeps(me, c, e, missed);
    } else if HasClosed(missed, c) {
      ClosingErases(me, c, e.value, missed);
      MissedClosingShows(me, c, e.value, e'.value, later);
    } else {
      SettersOverwrite(me, c, e.value, e.value, missed);
      if HasClosed(later, c) {
        ClosingMakesSame(me, c, e.value, e'.value, later);
      } else {
        OpenWithoutClosingHasNoOpening(later, c);
        SettersExactly(me, c, e.value, e'.value, later);
      }
    }
  }

  lemma MissedClosingShows(me: Address, c: ChannelId, x: ChannelEntry, y: ChannelEntry, later: seq<ContractLog>)
    requires Own(c, me) && x.status != Closed && y.status == Closed && x.epoch == y.epoch && Admissible(later, c, true)
    ensures EntryAfter(me, c, Some(x), later) != EntryAfter(me, c, Some(y), later)
  {
    if HasOpened(later, c) {
      OpeningIsRefused(me, c, x, y, later);
    } else {
      ClosedWithoutOpeningIsSilent(later, c);
      SilentKeeps(me, c, Some(x), later);
      SilentKeeps(me, c, Some(y), later);
    }
  }

  /** The opening that follows a missed closing of a foreign channel is refused, so the old entry lives on. */
  lemma {:induction false} ForeignOpeningRefused(me: Address, c: ChannelId, x: ChannelEntry, logs: seq<ContractLog>)
    requires x.status != Closed && Admissible(logs, c, true) && HasOpened(logs, c) && !HasClosed(logs, c)
    ensures var created := ChannelEntry(0, 0, Open, 1);
      EntryAfter(me, c, Some(x), logs) == EntryAfter(me, c, None, logs) <==> x.epoch == 1 && MadeUp(x, created, logs, c)
    decreases |logs|
  {
    HasInRest(logs, c);
    SetsInRest(logs, c);
    hide SetsBalance;
    hide SetsTicketIndex;
    hide SetsStatus;
    if logs[0] == ChannelOpened(c) {
      var created := ChannelEntry(0, 0, Open, 1);
      OpenWithoutClosingHasNoOpening(logs[1..], c);
      if x.epoch == 1 {
        SettersExactly(me, c, x, created, logs[1..]);
      } else {
        SettersOverwrite(me, c, x, created, logs[1..]);
      }
    } else {
      ForeignOpeningRefused(me, c, x, logs[1..]);
    }
  }

  /**
   Missing some logs of a foreign channel goes unnoticed exactly if it is closed later, or was unknown and is
   closed after them, or every difference to what they left, or to a new entry, is made up for.
   */
  predicate ForeignMissingIsHarmless(me: Address, c: ChannelId, e: Option<ChannelEntry>, missed: seq<ContractLog>, later: seq<ContractLog>) {
    var e' := EntryAfter(me, c, e, missed);
    var right := if e'.Some? then e' else if HasOpened(later, c) then Some(ChannelEntry(0, 0, Open, 1)) else None;
    || HasClosed(later, c)
    || (e.None? && e'.None?)
    || (e.Some? && right.Some? && e.value.epoch == right.value.epoch && MadeUp(e.value, right.value, later, c))
  }

  lemma ForeignMissedLogsExactly(me: Address, c: ChannelId, e: Option<ChannelEntry>, missed: seq<ContractLog>, later: seq<ContractLog>)
    requires !Own(c, me) && (e.Some? ==> e.value.status != Closed) && Admissible(missed + later, c, IsClosed(e))
    ensures EntryAfter(me, c, e, later) == EntryAfter(me, c, e, missed + later) <==> ForeignMissingIsHarmless(me, c, e, missed, later)
  {
    hide EntryAfter;
    hide Admissible;
    hide MadeUp;
    var e' := EntryAfter(me, c, e, missed);
    AdmissibleSplits(missed, later, c, IsClosed(e));
    EntryAfterConcat(me, c, e, missed, later);
    TracksClosed(me, c, e, missed);
    ForeignNeverClosed(me, c, e, missed);
    if HasClosed(later, c) {
      ForeignClosingForgets(me, c, e, e', later);
    } else if e'.Some? {
      OpenWithoutClosingHasNoOpening(later, c);
      SettersOverwrite(me, c, e'.value, e'.value, later);
      if e.None? {
        UnknownWithoutOpening(me, c, later);
      } else if e.value.epoch == e'.value.epoch {
        SettersExactly(me, c, e.value, e'.value, later);
      } else {
        SettersOverwrite(me, c, e.value, e'.value, later);
      }
    } else if e.Some? {
      if HasOpened(later, c) {
        ForeignOpeningRefused(me, c, e.value, later);
      } else {
        UnknownWithoutOpening(me, c, later);
        SettersOverwrite(me, c, e.value, e.value, later);
      }
    }
  }

  // ---------- a history that starts late ----------

  lemma {:induction false} KnownOnceOpened(me: Address, c: ChannelId, logs: seq<ContractLog>)
    requires Own(c, me)
    ensures EntryAfter(me, c, None, logs).Some? <==> HasOpened(logs, c)
    decreases |logs|
  {
    if HasOpened(logs, c) {
      OwnOnceOpenedIsKnown(me, c, None, logs);
    } else if logs != [] {
      HasInRest(logs, c);
      KnownOnceOpened(me, c, logs[1..]);
    }
  }

  lemma {:induction false} UnknownWithoutOpening(me: Address, c: ChannelId, logs: seq<ContractLog>)
    requires !HasOpened(logs, c)
    ensures EntryAfter(me, c, None, logs) == None
    decreases |logs|
  {
    if logs != [] {
      HasInRest(logs, c);
      UnknownWithoutOpening(me, c, logs[1..]);
    }
  }

  /**
   Nothing is lost by starting after the early logs if they do not open an own channel, or if they leave a
   foreign one closed or it is closed later.
   */
  predicate LateStartIsHarmless(me: Address, c: ChannelId, early: seq<ContractLog>, later: seq<ContractLog>) {
    if Own(c, me) then !HasOpened(early, c) else ClosedAfter(early, c, true) || HasClosed(later, c)
  }

  lemma LateStartExactly(me: Address, c: ChannelId, early: seq<ContractLog>, later: seq<ContractLog>)
    requires Admissible(early + later, c, true)
    ensures EntryAfter(me, c, None, later) == EntryAfter(me, c, None, early + later) <==> LateStartIsHarmless(me, c, early, later)
  {
    hide EntryAfter;
    hide Admissible;
    hide ClosedAfter;
    var e := EntryAfter(me, c, None, early);
    AdmissibleSplits(early, later, c, true);
    EntryAfterConcat(me, c, None, early, later);
    TracksClosed(me, c, None, early);
    if Own(c, me) {
      if HasOpened(early, c) {
        OpeningLeavesBehind(me, c, None, early);
        StaysBehind(me, c, None, e, later);
      } else {
        UnknownWithoutOpening(me, c, early);
      }
    } else {
      ForeignNeverClosedFromNone(me, c, early);
      if e.Some? {
        if HasClosed(later, c) {
          ForeignClosingForgets(me, c, None, e, later);
        } else {
          OpenWithoutClosingHasNoOpening(later, c);
          UnknownWithoutOpening(me, c, later);
          SettersOverwrite(me, c, e.value, e.value, later);
        }
      }
    }
  }

  lemma ForeignNeverClosedFromNone(me: Address, c: ChannelId, logs: seq<ContractLog>)
    requires !Own(c, me)
    ensures var e := EntryAfter(me, c, None, logs); e.Some? ==> e.value.status != Closed
  {
    ForeignNeverClosed(me, c, None, logs);
  }
}
