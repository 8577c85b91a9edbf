/** Executing one action against the tracker, while the indexer reports events to the same tracker. */
module ActionExecution {
  import opened HoprTypes
  import opened Handlers
  import opened ActionTracker
  import Queue = ActionQueue

  datatype ExecutionResult =
    | ConfirmedBy(event: Event)
    | Invalid(reason: Queue.Prepared)
    | SubmissionFailed
    | AlreadyExpected
    | ConfirmationTimeout

  function FirstMatch(exp: Expectation, events: seq<Event>): Option<Event> {
    if events == [] then None
    else if Test(exp, events[0]) then Some(events[0])
    else FirstMatch(exp, events[1..])
  }

  lemma {:induction false} FirstMatchGrows(exp: Expectation, events: seq<Event>, e: Event)
    ensures FirstMatch(exp, events + [e]) ==
      if FirstMatch(exp, events).Some? then FirstMatch(exp, events)
      else if Test(exp, e) then Some(e) else None
    decreases |events|
  {
    if events == [] {
      assert ([] + [e])[1..] == [];
    } else {
      assert (events + [e])[1..] == events[1..] + [e];
      FirstMatchGrows(exp, events[1..], e);
    }
  }

  lemma {:induction false} FirstMatchStays(exp: Expectation, events: seq<Event>, i: nat)
    requires i <= |events| && FirstMatch(exp, events[..i]).Some?
    ensures FirstMatch(exp, events) == FirstMatch(exp, events[..i])
    decreases |events| - i
  {
    if i == |events| {
      assert events[..i] == events;
    } else {
      assert events[..i + 1] == events[..i] + [events[i]];
      FirstMatchGrows(exp, events[..i], events[i]);
      FirstMatchStays(exp, events, i + 1);
    }
  }

  /** While an action waits, its row is the only one with its channel and nothing has been sent on it. */
  ghost predicate Awaits(t: Tracker, exp: Expectation, channel: nat) {
    && Keyed(t) && exp.txHash in t.table && t.table[exp.txHash] == Slot(exp, channel)
    && channel !in t.delivered && channel !in t.gone
    && forall h :: h in t.table && h != exp.txHash ==> t.table[h].channel != channel
  }

  ghost predicate FreshChannel(t: Tracker, channel: nat) {
    && channel !in t.delivered && channel !in t.gone
    && forall h :: h in t.table ==> t.table[h].channel != channel
  }

  ghost predicate FewerRows(t: Tracker, t': Tracker) {
    forall h :: h in t'.table ==> h in t.table && t'.table[h] == t.table[h]
  }

  /** An event reaches a waiting action exactly if it passes its test, and is then gone from the table. */
  lemma EventReachesOwnExpectation(t: Tracker, exp: Expectation, channel: nat, event: Event)
    requires Awaits(t, exp, channel)
    ensures var t' := Resolved(t, MatchedKeys(t, event), event);
      && FewerRows(t, t') && Keyed(t') && t'.gone == t.gone
      && if Test(exp, event) then
           exp.txHash !in t'.table && channel in t'.delivered && t'.delivered[channel] == event
         else Awaits(t', exp, channel)
  {
    ScanIsLookup(t, event);
    if Test(exp, event) {
      ResolvedOne(t, event.txHash, event);
    } else if event.txHash in t.table && Test(t.table[event.txHash].exp, event) {
      ResolvedOne(t, event.txHash, event);
    } else {
      ResolvedNone(t, event);
    }
  }

  /** What the table and the channels are after the events, each scanned and resolved before the next. */
  function Processed(t: Tracker, events: seq<Event>): Tracker {
    if events == [] then t
    else
      var before, last := Processed(t, events[..|events| - 1]), events[|events| - 1];
      Resolved(before, MatchedKeys(before, last), last)
  }

  /** The events up to the first one that passes the test. */
  function UpToMatch(exp: Expectation, events: seq<Event>): (handled: seq<Event>)
    ensures handled <= events
  {
    if events == [] then []
    else if Test(exp, events[0]) then [events[0]]
    else [events[0]] + UpToMatch(exp, events[1..])
  }

  lemma {:induction false} UpToMatchEnds(exp: Expectation, events: seq<Event>, i: nat)
    requires i <= |events| && FirstMatch(exp, events[..i]).None?
    ensures i == |events| ==> UpToMatch(exp, events) == events
    ensures i < |events| && Test(exp, events[i]) ==> UpToMatch(exp, events) == events[..i + 1]
    decreases i
  {
    if i > 0 {
      assert events[..i][1..] == events[1..][..i - 1] && events[..i][0] == events[0];
      UpToMatchEnds(exp, events[1..], i - 1);
      assert events == [events[0]] + events[1..];
      if i < |events| {
        assert events[..i + 1] == [events[0]] + events[1..][..i];
      }
    }
  }

  /** A row outlives the events, unchanged, exactly if none of them passes its test. */
  lemma {:induction false} RowSurvivesExactly(t: Tracker, events: seq<Event>, h: Hash)
    requires Keyed(t)
    ensures var t' := Processed(t, events);
      && Keyed(t')
      && (h in t'.table <==> h in t.table && forall e :: e in events ==> !Test(t.table[h].exp, e))
      && (h in t'.table ==> t'.table[h] == t.table[h])
    decreases |events|
  {
    if events != [] {
      var front, last := events[..|events| - 1], events[|events| - 1];
      RowSurvivesExactly(t, front, h);
      KeyedProcessed(t, front);
      ScanIsLookup(Processed(t, front), last);
      assert events == front + [last];
      assert forall e :: e in events <==> e in front || e == last;
    }
  }

  lemma {:induction false} KeyedProcessed(t: Tracker, events: seq<Event>)
    requires Keyed(t)
    ensures Keyed(Processed(t, events))
    decreases |events|
  {
    if events != [] {
      KeyedProcessed(t, events[..|events| - 1]);
    }
  }

  /** What an execution leaves once it has registered: the events handled, and on a timeout its row withdrawn. */
  function Left(t: Tracker, exp: Expectation, channel: nat, events: seq<Event>): Tracker {
    var after := Processed(Registered(t, exp, channel), UpToMatch(exp, events));
    if FirstMatch(exp, events).Some? then after else Unregistered(after, exp.txHash)
  }

  /**
   The action is confirmed by the first event reported during the wait that passes its test, and times out if
   there is none. Whatever the outcome its hash is gone from the table, and another row exactly if one of the
   events handled passes its test. A hash that is taken is left alone.
   */
  method ExecuteAction(
    tracker: IndexerActionTracker, me: Address, action: Queue.Action, submitted: Option<Hash>, channel: nat, events: seq<Event>)
    returns (result: ExecutionResult)
    requires Keyed(tracker.State()) && FreshChannel(tracker.State(), channel)
    modifies tracker
    ensures Keyed(tracker.State())
    ensures
      var prepared := Queue.Prepare(me, action);
      if !prepared.Submitted? then
        result == Invalid(prepared) && tracker.State() == old(tracker.State())
      else if submitted.None? then
        result == SubmissionFailed && tracker.State() == old(tracker.State())
      else if submitted.value in old(tracker.expectations) then
        result == AlreadyExpected && tracker.State() == old(tracker.State())
      else
        var exp := Queue.ExpectationOf(action, submitted.value);
        var first := FirstMatch(exp, events);
        && submitted.value !in tracker.expectations
        && result == (if first.Some? then ConfirmedBy(first.value) else ConfirmationTimeout)
        && tracker.State() == Left(old(tracker.State()), exp, channel, events)
        && (forall h :: h != submitted.value ==>
              (h in tracker.expectations <==>
                 h in old(tracker.expectations)
                 && forall e :: e in UpToMatch(exp, events) ==> !Test(old(tracker.expectations)[h].exp, e)))
        && (forall h :: h in tracker.expectations ==> h in old(tracker.expectations) && tracker.expectations[h] == old(tracker.expectations)[h])
  {
    var prepared := Queue.Prepare(me, action);
    if !prepared.Submitted? {
      return Invalid(prepared);
    }
    if submitted.None? {
      return SubmissionFailed;
    }
    var exp := Queue.ExpectationOf(action, submitted.value);
    ghost var before := tracker.State();
    var accepted := tracker.RegisterExpectation(exp, channel);
    if !accepted {
      return AlreadyExpected;
    }
    ghost var registered := tracker.State();
    var i := 0;
    assert events[..0] == [];
    hide Resolved;
    hide Keyed;
    while i < |events| && channel !in tracker.delivered
      invariant i <= |events|
      invariant tracker.State() == Processed(registered, events[..i])
      invariant channel !in tracker.delivered ==> Awaits(tracker.State(), exp, channel) && FirstMatch(exp, events[..i]).None?
      invariant channel in tracker.delivered ==>
        && exp.txHash !in tracker.expectations && FirstMatch(exp, events[..i]) == Some(tracker.delivered[channel])
        && UpToMatch(exp, events) == events[..i]
    {
      assert events[..i + 1] == events[..i] + [events[i]];
      assert events[..i + 1][..i] == events[..i];
      FirstMatchGrows(exp, events[..i], events[i]);
      UpToMatchEnds(exp, events, i);
      EventReachesOwnExpectation(tracker.State(), exp, channel, events[i]);
      var keys := tracker.ScanForMatches(events[i]);
      var _ := tracker.ResolveMatches(keys, events[i]);
      i := i + 1;
    }
    KeyedProcessed(registered, events[..i]);
    if channel in tracker.delivered {
      FirstMatchStays(exp, events, i);
      result := ConfirmedBy(tracker.delivered[channel]);
    } else {
      assert events[..|events|] == events;
      UpToMatchEnds(exp, events, i);
      tracker.UnregisterExpectation(exp.txHash);
      result := ConfirmationTimeout;
    }
    LeftExactly(before, exp, channel, events);
  }

  lemma LeftExactly(t: Tracker, exp: Expectation, channel: nat, events: seq<Event>)
    requires Keyed(t) && exp.txHash !in t.table
    ensures var t' := Left(t, exp, channel, events);
      && Keyed(t')
      && forall h :: h != exp.txHash ==>
           (h in t'.table <==> h in t.table && forall e :: e in UpToMatch(exp, events) ==> !Test(t.table[h].exp, e))
           && (h in t'.table ==> t'.table[h] == t.table[h])
  {
    hide Processed;
    var registered := Registered(t, exp, channel);
    KeyedProcessed(registered, UpToMatch(exp, events));
    forall h | h != exp.txHash
      ensures var t' := Processed(registered, UpToMatch(exp, events));
        (h in t'.table <==> h in t.table && forall e :: e in UpToMatch(exp, events) ==> !Test(t.table[h].exp, e))
        && (h in t'.table ==> t'.table[h] == t.table[h])
    {
      RowSurvivesExactly(registered, UpToMatch(exp, events), h);
    }
  }
}
