/** The event handlers as they work: one object that updates its tables in place, log by log. */
module EventHandlers {
  import opened HoprTypes
  import opened TicketStore
  import opened Handlers

  lemma ValueInsert(tickets: TicketTable, keys: set<TicketKey>, k: TicketKey)
    requires keys <= tickets.Keys && k in tickets && k !in keys
    ensures Value(tickets, keys + {k}) == Value(tickets, keys) + tickets[k].amount
  {
    ValueRemove(tickets, keys + {k}, k);
    assert keys + {k} - {k} == keys;
  }

  lemma NoRowsNoValue(tickets: TicketTable)
    ensures Value(tickets, {}) == 0
  {
  }

  lemma CreditAt(store: Store, keys: set<TicketKey>, c: ChannelId, marker: TicketMarker, d: ChannelId)
    requires keys <= store.tickets.Keys && d in store.stats.Keys + ChannelsOf(keys)
    requires forall k :: k in keys ==> k.channel == c
    requires d == c || d in store.stats
    ensures CreditEach(store, keys, marker)[d]
         == if d == c then Credited(StatsOf(store.stats, c), marker, Value(store.tickets, keys)) else store.stats[d]
  {
    hide Value;
    assert OnChannel(keys, d) == if d == c then keys else {};
    NoRowsNoValue(store.tickets);
  }

  lemma CreditOneChannel(store: Store, keys: set<TicketKey>, c: ChannelId, marker: TicketMarker)
    requires keys <= store.tickets.Keys && keys != {}
    requires forall k :: k in keys ==> k.channel == c
    ensures CreditEach(store, keys, marker)
         == store.stats[c := Credited(StatsOf(store.stats, c), marker, Value(store.tickets, keys))]
  {
    hide Value;
    assert ChannelsOf(keys) == {c} by {
      var k :| k in keys;
      assert k.channel in ChannelsOf(keys);
    }
    var credit := CreditEach(store, keys, marker);
    assert credit.Keys == store.stats.Keys + {c};
    hide CreditEach;
    hide Credited;
    hide StatsOf;
    hide ChannelsOf;
    forall d | d in credit
      ensures credit[d] == if d == c then Credited(StatsOf(store.stats, c), marker, Value(store.tickets, keys)) else store.stats[d]
    {
      CreditAt(store, keys, c, marker, d);
    }
  }

  lemma SelectionMarked(store: Store, sel: TicketSelector, marker: TicketMarker)
    ensures var keys, after := Selected(store.tickets, sel), MarkAs(store, sel, marker);
      && after.tickets == store.tickets - keys
      && forall c :: StatsOf(after.stats, c) == Credited(StatsOf(store.stats, c), marker, Value(store.tickets, OnChannel(keys, c)))
  {
    hide Selected;
    hide Value;
    hide CreditEach;
    hide Credited;
    forall c
      ensures StatsOf(MarkAs(store, sel, marker).stats, c)
           == Credited(StatsOf(store.stats, c), marker, Value(store.tickets, OnChannel(Selected(store.tickets, sel), c)))
    {
      StatsAfterMark(store, Selected(store.tickets, sel), marker, c);
    }
  }

  /** What the selector picks on its first n channels. */
  function SelectedUpTo(tickets: TicketTable, sel: TicketSelector, n: nat): (keys: set<TicketKey>)
    requires n <= |sel.identifiers|
    ensures keys <= tickets.Keys
  {
    Selected(tickets, sel.(identifiers := sel.identifiers[..n]))
  }

  lemma SelectedEnds(tickets: TicketTable, sel: TicketSelector)
    ensures SelectedUpTo(tickets, sel, 0) == {}
    ensures SelectedUpTo(tickets, sel, |sel.identifiers|) == Selected(tickets, sel)
  {
    assert sel.identifiers[..|sel.identifiers|] == sel.identifiers;
  }

  lemma SelectedNext(tickets: TicketTable, sel: TicketSelector, n: nat)
    requires n < |sel.identifiers|
    ensures var done := SelectedUpTo(tickets, sel, n);
      var next := Selected(tickets - done, sel.JustOn(sel.identifiers[n]));
      done !! next && next <= tickets.Keys && SelectedUpTo(tickets, sel, n + 1) == done + next
  {
    assert sel.identifiers[..n + 1] == sel.identifiers[..n] + [sel.identifiers[n]];
  }

  class ContractEventHandlers {
    const cfg: Config
    var channels: map<ChannelId, ChannelEntry>
    var tickets: TicketTable
    var stats: map<ChannelId, Stats>
    var outgoing: map<ChannelId, nat>
    var safeBalance: nat
    var safeAllowance: nat
    var minWinProb: nat

    constructor (cfg: Config)
      ensures this.cfg == cfg
      ensures State() == Index(map[], Store(map[], map[]), map[], 0, 0, 0)
    {
      this.cfg := cfg;
      channels, tickets, stats, outgoing := map[], map[], map[], map[];
      safeBalance, safeAllowance, minWinProb := 0, 0, 0;
    }

    function State(): Index
      reads this
    {
      Index(channels, Store(tickets, stats), outgoing, safeBalance, safeAllowance, minWinProb)
    }

    method GetTicketsValue(sel: TicketSelector) returns (count: nat, value: nat)
      ensures count == |Selected(tickets, sel)|
      ensures value == Value(tickets, Selected(tickets, sel))
    {
      count, value := 0, 0;
      var rest := tickets.Keys;
      ghost var seen := {};
      while rest != {}
        invariant rest <= tickets.Keys
        invariant seen == set k | k in Selected(tickets, sel) && k !in rest
        invariant count == |seen| && value == Value(tickets, seen)
        decreases rest
      {
        var k :| k in rest;
        rest := rest - {k};
        if Selects(sel, k, tickets[k]) {
          ValueInsert(tickets, seen, k);
          count, value := count + 1, value + tickets[k].amount;
          seen := seen + {k};
        }
      }
      assert seen == Selected(tickets, sel);
    }

    method GetTickets(sel: TicketSelector) returns (rows: seq<TicketKey>)
      ensures forall k :: k in rows <==> k in Selected(tickets, sel)
      ensures forall i, j :: 0 <= i < j < |rows| ==> rows[i] != rows[j]
    {
      rows := [];
      var rest := tickets.Keys;
      while rest != {}
        invariant rest <= tickets.Keys
        invariant forall k :: k in rows <==> k in Selected(tickets, sel) && k !in rest
        invariant forall i, j :: 0 <= i < j < |rows| ==> rows[i] != rows[j]
        decreases rest
      {
        var k :| k in rest;
        rest := rest - {k};
        if Selects(sel, k, tickets[k]) {
          rows := rows + [k];
        }
      }
    }

    method MarkOneChannel(sel: TicketSelector, identifier: (ChannelId, nat), marker: TicketMarker) returns (marked: nat)
      modifies this`tickets, this`stats
      ensures var keys := Selected(old(tickets), sel.JustOn(identifier));
        && marked == |keys|
        && Store(tickets, stats) == MarkKeys(Store(old(tickets), old(stats)), keys, marker)
    {
      hide CreditEach;
      var selector := sel.JustOn(identifier);
      ghost var store, keys := Store(tickets, stats), Selected(tickets, selector);
      var value;
      marked, value := GetTicketsValue(selector);
      MarkNothing(store, marker);
      if marked > 0 {
        CreditOneChannel(store, keys, identifier.0, marker);
        stats := stats[identifier.0 := Credited(StatsOf(stats, identifier.0), marker, value)];
        tickets := tickets - Selected(tickets, selector);
      }
    }

    /** Removes what the selector picks and credits it, one channel of the selector after the other. */
    method MarkTicketsAs(sel: TicketSelector, marker: TicketMarker) returns (marked: nat)
      modifies this`tickets, this`stats
      ensures Store(tickets, stats) == MarkAs(Store(old(tickets), old(stats)), sel, marker)
      ensures marked == |Selected(old(tickets), sel)|
      ensures tickets == old(tickets) - Selected(old(tickets), sel)
      ensures forall c ::
        StatsOf(stats, c) == Credited(StatsOf(old(stats), c), marker, Value(old(tickets), OnChannel(Selected(old(tickets), sel), c)))
    {
      hide CreditEach;
      hide Selected;
      hide SelectedUpTo;
      marked := 0;
      ghost var store := Store(tickets, stats);
      MarkNothing(store, marker);
      SelectedEnds(store.tickets, sel);
      for i := 0 to |sel.identifiers|
        invariant marked == |SelectedUpTo(store.tickets, sel, i)|
        invariant Store(tickets, stats) == MarkKeys(store, SelectedUpTo(store.tickets, sel, i), marker)
      {
        ghost var done := SelectedUpTo(store.tickets, sel, i);
        SelectedNext(store.tickets, sel, i);
        var count := MarkOneChannel(sel, sel.identifiers[i], marker);
        MarkTwice(store, done, Selected(store.tickets - done, sel.JustOn(sel.identifiers[i])), marker);
        marked := marked + count;
      }
      SelectionMarked(store, sel, marker);
      hide MarkKeys;
    }

    method OnBalanceEvent(id: ChannelId, newBalance: nat, increased: bool) returns (outcome: Outcome)
      modifies this`channels
      ensures OnBalanceChange(old(State()), id, newBalance, increased) == Step(State(), outcome)
    {
      if id in channels {
        var balance := channels[id].balance;
        var diff := if increased then SatSub(newBalance, balance) else SatSub(balance, newBalance);
        channels := channels[id := channels[id].(balance := newBalance)];
        outcome := Handled(Some(
          if increased then BalanceIncreasedEvent(id, channels[id], diff) else BalanceDecreasedEvent(id, channels[id], diff)));
      } else {
        outcome := Failed(ChannelDoesNotExist);
      }
    }

    method OnClosureInitiatedEvent(id: ChannelId, closureTime: nat) returns (outcome: Outcome)
      modifies this`channels
      ensures OnClosureInitiated(old(State()), id, closureTime) == Step(State(), outcome)
    {
      if id in channels {
        channels := channels[id := channels[id].(status := PendingToClose(closureTime))];
        outcome := Handled(Some(ClosureInitiatedEvent(id, channels[id])));
      } else {
        outcome := Failed(ChannelDoesNotExist);
      }
    }

    method OnClosedEvent(id: ChannelId) returns (outcome: Outcome)
      modifies this
      ensures OnClosed(cfg.me, old(State()), id) == Step(State(), outcome)
    {
      hide MarkKeys;
      if id in channels {
        var direction := DirectionOf(id, cfg.me);
        if direction.Some? {
          channels := channels[id := channels[id].(status := Closed, balance := 0, ticketIndex := 0)];
          if direction.value == Incoming {
            var _ := MarkTicketsAs(SelectorOfEntry(id, channels[id]), Neglected);
          } else {
            outgoing := outgoing[id := 0];
          }
          outcome := Handled(Some(ClosedEvent(id, channels[id])));
        } else {
          outcome := Handled(Some(ClosedEvent(id, channels[id])));
          channels := channels - {id};
        }
      } else {
        outcome := Failed(ChannelDoesNotExist);
      }
    }

    method OnOpenedEvent(id: ChannelId) returns (outcome: Outcome)
      modifies this
      ensures OnOpened(cfg.me, old(State()), id) == Step(State(), outcome)
    {
      hide MarkKeys;
      if id in channels {
        if channels[id].status != Closed {
          return Failed(ReopenOfUnclosedChannel);
        }
        var epoch := channels[id].epoch;
        if id.source == cfg.me || id.destination == cfg.me {
          var _ := MarkTicketsAs(NewSelector(id, epoch), Neglected);
          outgoing := outgoing[id := 0];
        }
        channels := channels[id := channels[id].(ticketIndex := 0, epoch := epoch + 1, status := Open)];
      } else {
        channels := channels[id := ChannelEntry(0, 0, Open, 1)];
      }
      outcome := Handled(Some(OpenedEvent(id, channels[id])));
    }

    /** The candidates a redeem log may settle: fetched by state, then filtered by where their range ends. */
    method MatchingTickets(id: ChannelId, n: nat) returns (rows: seq<TicketKey>)
      requires id in channels
      ensures forall k :: k in rows <==> k in Matching(tickets, id, channels[id], n)
      ensures |rows| == |Matching(tickets, id, channels[id], n)|
    {
      var candidates := GetTickets(SelectorOfEntry(id, channels[id]).(state := Some(BeingRedeemed)));
      assert forall k :: k in candidates ==> k in tickets;
      rows := [];
      for i := 0 to |candidates|
        invariant forall k :: k in rows <==> k in candidates[..i] && k.index + tickets[k].offset == n
        invariant forall a, b :: 0 <= a < b < |rows| ==> rows[a] != rows[b]
      {
        if candidates[i].index + tickets[candidates[i]].offset == n {
          rows := rows + [candidates[i]];
        }
      }
      assert candidates[..|candidates|] == candidates;
      DistinctSize(rows, Matching(tickets, id, channels[id], n));
    }

    method OnRedeemedEvent(id: ChannelId, n: nat) returns (outcome: Outcome)
      modifies this
      ensures OnRedeemed(cfg.me, old(State()), id, n) == Step(State(), outcome)
    {
      hide MarkKeys;
      hide Matching;
      if id !in channels {
        return Failed(ChannelDoesNotExist);
      }
      var direction := DirectionOf(id, cfg.me);
      var settled := None;
      if direction == Some(Incoming) {
        var matching := MatchingTickets(id, n);
        if |matching| == 1 {
          settled := Some(matching[0]);
          SingleMatch(matching[0], Matching(tickets, id, channels[id], n));
          var _ := MarkTicketsAs(SelectorOfTicket(matching[0], tickets[matching[0]]), Redeemed);
        } else if |matching| > 1 {
          return Failed(MultipleMatchingTickets);
        }
      } else if direction == Some(Outgoing) {
        outgoing := Raised(outgoing, id, n);
      }
      channels := channels[id := channels[id].(ticketIndex := n)];
      var _ := MarkTicketsAs(SelectorOfEntry(id, channels[id]).(index := Below(n)), Neglected);
      outcome := Handled(Some(TicketRedeemedEvent(id, channels[id], settled)));
    }

    method OnTransferEvent(from: Address, to: Address, value: nat) returns (outcome: Outcome)
      modifies this`safeBalance
      ensures OnTransfer(cfg, old(State()), from, to, value) == Step(State(), outcome)
    {
      var balance := safeBalance;
      if to != cfg.safe && from != cfg.safe {
        return Handled(None);
      } else if to == cfg.safe {
        balance := SatAdd(balance, value);
      } else if from == cfg.safe {
        balance := SatSub(balance, value);
      }
      safeBalance := balance;
      outcome := Handled(None);
    }

    method OnApprovalEvent(owner: Address, spender: Address, value: nat) returns (outcome: Outcome)
      modifies this`safeAllowance
      ensures OnApproval(cfg, old(State()), owner, spender, value) == Step(State(), outcome)
    {
      if owner == cfg.safe && spender == cfg.channelsContract {
        safeAllowance := value;
      }
      outcome := Handled(None);
    }

    method GetIncomingChannels() returns (rows: seq<ChannelId>)
      ensures forall c :: c in rows <==> c in channels && c.destination == cfg.me
    {
      rows := [];
      var rest := channels.Keys;
      while rest != {}
        invariant rest <= channels.Keys
        invariant forall c :: c in rows <==> c in channels && c.destination == cfg.me && c !in rest
        decreases rest
      {
        var c :| c in rest;
        rest := rest - {c};
        if c.destination == cfg.me {
          rows := rows + [c];
        }
      }
    }

    method OnWinProbEvent(oldLuck: nat, newLuck: nat) returns (outcome: Outcome)
      modifies this
      ensures OnWinProbUpdated(cfg.me, old(State()), oldLuck, newLuck) == Step(State(), outcome)
    {
      minWinProb := newLuck;
      MarkNothing(Store(tickets, stats), Rejected);
      hide MarkKeys;
      if ApproxLess(oldLuck, newLuck) {
        var incoming := GetIncomingChannels();
        var selector: Option<TicketSelector> := None;
        for i := 0 to |incoming|
          invariant selector.Some? <==> i > 0
          invariant selector.Some? ==>
            selector.value == TicketSelector(Identified(channels, incoming[..i]), AnyIndex, None, None, false)
        {
          var c := incoming[i];
          var identifier := (c, channels[c].epoch);
          assert Identified(channels, incoming[..i + 1]) == Identified(channels, incoming[..i]) + [identifier];
          if selector.Some? {
            selector := Some(selector.value.(index := AnyIndex, identifiers := selector.value.identifiers + [identifier]));
          } else {
            selector := Some(SelectorOfEntry(c, channels[c]));
          }
        }
        assert incoming[..|incoming|] == incoming;
        UnlikelySelected(cfg.me, channels, tickets, incoming, newLuck);
        if selector.Some? {
          var _ := MarkTicketsAs(selector.value.(winProbBelow := Some(newLuck)), Rejected);
        }
      }
      outcome := Handled(None);
    }

    method ProcessLogEvent(log: ContractLog) returns (outcome: Outcome)
      modifies this
      ensures Process(cfg, old(State()), log) == Step(State(), outcome)
    {
      hide OnOpened;
      hide OnClosed;
      hide OnRedeemed;
      hide OnWinProbUpdated;
      match log
      case ChannelOpened(id) => outcome := OnOpenedEvent(id);
      case ChannelBalanceIncreased(id, b) => outcome := OnBalanceEvent(id, b, true);
      case ChannelBalanceDecreased(id, b) => outcome := OnBalanceEvent(id, b, false);
      case OutgoingChannelClosureInitiated(id, t) => outcome := OnClosureInitiatedEvent(id, t);
      case ChannelClosed(id) => outcome := OnClosedEvent(id);
      case TicketRedeemed(id, n) => outcome := OnRedeemedEvent(id, n);
      case Transfer(from, to, v) => outcome := OnTransferEvent(from, to, v);
      case Approval(o, s, v) => outcome := OnApprovalEvent(o, s, v);
      case WinProbUpdated(o, n) => outcome := OnWinProbEvent(o, n);
      case UnknownContract => outcome := Failed(UnknownContractAddress);
    }

    /** Processes the logs of a block in order; a failing log is skipped, a significant event is collected. */
    method CollectBlockEvents(logs: seq<ContractLog>) returns (events: seq<ChainEvent>)
      modifies this
      ensures State() == ApplyAll(cfg, old(State()), logs)
      ensures events == EventsOf(cfg, old(State()), logs)
    {
      hide Process;
      events := [];
      ghost var start := State();
      assert logs[..0] == [];
      for i := 0 to |logs|
        invariant State() == ApplyAll(cfg, start, logs[..i])
        invariant events == EventsOf(cfg, start, logs[..i])
      {
        OneMoreLog(cfg, start, logs, i);
        var outcome := ProcessLogEvent(logs[i]);
        if outcome.Handled? && outcome.event.Some? {
          events := events + [outcome.event.value];
        }
      }
      assert logs[..|logs|] == logs;
    }
  }

  lemma {:induction false} DistinctSize(rows: seq<TicketKey>, keys: set<TicketKey>)
    requires forall k :: k in rows <==> k in keys
    requires forall i, j :: 0 <= i < j < |rows| ==> rows[i] != rows[j]
    ensures |rows| == |keys|
    decreases |rows|
  {
    if rows == [] {
      assert keys == {};
    } else {
      DistinctSize(rows[1..], keys - {rows[0]});
    }
  }

  lemma SingleMatch(k: TicketKey, keys: set<TicketKey>)
    requires k in keys && |keys| == 1
    ensures keys == {k}
  {
    assert |keys - {k}| == 0;
  }

  function Identified(channels: map<ChannelId, ChannelEntry>, ids: seq<ChannelId>): seq<(ChannelId, nat)>
    requires forall c :: c in ids ==> c in channels
  {
    seq(|ids|, i requires 0 <= i < |ids| => (ids[i], channels[ids[i]].epoch))
  }

  lemma UnlikelySelected(me: Address, channels: map<ChannelId, ChannelEntry>, tickets: TicketTable, incoming: seq<ChannelId>, luck: nat)
    requires forall c :: c in incoming <==> c in channels && c.destination == me
    ensures Selected(tickets, TicketSelector(Identified(channels, incoming), AnyIndex, Some(luck), None, false))
         == TooUnlikely(me, channels, tickets, luck)
    ensures incoming == [] ==> TooUnlikely(me, channels, tickets, luck) == {}
  {
    var identifiers := Identified(channels, incoming);
    forall k: TicketKey ensures (k.channel, k.epoch) in identifiers <==>
        k.channel in channels && k.channel.destination == me && channels[k.channel].epoch == k.epoch
    {
      if k.channel in incoming {
        var i :| 0 <= i < |incoming| && incoming[i] == k.channel;
        assert identifiers[i] == (k.channel, channels[k.channel].epoch);
      }
    }
  }

  lemma OneMoreLog(cfg: Config, index: Index, logs: seq<ContractLog>, i: nat)
    requires i < |logs|
    ensures var here := ApplyAll(cfg, index, logs[..i]);
      && ApplyAll(cfg, index, logs[..i + 1]) == Apply(cfg, here, logs[i])
      && EventsOf(cfg, index, logs[..i + 1]) == EventsOf(cfg, index, logs[..i]) + EventOf(Process(cfg, here, logs[i]).outcome)
  {
    hide Process;
    var here := ApplyAll(cfg, index, logs[..i]);
    assert logs[..i + 1] == logs[..i] + [logs[i]];
    assert [logs[i]][1..] == [];
    ApplyAllConcat(cfg, index, logs[..i], [logs[i]]);
    EventsOfConcat(cfg, index, logs[..i], [logs[i]]);
    assert ApplyAll(cfg, here, [logs[i]]) == Apply(cfg, here, logs[i]);
    assert EventsOf(cfg, here, [logs[i]]) == EventOf(Process(cfg, here, logs[i]).outcome) + [];
  }
}
