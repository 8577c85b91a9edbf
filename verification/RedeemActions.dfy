/** The calls that redeem tickets: each reads rows, marks them and hands redemptions to the action queue. */
module RedeemActions {
  import opened HoprTypes
  import opened TicketStore
  import opened NodeSystem
  import opened HandlerProperties

  datatype RedeemError =
    | ChannelDoesNotExist
    | OldTicket
    | WrongTicketState
    | MissingDomainSeparator
    | NotRedeemable
    | QueueClosed

  datatype Result<+T> = Ok(value: T) | Err(error: RedeemError)

  /** The selector of all tickets of one channel that a redeem call asks for. */
  function InChannel(c: ChannelId, entry: ChannelEntry, onlyAggregated: bool): TicketSelector {
    TicketSelector([(c, entry.epoch)], AtLeast(entry.ticketIndex), None, Some(Untouched), onlyAggregated)
  }

  /** The untouched tickets of the present epochs of the given channels that no redemption has passed. */
  function Redeemable(
    channels: map<ChannelId, ChannelEntry>, tickets: TicketTable, among: set<ChannelId>, onlyAggregated: bool): (keys: set<TicketKey>)
    ensures keys <= tickets.Keys
  {
    set k | k in tickets && k.channel in among && k.channel in channels
         && k.epoch == channels[k.channel].epoch && k.index >= channels[k.channel].ticketIndex
         && tickets[k].status == Untouched && (onlyAggregated ==> tickets[k].offset > 1)
  }

  function Towards(channels: map<ChannelId, ChannelEntry>, me: Address): (r: set<ChannelId>)
    ensures r <= channels.Keys
  {
    set c | c in channels && c.destination == me
  }

  lemma InChannelIsRedeemable(channels: map<ChannelId, ChannelEntry>, tickets: TicketTable, c: ChannelId, onlyAggregated: bool)
    requires c in channels
    ensures Selected(tickets, InChannel(c, channels[c], onlyAggregated)) == Redeemable(channels, tickets, {c}, onlyAggregated)
  {
  }

  lemma RedeemableTowards(channels: map<ChannelId, ChannelEntry>, tickets: TicketTable, me: Address, onlyAggregated: bool)
    ensures forall k :: k in Redeemable(channels, tickets, Towards(channels, me), onlyAggregated) <==>
      && k in tickets && tickets[k].status == Untouched && (onlyAggregated ==> tickets[k].offset > 1)
      && k.channel in channels && k.channel.destination == me
      && k.epoch == channels[k.channel].epoch && k.index >= channels[k.channel].ticketIndex
  {
  }

  lemma MarkedMore(tickets: TicketTable, a: set<TicketKey>, b: set<TicketKey>, status: TicketStatus)
    ensures WithStatus(WithStatus(tickets, a, status), b, status) == WithStatus(tickets, a + b, status)
    ensures WithStatus(tickets, {}, status) == tickets
  {
  }

  /** Marking the tickets of some channels leaves those of another to be redeemed as they were. */
  lemma RedeemableElsewhere(
    channels: map<ChannelId, ChannelEntry>, tickets: TicketTable, done: set<ChannelId>, c: ChannelId, onlyAggregated: bool)
    requires c !in done
    ensures var marked := WithStatus(tickets, Redeemable(channels, tickets, done, onlyAggregated), BeingRedeemed);
      && Redeemable(channels, marked, {c}, onlyAggregated) == Redeemable(channels, tickets, {c}, onlyAggregated)
      && Redeemable(channels, tickets, done + {c}, onlyAggregated)
         == Redeemable(channels, tickets, done, onlyAggregated) + Redeemable(channels, tickets, {c}, onlyAggregated)
  {
  }

  /** A second call right after the first finds nothing to redeem. */
  lemma SecondCallFindsNothing(channels: map<ChannelId, ChannelEntry>, tickets: TicketTable, among: set<ChannelId>, onlyAggregated: bool)
    ensures var marked := WithStatus(tickets, Redeemable(channels, tickets, among, onlyAggregated), BeingRedeemed);
      Redeemable(channels, marked, among, onlyAggregated) == {}
  {
  }

  ghost predicate Distinct(rows: seq<TicketKey>) {
    forall i, j :: 0 <= i < j < |rows| ==> rows[i] != rows[j]
  }

  ghost predicate Lists(rows: seq<TicketKey>, keys: set<TicketKey>) {
    Distinct(rows) && forall k :: k in rows <==> k in keys
  }

  lemma ListsAppend(a: seq<TicketKey>, b: seq<TicketKey>, keysA: set<TicketKey>, keysB: set<TicketKey>)
    requires Lists(a, keysA) && Lists(b, keysB) && keysA !! keysB
    ensures Lists(a + b, keysA + keysB)
  {
    forall i, j | 0 <= i < j < |a + b| ensures (a + b)[i] != (a + b)[j] {
      if i < |a| <= j {
        assert a[i] in keysA && b[j - |a|] in keysB;
      }
    }
  }

  class TicketRedeemActions {
    const me: Address
    var channels: map<ChannelId, ChannelEntry>
    var tickets: TicketTable
    var queue: seq<TicketKey>                  // redemptions sent to the action queue
    var queueOpen: bool
    var domainKnown: bool                      // the channel domain separator has been indexed
    var provable: set<TicketKey>               // tickets a redeemable proof can be made for

    constructor (me: Address)
      ensures this.me == me && channels == map[] && tickets == map[] && queue == []
    {
      this.me := me;
      channels, tickets, queue := map[], map[], [];
      queueOpen, domainKnown, provable := true, false, {};
    }

    function Sendable(keys: set<TicketKey>): (r: set<TicketKey>)
      reads this
      ensures r <= keys
    {
      if queueOpen then keys * provable else {}
    }

    /** Reads what the selector picks and marks it row by row. */
    method UpdateTicketStatesAndFetch(sel: TicketSelector, status: TicketStatus) returns (rows: seq<TicketKey>)
      modifies this`tickets
      ensures Lists(rows, Selected(old(tickets), sel))
      ensures tickets == WithStatus(old(tickets), Selected(old(tickets), sel), status)
    {
      rows := [];
      ghost var before := tickets;
      var rest := Selected(tickets, sel);
      ghost var picked := rest;
      hide Selected;
      MarkedMore(before, {}, {}, status);
      while rest != {}
        invariant rest <= picked
        invariant Lists(rows, picked - rest)
        invariant tickets == WithStatus(before, picked - rest, status)
        decreases rest
      {
        var k :| k in rest;
        ListsAppend(rows, [k], picked - rest, {k});
        MarkedMore(before, picked - rest, {k}, status);
        assert picked - (rest - {k}) == (picked - rest) + {k};
        tickets := WithStatus(tickets, {k}, status);
        rows := rows + [k];
        rest := rest - {k};
      }
      assert picked - rest == picked;
    }

    method RedeemTickets(sel: TicketSelector) returns (result: Result<seq<TicketKey>>)
      modifies this`tickets, this`queue
      ensures var keys := Selected(old(tickets), sel);
        if keys == {} then
          result == Ok([]) && tickets == old(tickets) && queue == old(queue)
        else if !domainKnown then
          result == Err(MissingDomainSeparator) && tickets == old(tickets) && queue == old(queue)
        else
          && result.Ok? && Lists(result.value, Sendable(keys))
          && tickets == WithStatus(old(tickets), keys, BeingRedeemed)
          && queue == old(queue) + result.value
    {
      ghost var keys := Selected(tickets, sel);
      if Selected(tickets, sel) == {} {
        return Ok([]);
      }
      if !domainKnown {
        return Err(MissingDomainSeparator);
      }
      var rows := UpdateTicketStatesAndFetch(sel, BeingRedeemed);
      hide Selected;
      var receivers := [];
      ghost var marked := tickets;
      for i := 0 to |rows|
        invariant Distinct(receivers)
        invariant forall k :: k in receivers <==> k in rows[..i] && k in Sendable(keys)
        invariant queue == old(queue) + receivers
        invariant tickets == marked
      {
        assert rows[i] !in rows[..i];
        if rows[i] in provable && queueOpen {
          queue := queue + [rows[i]];
          receivers := receivers + [rows[i]];
        }
      }
      assert rows[..|rows|] == rows;
      result := Ok(receivers);
    }

    method RedeemTicketsInChannel(c: ChannelId, onlyAggregated: bool) returns (result: Result<seq<TicketKey>>)
      requires c in channels
      modifies this`tickets, this`queue
      ensures var keys := Redeemable(channels, old(tickets), {c}, onlyAggregated);
        if keys == {} then
          result == Ok([]) && tickets == old(tickets) && queue == old(queue)
        else if !domainKnown then
          result == Err(MissingDomainSeparator) && tickets == old(tickets) && queue == old(queue)
        else
          && result.Ok? && Lists(result.value, Sendable(keys))
          && tickets == WithStatus(old(tickets), keys, BeingRedeemed)
          && queue == old(queue) + result.value
    {
      InChannelIsRedeemable(channels, tickets, c, onlyAggregated);
      result := RedeemTickets(InChannel(c, channels[c], onlyAggregated));
    }

    method RedeemTicketsWithCounterparty(counterparty: Address, onlyAggregated: bool) returns (result: Result<seq<TicketKey>>)
      modifies this`tickets, this`queue
      ensures var keys := Redeemable(channels, old(tickets), {ChannelId(counterparty, me)}, onlyAggregated);
        if ChannelId(counterparty, me) !in channels then
          result == Err(ChannelDoesNotExist) && tickets == old(tickets) && queue == old(queue)
        else if keys == {} then
          result == Ok([]) && tickets == old(tickets) && queue == old(queue)
        else if !domainKnown then
          result == Err(MissingDomainSeparator) && tickets == old(tickets) && queue == old(queue)
        else
          && result.Ok? && Lists(result.value, Sendable(keys))
          && tickets == WithStatus(old(tickets), keys, BeingRedeemed)
          && queue == old(queue) + result.value
    {
      if ChannelId(counterparty, me) in channels {
        result := RedeemTicketsInChannel(ChannelId(counterparty, me), onlyAggregated);
      } else {
        result := Err(ChannelDoesNotExist);
      }
    }

    method IncomingChannels() returns (rows: seq<ChannelId>)
      ensures forall c :: c in rows <==> c in Towards(channels, me)
      ensures forall i, j :: 0 <= i < j < |rows| ==> rows[i] != rows[j]
    {
      rows := [];
      var rest := Towards(channels, me);
      while rest != {}
        invariant rest <= Towards(channels, me)
        invariant forall c :: c in rows <==> c in Towards(channels, me) && c !in rest
        invariant forall i, j :: 0 <= i < j < |rows| ==> rows[i] != rows[j]
        decreases rest
      {
        var c :| c in rest;
        rest := rest - {c};
        rows := rows + [c];
      }
    }

    /**
     One channel after the other: exactly the redeemable tickets of all incoming channels are marked, and
     each one a proof can be made for is sent exactly once. A failing channel is skipped.
     */
    method RedeemAllTickets(onlyAggregated: bool) returns (receivers: seq<TicketKey>)
      modifies this`tickets, this`queue
      ensures var keys := if domainKnown then Redeemable(channels, old(tickets), Towards(channels, me), onlyAggregated) else {};
        && Lists(receivers, Sendable(keys))
        && tickets == WithStatus(old(tickets), keys, BeingRedeemed)
        && queue == old(queue) + receivers
    {
      hide Redeemable;
      var incoming := IncomingChannels();
      receivers := [];
      ghost var before := tickets;
      ghost var marked := {};
      ghost var done: set<ChannelId> := {};
      NothingRedeemable(channels, tickets, onlyAggregated);
      MarkedMore(before, {}, {}, BeingRedeemed);
      for i := 0 to |incoming|
        invariant done == set c | c in incoming[..i]
        invariant marked == if domainKnown then Redeemable(channels, before, done, onlyAggregated) else {}
        invariant Lists(receivers, Sendable(marked))
        invariant tickets == WithStatus(before, marked, BeingRedeemed)
        invariant queue == old(queue) + receivers
      {
        var c := incoming[i];
        assert c in incoming;
        assert incoming[..i + 1] == incoming[..i] + [c];
        RedeemableElsewhere(channels, before, done, c, onlyAggregated);
        ghost var next := if domainKnown then Redeemable(channels, tickets, {c}, onlyAggregated) else {};
        MarkedMore(before, marked, next, BeingRedeemed);
        var result := RedeemTicketsInChannel(c, onlyAggregated);
        assert marked !! next by { DisjointChannels(channels, before, done, c, onlyAggregated); }
        if result.Ok? {
          ListsAppend(receivers, result.value, Sendable(marked), Sendable(next));
          receivers := receivers + result.value;
        }
        assert Sendable(marked + next) == Sendable(marked) + Sendable(next);
        done := done + {c};
        marked := marked + next;
      }
      assert incoming[..|incoming|] == incoming;
      assert done == Towards(channels, me);
    }

    /**
     Redeems the ticket of the channel's present epoch that has the given ticket's index. Once the row is
     marked it stays so, even when the domain separator, the proof or the queue then turns out missing.
     */
    method RedeemTicket(k: TicketKey) returns (result: Result<TicketKey>)
      modifies this`tickets, this`queue
      ensures
        if k.channel !in channels then
          result == Err(ChannelDoesNotExist) && tickets == old(tickets) && queue == old(queue)
        else if k.index < channels[k.channel].ticketIndex then
          result == Err(OldTicket) && tickets == old(tickets) && queue == old(queue)
        else
          var row := k.(epoch := channels[k.channel].epoch);
          if row !in old(tickets) || old(tickets)[row].status != Untouched then
            result == Err(WrongTicketState) && tickets == old(tickets) && queue == old(queue)
          else
            && tickets == WithStatus(old(tickets), {row}, BeingRedeemed)
            && result == (
                 if !domainKnown then Err(MissingDomainSeparator)
                 else if row !in provable then Err(NotRedeemable)
                 else if !queueOpen then Err(QueueClosed)
                 else Ok(row))
            && queue == if result.Ok? then old(queue) + [row] else old(queue)
    {
      if k.channel !in channels {
        return Err(ChannelDoesNotExist);
      }
      var entry := channels[k.channel];
      if k.index < entry.ticketIndex {
        return Err(OldTicket);
      }
      var sel := SelectorOfEntry(k.channel, entry).(index := Single(k.index), state := Some(Untouched));
      OneRow(tickets, k, entry, sel);
      MarkedMore(tickets, {}, {}, BeingRedeemed);
      var rows := UpdateTicketStatesAndFetch(sel, BeingRedeemed);
      if rows == [] {
        return Err(WrongTicketState);
      }
      assert rows[0] in rows;
      if !domainKnown {
        return Err(MissingDomainSeparator);
      }
      if rows[0] !in provable {
        return Err(NotRedeemable);
      }
      if !queueOpen {
        return Err(QueueClosed);
      }
      queue := queue + [rows[0]];
      result := Ok(rows[0]);
    }

    /**
     Works off the queue in order, as long as nothing else happens: a redemption that fails gives its ticket
     back, one that succeeds leaves its row to the redeem log.
     */
    method WorkOffQueue(failing: set<TicketKey>)
      modifies this`tickets, this`queue
      ensures queue == []
      ensures tickets == WithStatus(old(tickets), failing * KeysOf(old(queue)), Untouched)
    {
      ghost var before, all := tickets, queue;
      ghost var done := {};
      MarkedMore(before, {}, {}, Untouched);
      while queue != []
        invariant done <= KeysOf(all) && KeysOf(all) == done + KeysOf(queue)
        invariant tickets == WithStatus(before, failing * done, Untouched)
        decreases |queue|
      {
        var k := queue[0];
        assert queue == [k] + queue[1..];
        assert KeysOf(queue) == {k} + KeysOf(queue[1..]);
        MarkedMore(before, failing * done, {k}, Untouched);
        assert failing * (done + {k}) == if k in failing then failing * done + {k} else failing * done;
        queue := queue[1..];
        done := done + {k};
        if k in failing {
          ResetAction(k);
        }
      }
      assert failing * done == failing * KeysOf(all);
    }

    method ResetAction(k: TicketKey)
      modifies this`tickets
      ensures tickets == WithStatus(old(tickets), {k}, Untouched)
    {
      if k in tickets {
        SelectorOfTicketIsUnique(tickets, k);
        tickets := WithStatus(tickets, Selected(tickets, SelectorOfRedeemable(k, tickets[k])), Untouched);
      }
    }
  }

  function KeysOf(queue: seq<TicketKey>): set<TicketKey> {
    set k | k in queue
  }

  /** If all redemptions of a redeem call fail, the tickets are as they were before it. */
  lemma AllFailedIsUndone(
    channels: map<ChannelId, ChannelEntry>, tickets: TicketTable, among: set<ChannelId>, onlyAggregated: bool)
    ensures var keys := Redeemable(channels, tickets, among, onlyAggregated);
      WithStatus(WithStatus(tickets, keys, BeingRedeemed), keys, Untouched) == tickets
  {
  }

  lemma OneRow(tickets: TicketTable, k: TicketKey, entry: ChannelEntry, sel: TicketSelector)
    requires sel == SelectorOfEntry(k.channel, entry).(index := Single(k.index), state := Some(Untouched))
    ensures var row := k.(epoch := entry.epoch);
      Selected(tickets, sel) == if row in tickets && tickets[row].status == Untouched then {row} else {}
  {
    var row := k.(epoch := entry.epoch);
    forall j | j in tickets && j.channel == k.channel && j.epoch == entry.epoch && j.index == k.index ensures j == row {
    }
  }

  lemma NothingRedeemable(channels: map<ChannelId, ChannelEntry>, tickets: TicketTable, onlyAggregated: bool)
    ensures Redeemable(channels, tickets, {}, onlyAggregated) == {}
  {
  }

  lemma DisjointChannels(
    channels: map<ChannelId, ChannelEntry>, tickets: TicketTable, done: set<ChannelId>, c: ChannelId, onlyAggregated: bool)
    requires c !in done
    ensures Redeemable(channels, tickets, done, onlyAggregated) !! Redeemable(channels, tickets, {c}, onlyAggregated)
  {
  }
}
