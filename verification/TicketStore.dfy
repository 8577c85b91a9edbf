/**
 The ticket table and the per-channel value counters, with the selector language the rest of the node
 uses to address rows. A row is keyed by channel, epoch and index, which the table keeps unique.
 */
module TicketStore {
  import opened HoprTypes

  datatype TicketKey = TicketKey(channel: ChannelId, epoch: nat, index: nat)

  datatype TicketStatus = Untouched | BeingRedeemed | BeingAggregated

  // `offset` is the number of indices the ticket covers: 1 unless it is an aggregate.
  datatype Ticket = Ticket(offset: nat, amount: nat, winProb: nat, status: TicketStatus)

  type TicketTable = map<TicketKey, Ticket>

  datatype Stats = Stats(redeemed: nat, neglected: nat, rejected: nat)

  datatype Store = Store(tickets: TicketTable, stats: map<ChannelId, Stats>)

  datatype TicketMarker = Redeemed | Neglected | Rejected

  datatype IndexRange = AnyIndex | Single(index: nat) | Below(bound: nat) | AtLeast(bound: nat)

  datatype TicketSelector = TicketSelector(
    identifiers: seq<(ChannelId, nat)>,
    index: IndexRange,
    winProbBelow: Option<nat>,
    state: Option<TicketStatus>,
    onlyAggregated: bool)
  {
    function JustOn(identifier: (ChannelId, nat)): TicketSelector {
      this.(identifiers := [identifier])
    }
  }

  function NewSelector(channel: ChannelId, epoch: nat): TicketSelector {
    TicketSelector([(channel, epoch)], AnyIndex, None, None, false)
  }

  function SelectorOfEntry(c: ChannelId, entry: ChannelEntry): TicketSelector {
    NewSelector(c, entry.epoch)
  }

  // The selector of one acknowledged ticket, which includes its status.
  function SelectorOfTicket(k: TicketKey, t: Ticket): TicketSelector {
    TicketSelector([(k.channel, k.epoch)], Single(k.index), None, Some(t.status), t.offset > 1)
  }

  // The selector of a redeemable ticket, which has no status any more.
  function SelectorOfRedeemable(k: TicketKey, t: Ticket): TicketSelector {
    TicketSelector([(k.channel, k.epoch)], Single(k.index), None, None, t.offset > 1)
  }

  predicate InRange(index: nat, range: IndexRange) {
    match range
    case AnyIndex => true
    case Single(i) => index == i
    case Below(b) => index < b
    case AtLeast(b) => b <= index
  }

  predicate Selects(sel: TicketSelector, k: TicketKey, t: Ticket) {
    && (k.channel, k.epoch) in sel.identifiers
    && InRange(k.index, sel.index)
    && (sel.winProbBelow.Some? ==> t.winProb < sel.winProbBelow.value)
    && (sel.state.Some? ==> t.status == sel.state.value)
    && (sel.onlyAggregated ==> t.offset > 1)
  }

  function Selected(tickets: TicketTable, sel: TicketSelector): (keys: set<TicketKey>)
    ensures keys <= tickets.Keys
  {
    set k | k in tickets && Selects(sel, k, tickets[k])
  }

  /** The total amount of the given rows. */
  ghost function Value(tickets: TicketTable, keys: set<TicketKey>): nat
    requires keys <= tickets.Keys
  {
    if keys == {} then 0
    else
      var k :| k in keys;
      tickets[k].amount + Value(tickets, keys - {k})
  }

  lemma {:induction false} ValueRemove(tickets: TicketTable, keys: set<TicketKey>, k: TicketKey)
    requires keys <= tickets.Keys && k in keys
    ensures Value(tickets, keys) == tickets[k].amount + Value(tickets, keys - {k})
    decreases keys
  {
    var j :| j in keys && Value(tickets, keys) == tickets[j].amount + Value(tickets, keys - {j});
    if j != k {
      ValueRemove(tickets, keys - {j}, k);
      ValueRemove(tickets, keys - {k}, j);
      assert keys - {j} - {k} == keys - {k} - {j};
    }
  }

  lemma {:induction false} ValueUnion(tickets: TicketTable, a: set<TicketKey>, b: set<TicketKey>)
    requires a <= tickets.Keys && b <= tickets.Keys && a !! b
    ensures Value(tickets, a + b) == Value(tickets, a) + Value(tickets, b)
    decreases a
  {
    if a == {} {
      assert a + b == b;
    } else {
      var k :| k in a;
      ValueUnion(tickets, a - {k}, b);
      ValueRemove(tickets, a, k);
      ValueRemove(tickets, a + b, k);
      assert a + b - {k} == (a - {k}) + b;
    }
  }

  /** The value depends on nothing but the amounts of the selected rows. */
  lemma {:induction false} ValueSame(t0: TicketTable, t1: TicketTable, keys: set<TicketKey>)
    requires keys <= t0.Keys && keys <= t1.Keys
    requires forall k :: k in keys ==> t0[k].amount == t1[k].amount
    ensures Value(t0, keys) == Value(t1, keys)
    decreases keys
  {
    if keys != {} {
      var k :| k in keys;
      ValueSame(t0, t1, keys - {k});
      ValueRemove(t0, keys, k);
      ValueRemove(t1, keys, k);
    }
  }

  function StatsOf(stats: map<ChannelId, Stats>, c: ChannelId): Stats {
    if c in stats then stats[c] else Stats(0, 0, 0)
  }

  /** Counters with a value added to the one of the marker. */
  function Credited(s: Stats, marker: TicketMarker, value: nat): (r: Stats)
    ensures r.redeemed == s.redeemed + if marker == Redeemed then value else 0
    ensures r.neglected == s.neglected + if marker == Neglected then value else 0
    ensures r.rejected == s.rejected + if marker == Rejected then value else 0
  {
    match marker
    case Redeemed => s.(redeemed := s.redeemed + value)
    case Neglected => s.(neglected := s.neglected + value)
    case Rejected => s.(rejected := s.rejected + value)
  }

  function OnChannel(keys: set<TicketKey>, c: ChannelId): (r: set<TicketKey>)
    ensures r <= keys
  {
    set k | k in keys && k.channel == c
  }

  function ChannelsOf(keys: set<TicketKey>): set<ChannelId> {
    set k | k in keys :: k.channel
  }

  ghost function CreditEach(store: Store, keys: set<TicketKey>, marker: TicketMarker): map<ChannelId, Stats>
    requires keys <= store.tickets.Keys
  {
    map c | c in store.stats.Keys + ChannelsOf(keys) ::
      Credited(StatsOf(store.stats, c), marker, Value(store.tickets, OnChannel(keys, c)))
  }

  /** Removes the given rows and credits, channel by channel, their value to the marker's counter. */
  ghost function MarkKeys(store: Store, keys: set<TicketKey>, marker: TicketMarker): Store
    requires keys <= store.tickets.Keys
  {
    Store(store.tickets - keys, CreditEach(store, keys, marker))
  }

  /** `mark_tickets_as`: whatever the selector picks is removed and accounted for. */
  ghost function MarkAs(store: Store, sel: TicketSelector, marker: TicketMarker): Store {
    MarkKeys(store, Selected(store.tickets, sel), marker)
  }

  lemma StatsAfterMark(store: Store, keys: set<TicketKey>, marker: TicketMarker, c: ChannelId)
    requires keys <= store.tickets.Keys
    ensures MarkKeys(store, keys, marker).tickets == store.tickets - keys
    ensures StatsOf(MarkKeys(store, keys, marker).stats, c)
         == Credited(StatsOf(store.stats, c), marker, Value(store.tickets, OnChannel(keys, c)))
  {
    if c !in ChannelsOf(keys) {
      assert OnChannel(keys, c) == {};
    }
  }

  lemma MarkNothing(store: Store, marker: TicketMarker)
    ensures MarkKeys(store, {}, marker) == store
  {
    var r := MarkKeys(store, {}, marker);
    assert r.stats.Keys == store.stats.Keys;
    forall c | c in store.stats ensures r.stats[c] == store.stats[c] {
      assert OnChannel({}, c) == {};
    }
    assert r.stats == store.stats;
  }

  lemma StatsAfterMarkTwice(store: Store, a: set<TicketKey>, b: set<TicketKey>, marker: TicketMarker, c: ChannelId)
    requires a <= store.tickets.Keys && b <= store.tickets.Keys && a !! b
    ensures b <= MarkKeys(store, a, marker).tickets.Keys
    ensures StatsOf(MarkKeys(MarkKeys(store, a, marker), b, marker).stats, c)
         == StatsOf(MarkKeys(store, a + b, marker).stats, c)
  {
    var once := MarkKeys(store, a, marker);
    var onA, onB := OnChannel(a, c), OnChannel(b, c);
    assert OnChannel(a + b, c) == onA + onB;
    ValueUnion(store.tickets, onA, onB);
    ValueSame(store.tickets, once.tickets, onB);
    StatsAfterMark(store, a, marker, c);
    StatsAfterMark(once, b, marker, c);
    StatsAfterMark(store, a + b, marker, c);
  }

  /** Marking in two goes is marking at once, so a selector's channels may be visited in any order. */
  lemma MarkTwice(store: Store, a: set<TicketKey>, b: set<TicketKey>, marker: TicketMarker)
    requires a <= store.tickets.Keys && b <= store.tickets.Keys && a !! b
    ensures b <= MarkKeys(store, a, marker).tickets.Keys
    ensures MarkKeys(MarkKeys(store, a, marker), b, marker) == MarkKeys(store, a + b, marker)
  {
    hide Value;
    var once := MarkKeys(store, a, marker);
    var twice, both := MarkKeys(once, b, marker), MarkKeys(store, a + b, marker);
    assert twice.tickets == both.tickets;
    assert twice.stats.Keys == both.stats.Keys by {
      assert ChannelsOf(a + b) == ChannelsOf(a) + ChannelsOf(b);
    }
    forall c | c in both.stats.Keys ensures twice.stats[c] == both.stats[c] {
      StatsAfterMarkTwice(store, a, b, marker, c);
    }
  }

  ghost function LiveValue(store: Store, c: ChannelId): nat {
    Value(store.tickets, OnChannel(store.tickets.Keys, c))
  }

  ghost function CountedValue(stats: map<ChannelId, Stats>, c: ChannelId): nat {
    var s := StatsOf(stats, c);
    s.redeemed + s.neglected + s.rejected
  }

  /** Marking moves value from the live tickets to the counters and loses none, on every channel. */
  lemma MarkConserves(store: Store, keys: set<TicketKey>, marker: TicketMarker, c: ChannelId)
    requires keys <= store.tickets.Keys
    ensures var r := MarkKeys(store, keys, marker);
      LiveValue(r, c) + CountedValue(r.stats, c) == LiveValue(store, c) + CountedValue(store.stats, c)
  {
    var r := MarkKeys(store, keys, marker);
    var gone, left := OnChannel(keys, c), OnChannel(r.tickets.Keys, c);
    assert OnChannel(store.tickets.Keys, c) == gone + left;
    ValueUnion(store.tickets, gone, left);
    ValueSame(store.tickets, r.tickets, left);
    StatsAfterMark(store, keys, marker, c);
  }

  /** What the issuers and the aggregation guarantee about index ranges. */
  ghost predicate RangesDisjoint(tickets: TicketTable) {
    && (forall k :: k in tickets ==> tickets[k].offset >= 1)
    && (forall j, k :: j in tickets && k in tickets && j != k && j.channel == k.channel && j.epoch == k.epoch ==>
          j.index + tickets[j].offset <= k.index || k.index + tickets[k].offset <= j.index)
  }
}
