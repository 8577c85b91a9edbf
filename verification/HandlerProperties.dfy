/** What every log keeps, and the closed form of what it does to one channel and to the tickets. */
module HandlerProperties {
  import opened HoprTypes
  import opened TicketStore
  import opened Handlers

  function EntryOf(index: Index, c: ChannelId): Option<ChannelEntry> {
    if c in index.channels then Some(index.channels[c]) else None
  }

  predicate About(log: ContractLog, c: ChannelId) {
    IsChannelLog(log) && log.id == c
  }

  /** The channel table seen as one automaton per channel. */
  function NextEntry(me: Address, c: ChannelId, e: Option<ChannelEntry>, log: ContractLog): Option<ChannelEntry>
    requires About(log, c)
  {
    match e
    case None => if log.ChannelOpened? then Some(ChannelEntry(0, 0, Open, 1)) else None
    case Some(entry) =>
      match log
      case ChannelOpened(_) =>
        if entry.status == Closed then Some(entry.(ticketIndex := 0, epoch := entry.epoch + 1, status := Open)) else e
      case ChannelBalanceIncreased(_, b) => Some(entry.(balance := b))
      case ChannelBalanceDecreased(_, b) => Some(entry.(balance := b))
      case OutgoingChannelClosureInitiated(_, t) => Some(entry.(status := PendingToClose(t)))
      case ChannelClosed(_) =>
        if Own(c, me) then Some(entry.(status := Closed, balance := 0, ticketIndex := 0)) else None
      case TicketRedeemed(_, n) => Some(entry.(ticketIndex := n))
  }

  /** With disjoint ranges a redeem log matches at most one ticket, so the error for several is dead. */
  lemma AtMostOneMatch(tickets: TicketTable, id: ChannelId, entry: ChannelEntry, n: nat)
    requires RangesDisjoint(tickets)
    ensures |Matching(tickets, id, entry, n)| <= 1
  {
    var matching := Matching(tickets, id, entry, n);
    if matching != {} {
      var k :| k in matching;
      assert matching == {k};
    }
  }

  lemma EntryFollows(cfg: Config, index: Index, log: ContractLog, c: ChannelId)
    requires RangesDisjoint(index.store.tickets)
    ensures EntryOf(Apply(cfg, index, log), c)
         == if About(log, c) then NextEntry(cfg.me, c, EntryOf(index, c), log) else EntryOf(index, c)
  {
    if log.TicketRedeemed? && log.id in index.channels {
      AtMostOneMatch(index.store.tickets, log.id, index.channels[log.id], log.newTicketIndex);
    }
  }

  /** The rows a log removes. */
  function Removed(cfg: Config, index: Index, log: ContractLog): (keys: set<TicketKey>)
    ensures keys <= index.store.tickets.Keys
  {
    var tickets := index.store.tickets;
    match log
    case ChannelClosed(id) =>
      if id in index.channels && DirectionOf(id, cfg.me) == Some(Incoming) then
        OfEpoch(tickets, id, index.channels[id].epoch)
      else {}
    case ChannelOpened(id) =>
      if id in index.channels && index.channels[id].status == Closed && Own(id, cfg.me) then
        OfEpoch(tickets, id, index.channels[id].epoch)
      else {}
    case TicketRedeemed(id, n) =>
      if id in index.channels then
        set k | k in OfEpoch(tickets, id, index.channels[id].epoch) && k.index < n
      else {}
    case WinProbUpdated(o, n) =>
      if ApproxLess(o, n) then TooUnlikely(cfg.me, index.channels, tickets, n) else {}
    case _ => {}
  }

  function OfEpoch(tickets: TicketTable, c: ChannelId, epoch: nat): (keys: set<TicketKey>)
    ensures keys <= tickets.Keys
  {
    set k | k in tickets && k.channel == c && k.epoch == epoch
  }

  /** The ticket a redeem log settles: in redemption on this incoming channel, ending at the new index. */
  predicate Settles(cfg: Config, index: Index, id: ChannelId, n: nat, k: TicketKey) {
    && id in index.channels
    && DirectionOf(id, cfg.me) == Some(Incoming)
    && k in index.store.tickets
    && k.channel == id && k.epoch == index.channels[id].epoch
    && index.store.tickets[k].status == BeingRedeemed
    && k.index + index.store.tickets[k].offset == n
  }

  lemma SettledIsMatching(cfg: Config, index: Index, id: ChannelId, n: nat)
    requires RangesDisjoint(index.store.tickets)
    requires id in index.channels && DirectionOf(id, cfg.me) == Some(Incoming)
    ensures var matching := Matching(index.store.tickets, id, index.channels[id], n);
      && |matching| <= 1
      && (forall k :: Settles(cfg, index, id, n, k) <==> k in matching)
      && (forall k :: k in matching ==> matching == {k})
  {
    AtMostOneMatch(index.store.tickets, id, index.channels[id], n);
    forall k | k in Matching(index.store.tickets, id, index.channels[id], n)
      ensures Matching(index.store.tickets, id, index.channels[id], n) == {k}
    {
      assert {k} <= Matching(index.store.tickets, id, index.channels[id], n);
    }
  }

  lemma SelectorOfTicketIsUnique(tickets: TicketTable, k: TicketKey)
    requires k in tickets
    ensures Selected(tickets, SelectorOfTicket(k, tickets[k])) == {k}
    ensures Selected(tickets, SelectorOfRedeemable(k, tickets[k])) == {k}
  {
    forall j | j in tickets && j.channel == k.channel && j.epoch == k.epoch && j.index == k.index ensures j == k {
    }
    assert k in Selected(tickets, SelectorOfTicket(k, tickets[k]));
  }

  lemma SettlesIsSettled(cfg: Config, index: Index, id: ChannelId, n: nat)
    requires RangesDisjoint(index.store.tickets) && id in index.channels
    ensures forall k :: Settles(cfg, index, id, n, k) <==> SettledTicket(cfg.me, index, id, n) == Some(k)
    ensures OnRedeemed(cfg.me, index, id, n).outcome.Handled?
  {
    if DirectionOf(id, cfg.me) == Some(Incoming) {
      SettledIsMatching(cfg, index, id, n);
    }
  }

  lemma SettleClosedForm(store: Store, id: ChannelId, entry: ChannelEntry, n: nat, settled: Option<TicketKey>)
    requires RangesDisjoint(store.tickets)
    requires settled.Some? ==> settled.value in store.tickets
    ensures var below := set k | k in OfEpoch(store.tickets, id, entry.epoch) && k.index < n;
      Settle(store, id, entry, n, settled)
      == if settled.Some? then MarkKeys(MarkKeys(store, {settled.value}, Redeemed), below - {settled.value}, Neglected)
         else MarkKeys(store, below, Neglected)
  {
    var below := set k | k in OfEpoch(store.tickets, id, entry.epoch) && k.index < n;
    var sel := SelectorOfEntry(id, entry).(index := Below(n));
    if settled.Some? {
      SelectorOfTicketIsUnique(store.tickets, settled.value);
      assert Selected(store.tickets - {settled.value}, sel) == below - {settled.value};
    } else {
      assert Selected(store.tickets, sel) == below;
    }
  }

  lemma AllOnOneChannel(keys: set<TicketKey>, id: ChannelId, c: ChannelId)
    requires forall k :: k in keys ==> k.channel == id
    ensures OnChannel(keys, c) == if c == id then keys else {}
  {
  }

  /** The counters after some rows of one channel were redeemed and some others neglected. */
  lemma StatsAfterRedeem(store: Store, redeemed: set<TicketKey>, neglected: set<TicketKey>, id: ChannelId, c: ChannelId)
    requires redeemed <= store.tickets.Keys && neglected <= store.tickets.Keys && redeemed !! neglected
    requires forall k :: k in redeemed || k in neglected ==> k.channel == id
    ensures neglected <= MarkKeys(store, redeemed, Redeemed).tickets.Keys
    ensures var old', new' := StatsOf(store.stats, c),
                StatsOf(MarkKeys(MarkKeys(store, redeemed, Redeemed), neglected, Neglected).stats, c);
      new' == if c == id then
                Stats(old'.redeemed + Value(store.tickets, redeemed), old'.neglected + Value(store.tickets, neglected), old'.rejected)
              else old'
  {
    hide MarkKeys;
    var once := MarkKeys(store, redeemed, Redeemed);
    AllOnOneChannel(redeemed, id, c);
    AllOnOneChannel(neglected, id, c);
    StatsAfterMark(store, redeemed, Redeemed, c);
    StatsAfterMark(once, neglected, Neglected, c);
    ValueSame(store.tickets, once.tickets, neglected);
  }

  function SettledKeys(cfg: Config, index: Index, id: ChannelId, n: nat): (keys: set<TicketKey>)
    ensures keys <= index.store.tickets.Keys
  {
    set k | k in index.store.tickets && Settles(cfg, index, id, n, k)
  }

  lemma SettledKeysForm(cfg: Config, index: Index, id: ChannelId, n: nat)
    requires RangesDisjoint(index.store.tickets) && id in index.channels
    ensures var settled := SettledTicket(cfg.me, index, id, n);
      SettledKeys(cfg, index, id, n) == if settled.Some? then {settled.value} else {}
    ensures SettledKeys(cfg, index, id, n) <= Removed(cfg, index, TicketRedeemed(id, n))
  {
    SettlesIsSettled(cfg, index, id, n);
  }

  lemma RedeemedStore(cfg: Config, index: Index, id: ChannelId, n: nat)
    requires RangesDisjoint(index.store.tickets) && id in index.channels
    ensures var redeemed, below := SettledKeys(cfg, index, id, n), Removed(cfg, index, TicketRedeemed(id, n));
      && redeemed <= below
      && OnRedeemed(cfg.me, index, id, n).index.store
         == MarkKeys(MarkKeys(index.store, redeemed, Redeemed), below - redeemed, Neglected)
  {
    var store := index.store;
    var below := Removed(cfg, index, TicketRedeemed(id, n));
    SettlesIsSettled(cfg, index, id, n);
    SettledKeysForm(cfg, index, id, n);
    SettleClosedForm(store, id, index.channels[id].(ticketIndex := n), n, SettledTicket(cfg.me, index, id, n));
    MarkNothing(store, Redeemed);
    assert below - {} == below;
  }

  lemma RedeemedStats(cfg: Config, index: Index, id: ChannelId, n: nat, c: ChannelId)
    requires RangesDisjoint(index.store.tickets) && id in index.channels
    ensures var redeemed, below := SettledKeys(cfg, index, id, n), Removed(cfg, index, TicketRedeemed(id, n));
      var old' := StatsOf(index.store.stats, c);
      && redeemed <= below
      && StatsOf(OnRedeemed(cfg.me, index, id, n).index.store.stats, c)
         == if c == id then
              Stats(old'.redeemed + Value(index.store.tickets, redeemed),
                    old'.neglected + Value(index.store.tickets, below - redeemed), old'.rejected)
            else old'
  {
    hide MarkKeys;
    hide OnRedeemed;
    hide Value;
    var redeemed, below := SettledKeys(cfg, index, id, n), Removed(cfg, index, TicketRedeemed(id, n));
    RedeemedStore(cfg, index, id, n);
    StatsAfterRedeem(index.store, redeemed, below - redeemed, id, c);
  }

  /**
   A redeem log never hits the several-matches error. It redeems the at most one own ticket in redemption
   whose range ends at the new index, neglects exactly the other tickets of that channel and epoch with a
   smaller index, keeps all others, and touches the counters of no other channel.
   */
  lemma RedeemPartition(cfg: Config, index: Index, id: ChannelId, n: nat, c: ChannelId)
    requires RangesDisjoint(index.store.tickets) && id in index.channels
    ensures var redeemed := SettledKeys(cfg, index, id, n);
      var below := Removed(cfg, index, TicketRedeemed(id, n));
      var step := Process(cfg, index, TicketRedeemed(id, n));
      var old', new' := StatsOf(index.store.stats, c), StatsOf(step.index.store.stats, c);
      && |redeemed| <= 1 && redeemed <= below
      && step.outcome.Handled?
      && step.index.store.tickets == index.store.tickets - below
      && new' == if c == id then
           Stats(old'.redeemed + Value(index.store.tickets, redeemed),
                 old'.neglected + Value(index.store.tickets, below - redeemed), old'.rejected)
         else old'
  {
    hide OnRedeemed;
    hide Value;
    hide MarkKeys;
    hide Settles;
    SettlesIsSettled(cfg, index, id, n);
    SettledKeysForm(cfg, index, id, n);
    TicketsFollow(cfg, index, TicketRedeemed(id, n));
    RedeemedStats(cfg, index, id, n, c);
  }

  /** The rows a log settles as redeemed; the other rows it removes get the marker of its kind. */
  function Redeems(cfg: Config, index: Index, log: ContractLog): (keys: set<TicketKey>)
    ensures keys <= index.store.tickets.Keys
  {
    if log.TicketRedeemed? then SettledKeys(cfg, index, log.id, log.newTicketIndex) else {}
  }

  function MarkerOf(log: ContractLog): TicketMarker {
    if log.WinProbUpdated? then Rejected else Neglected
  }

  lemma RedeemsIsRemoved(cfg: Config, index: Index, log: ContractLog)
    requires RangesDisjoint(index.store.tickets)
    ensures Redeems(cfg, index, log) <= Removed(cfg, index, log)
  {
    if log.TicketRedeemed? && log.id in index.channels {
      SettledKeysForm(cfg, index, log.id, log.newTicketIndex);
    }
  }

  lemma MarkAsEpoch(store: Store, c: ChannelId, entry: ChannelEntry)
    ensures MarkAs(store, SelectorOfEntry(c, entry), Neglected)
         == MarkKeys(store, OfEpoch(store.tickets, c, entry.epoch), Neglected)
  {
    assert Selected(store.tickets, SelectorOfEntry(c, entry)) == OfEpoch(store.tickets, c, entry.epoch);
  }

  lemma StoreFollowsClosed(cfg: Config, index: Index, id: ChannelId)
    ensures OnClosed(cfg.me, index, id).index.store
         == MarkKeys(index.store, Removed(cfg, index, ChannelClosed(id)), Neglected)
  {
    hide CreditEach;
    MarkNothing(index.store, Neglected);
    if id in index.channels {
      MarkAsEpoch(index.store, id, index.channels[id].(status := Closed, balance := 0, ticketIndex := 0));
    }
  }

  lemma StoreFollowsOpened(cfg: Config, index: Index, id: ChannelId)
    ensures OnOpened(cfg.me, index, id).index.store
         == MarkKeys(index.store, Removed(cfg, index, ChannelOpened(id)), Neglected)
  {
    hide CreditEach;
    MarkNothing(index.store, Neglected);
    if id in index.channels {
      MarkAsEpoch(index.store, id, index.channels[id]);
    }
  }

  /** Every log is two markings of known rows: some redeemed, the rest neglected or rejected. */
  lemma StoreFollows(cfg: Config, index: Index, log: ContractLog)
    requires RangesDisjoint(index.store.tickets)
    ensures var redeemed, removed := Redeems(cfg, index, log), Removed(cfg, index, log);
      && redeemed <= removed
      && Apply(cfg, index, log).store
         == MarkKeys(MarkKeys(index.store, redeemed, Redeemed), removed - redeemed, MarkerOf(log))
  {
    hide CreditEach;
    hide OnClosed;
    hide OnOpened;
    hide OnRedeemed;
    MarkNothing(index.store, Redeemed);
    MarkNothing(index.store, Neglected);
    RedeemsIsRemoved(cfg, index, log);
    assert Removed(cfg, index, log) - {} == Removed(cfg, index, log);
    match log
    case ChannelClosed(id) => StoreFollowsClosed(cfg, index, id);
    case ChannelOpened(id) => StoreFollowsOpened(cfg, index, id);
    case TicketRedeemed(id, n) => StoreFollowsRedeemed(cfg, index, id, n);
    case WinProbUpdated(o, n) => MarkNothing(index.store, Rejected);
    case _ =>
  }

  lemma StoreFollowsRedeemed(cfg: Config, index: Index, id: ChannelId, n: nat)
    requires RangesDisjoint(index.store.tickets)
    ensures var redeemed, removed := SettledKeys(cfg, index, id, n), Removed(cfg, index, TicketRedeemed(id, n));
      && redeemed <= removed
      && OnRedeemed(cfg.me, index, id, n).index.store
         == MarkKeys(MarkKeys(index.store, redeemed, Redeemed), removed - redeemed, Neglected)
  {
    hide CreditEach;
    if id in index.channels {
      RedeemedStore(cfg, index, id, n);
    } else {
      MarkNothing(index.store, Redeemed);
      MarkNothing(index.store, Neglected);
      assert SettledKeys(cfg, index, id, n) == {};
      assert Removed(cfg, index, TicketRedeemed(id, n)) - {} == {};
    }
  }

  lemma TicketsFollow(cfg: Config, index: Index, log: ContractLog)
    requires RangesDisjoint(index.store.tickets)
    ensures Apply(cfg, index, log).store.tickets == index.store.tickets - Removed(cfg, index, log)
    ensures Removed(cfg, index, log) == {} ==> Apply(cfg, index, log).store == index.store
  {
    hide Apply;
    hide CreditEach;
    StoreFollows(cfg, index, log);
    MarkNothing(index.store, Redeemed);
    MarkNothing(index.store, MarkerOf(log));
    if Removed(cfg, index, log) == {} {
      assert Redeems(cfg, index, log) == {};
      assert Removed(cfg, index, log) - Redeems(cfg, index, log) == {};
    }
  }

  /** No log gains or loses ticket value on any channel. */
  lemma LogConservesValue(cfg: Config, index: Index, log: ContractLog, c: ChannelId)
    requires RangesDisjoint(index.store.tickets)
    ensures var after := Apply(cfg, index, log).store;
      LiveValue(after, c) + CountedValue(after.stats, c)
      == LiveValue(index.store, c) + CountedValue(index.store.stats, c)
  {
    hide Apply;
    hide LiveValue;
    hide CountedValue;
    StoreFollows(cfg, index, log);
    var redeemed, removed := Redeems(cfg, index, log), Removed(cfg, index, log);
    MarkConserves(index.store, redeemed, Redeemed, c);
    MarkConserves(MarkKeys(index.store, redeemed, Redeemed), removed - redeemed, MarkerOf(log), c);
  }

  /**
   What any log does to the counters of any channel, field by field: tickets it settles are redeemed, others it
   removes are rejected if it raises the minimum winning probability and neglected if it is about a channel.
   */
  lemma LogCounters(cfg: Config, index: Index, log: ContractLog, c: ChannelId)
    requires RangesDisjoint(index.store.tickets)
    ensures var settled, removed := Redeems(cfg, index, log), Removed(cfg, index, log);
      var old', new' := StatsOf(index.store.stats, c), StatsOf(Apply(cfg, index, log).store.stats, c);
      var others := Value(index.store.tickets, OnChannel(removed - settled, c));
      && new'.redeemed == old'.redeemed + Value(index.store.tickets, OnChannel(settled, c))
      && new'.neglected == old'.neglected + (if log.WinProbUpdated? then 0 else others)
      && new'.rejected == old'.rejected + (if log.WinProbUpdated? then others else 0)
  {
    hide Apply;
    hide Value;
    hide MarkKeys;
    hide Removed;
    hide Redeems;
    StoreFollows(cfg, index, log);
    var settled, removed := Redeems(cfg, index, log), Removed(cfg, index, log);
    var once := MarkKeys(index.store, settled, Redeemed);
    StatsAfterMark(index.store, settled, Redeemed, c);
    StatsAfterMark(once, removed - settled, MarkerOf(log), c);
    ValueSame(index.store.tickets, once.tickets, OnChannel(removed - settled, c));
  }

  // ---------- the minimum winning probability ----------

  /** The winning probability that a 7-byte encoding stands for, with 52 binary digits. */
  function Fraction(luck: nat): real {
    ((luck + 1) / 16) as real / 4503599627370496.0
  }

  /**
   Exactly if the minimum rises by more than a hundred-millionth, the tickets that now win too rarely are gone:
   those of the present epoch of a channel towards this node whose probability is below the new one. All other
   tickets stay, and if the minimum does not rise so far every ticket does.
   */
  lemma RaisedMinimumExactly(cfg: Config, index: Index, oldLuck: nat, newLuck: nat, k: TicketKey)
    requires RangesDisjoint(index.store.tickets) && k in index.store.tickets
    ensures var after := Apply(cfg, index, WinProbUpdated(oldLuck, newLuck)).store.tickets;
      && (k !in after <==>
            && Fraction(newLuck) - Fraction(oldLuck) > 0.00000001
            && k.channel in index.channels && k.channel.destination == cfg.me
            && k.epoch == index.channels[k.channel].epoch && index.store.tickets[k].winProb < newLuck)
      && (k in after ==> after[k] == index.store.tickets[k])
  {
    hide Apply;
    TicketsFollow(cfg, index, WinProbUpdated(oldLuck, newLuck));
    FractionsApart(oldLuck, newLuck);
    hide ApproxLess;
  }

  lemma FractionsApart(oldLuck: nat, newLuck: nat)
    ensures ApproxLess(oldLuck, newLuck) <==> Fraction(newLuck) - Fraction(oldLuck) > 0.00000001
  {
    var o, n := (oldLuck + 1) / 16, (newLuck + 1) / 16;
    assert Fraction(newLuck) - Fraction(oldLuck) == (n as real - o as real) / 4503599627370496.0;
    assert Fraction(newLuck) - Fraction(oldLuck) > 0.00000001 <==> n as real - o as real > 45035996.27370496;
    assert n as real - o as real == (n - o) as real;
  }

  // ---------- events ----------

  /** The kind of event a handled log about a channel gives. */
  predicate IsEventOf(log: ContractLog, event: ChainEvent) {
    match log
    case ChannelOpened(_) => event.OpenedEvent?
    case ChannelBalanceIncreased(_, _) => event.BalanceIncreasedEvent?
    case ChannelBalanceDecreased(_, _) => event.BalanceDecreasedEvent?
    case OutgoingChannelClosureInitiated(_, _) => event.ClosureInitiatedEvent?
    case ChannelClosed(_) => event.ClosedEvent?
    case TicketRedeemed(_, _) => event.TicketRedeemedEvent?
    case _ => false
  }

  /** Other logs give no event. Only one of a contract the node does not know fails, and it changes nothing. */
  lemma OtherLogsGiveNoEvent(cfg: Config, index: Index, log: ContractLog)
    requires !IsChannelLog(log)
    ensures var step := Process(cfg, index, log);
      if log.UnknownContract? then step == Step(index, Failed(UnknownContractAddress))
      else step.outcome == Handled(None) && step.index.channels == index.channels && step.index.outgoing == index.outgoing
  {
  }

  /** The one error a log about a channel meets besides the several matches that cannot occur. */
  function ChannelError(index: Index, log: ContractLog): Option<HandlerError>
    requires IsChannelLog(log)
  {
    if log.id in index.channels then
      if log.ChannelOpened? && index.channels[log.id].status != Closed then Some(ReopenOfUnclosedChannel) else None
    else
      if log.ChannelOpened? then None else Some(ChannelDoesNotExist)
  }

  /**
   A log about a channel fails exactly with that error. Else its event is of its kind, is about the channel and
   shows the entry as the table has it now, or had it last if the closing of a foreign channel removed it. Balance
   events carry the difference, redemptions the settled ticket.
   */
  lemma EventShowsEntry(cfg: Config, index: Index, log: ContractLog)
    requires RangesDisjoint(index.store.tickets) && IsChannelLog(log)
    ensures var step := Process(cfg, index, log);
      match ChannelError(index, log)
      case Some(error) => step.outcome == Failed(error)
      case None =>
        && step.outcome.Handled? && step.outcome.event.Some?
        && var event := step.outcome.event.value;
           && IsEventOf(log, event) && event.id == log.id
           && (if log.id in step.index.channels then event.entry == step.index.channels[log.id]
               else log.id in index.channels && event.entry == index.channels[log.id])
           && (log.ChannelBalanceIncreased? ==>
                 var before := index.channels[log.id].balance;
                 if before <= log.newBalance then before + event.diff == log.newBalance else event.diff == 0)
           && (log.ChannelBalanceDecreased? ==>
                 var before := index.channels[log.id].balance;
                 if before >= log.newBalance then before - event.diff == log.newBalance else event.diff == 0)
           && (log.TicketRedeemed? ==>
                 forall k :: Settles(cfg, index, log.id, log.newTicketIndex, k) <==> event.ticket == Some(k))
  {
    hide MarkAs;
    hide Settle;
    if log.TicketRedeemed? && log.id in index.channels {
      SettlesIsSettled(cfg, index, log.id, log.newTicketIndex);
      hide SettledTicket;
      hide Settles;
    }
  }

  /**
   Live tickets are current: each belongs to a channel towards this node, to its present epoch, and its
   index has not been passed by a redemption.
   */
  ghost predicate Current(cfg: Config, index: Index) {
    forall k :: k in index.store.tickets ==>
      && k.channel in index.channels
      && DirectionOf(k.channel, cfg.me) == Some(Incoming)
      && k.epoch == index.channels[k.channel].epoch
      && k.index >= index.channels[k.channel].ticketIndex
  }

  /** The index for the next ticket to issue is never behind what has been redeemed on the channel. */
  ghost predicate OutgoingAhead(cfg: Config, index: Index) {
    forall c :: c in index.channels && DirectionOf(c, cfg.me) == Some(Outgoing) ==>
      OutgoingIndex(index.outgoing, c) >= index.channels[c].ticketIndex
  }

  lemma RangesStayDisjoint(cfg: Config, index: Index, log: ContractLog)
    requires RangesDisjoint(index.store.tickets)
    ensures RangesDisjoint(Apply(cfg, index, log).store.tickets)
  {
    hide Apply;
    TicketsFollow(cfg, index, log);
  }

  lemma TicketsStayCurrent(cfg: Config, index: Index, log: ContractLog)
    requires RangesDisjoint(index.store.tickets) && Current(cfg, index)
    ensures Current(cfg, Apply(cfg, index, log))
  {
    hide Apply;
    var after := Apply(cfg, index, log);
    TicketsFollow(cfg, index, log);
    forall k | k in after.store.tickets
      ensures k.channel in after.channels && k.epoch == after.channels[k.channel].epoch
      ensures k.index >= after.channels[k.channel].ticketIndex
    {
      EntryFollows(cfg, index, log, k.channel);
    }
  }

  lemma OutgoingStaysAhead(cfg: Config, index: Index, log: ContractLog)
    requires RangesDisjoint(index.store.tickets) && OutgoingAhead(cfg, index)
    ensures OutgoingAhead(cfg, Apply(cfg, index, log))
  {
    hide MarkAs;
    hide MarkKeys;
    hide Settle;
    if log.TicketRedeemed? && log.id in index.channels {
      AtMostOneMatch(index.store.tickets, log.id, index.channels[log.id], log.newTicketIndex);
    }
  }

  // ---------- values kept once per node ----------

  function LastApproval(cfg: Config, logs: seq<ContractLog>): Option<nat> {
    if logs == [] then None
    else
      var last := logs[|logs| - 1];
      if last.Approval? && last.owner == cfg.safe && last.spender == cfg.channelsContract then Some(last.allowance)
      else LastApproval(cfg, logs[..|logs| - 1])
  }

  function LastWinProb(logs: seq<ContractLog>): Option<nat> {
    if logs == [] then None
    else
      var last := logs[|logs| - 1];
      if last.WinProbUpdated? then Some(last.newLuck) else LastWinProb(logs[..|logs| - 1])
  }

  /** The allowance is what the Safe last approved for the channels contract, the minimum what was last set. */
  lemma {:induction false} LastValuesStand(cfg: Config, index: Index, logs: seq<ContractLog>)
    ensures var after := ApplyAll(cfg, index, logs);
      && after.safeAllowance == (if LastApproval(cfg, logs).Some? then LastApproval(cfg, logs).value else index.safeAllowance)
      && after.minWinProb == (if LastWinProb(logs).Some? then LastWinProb(logs).value else index.minWinProb)
    decreases |logs|
  {
    if logs != [] {
      var front, last := logs[..|logs| - 1], logs[|logs| - 1];
      LastValuesStand(cfg, index, front);
      ValuesFollow(cfg, ApplyAll(cfg, index, front), last);
      hide Apply;
      assert logs == front + [last];
      ApplyAllConcat(cfg, index, front, [last]);
      assert [last][1..] == [];
      assert ApplyAll(cfg, ApplyAll(cfg, index, front), [last]) == Apply(cfg, ApplyAll(cfg, index, front), last);
    }
  }

  lemma ValuesFollow(cfg: Config, index: Index, log: ContractLog)
    ensures Apply(cfg, index, log).safeAllowance
         == if log.Approval? && log.owner == cfg.safe && log.spender == cfg.channelsContract then log.allowance else index.safeAllowance
    ensures Apply(cfg, index, log).minWinProb == if log.WinProbUpdated? then log.newLuck else index.minWinProb
  {
  }
}
