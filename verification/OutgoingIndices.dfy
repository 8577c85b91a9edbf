/**
 The outgoing ticket indices are kept in memory and written to disk now and then, and a value on disk is only
 ever raised. A process that starts again continues from the values on disk. What that changes is exactly the
 indices for which the logs it then sees neither reset the index nor raise it beyond both values.
 */
module OutgoingIndices {
  import opened HoprTypes
  import opened TicketStore
  import opened Handlers
  import opened HandlerProperties
  import opened LedgerRefinement
  import opened CrashReplay

  // ---------- the values on disk ----------

  /** Writing to disk raises every row that is behind the value in memory and lowers none. */
  function Flush(persisted: map<ChannelId, nat>, cache: map<ChannelId, nat>): map<ChannelId, nat> {
    map c | c in persisted.Keys + cache.Keys ::
      if OutgoingIndex(cache, c) > OutgoingIndex(persisted, c) then OutgoingIndex(cache, c) else OutgoingIndex(persisted, c)
  }

  function FlushAll(persisted: map<ChannelId, nat>, caches: seq<map<ChannelId, nat>>): map<ChannelId, nat>
    decreases |caches|
  {
    if caches == [] then persisted else FlushAll(Flush(persisted, caches[0]), caches[1..])
  }

  /** Whenever it was written, a value on disk is the largest one ever written, so a reset never gets there. */
  lemma {:induction false} DiskHoldsTheLargest(persisted: map<ChannelId, nat>, caches: seq<map<ChannelId, nat>>, c: ChannelId)
    ensures var p := OutgoingIndex(FlushAll(persisted, caches), c);
      && p >= OutgoingIndex(persisted, c)
      && (forall i :: 0 <= i < |caches| ==> p >= OutgoingIndex(caches[i], c))
      && (p == OutgoingIndex(persisted, c) || exists i :: 0 <= i < |caches| && p == OutgoingIndex(caches[i], c))
    decreases |caches|
  {
    if caches != [] {
      var next := Flush(persisted, caches[0]);
      DiskHoldsTheLargest(next, caches[1..], c);
      assert forall i :: 0 < i < |caches| ==> caches[i] == caches[1..][i - 1];
      var p := OutgoingIndex(FlushAll(persisted, caches), c);
      if p != OutgoingIndex(next, c) {
        var i :| 0 <= i < |caches| - 1 && p == OutgoingIndex(caches[1..][i], c);
        assert p == OutgoingIndex(caches[i + 1], c);
      }
    }
  }

  // ---------- what logs do to one index ----------

  // What a sequence of logs does to one outgoing index: it sets it, or raises it to a bound if there is one.
  datatype OutForm = Sets(value: nat) | Raises(bound: Option<nat>)

  function Larger(o: Option<nat>, n: nat): nat {
    if o.Some? && o.value >= n then o.value else n
  }

  function Through(f: OutForm, o: Option<nat>): Option<nat> {
    match f
    case Sets(v) => Some(v)
    case Raises(None) => o
    case Raises(Some(n)) => Some(Larger(o, n))
  }

  function Then(f: OutForm, g: OutForm): OutForm {
    match g
    case Sets(_) => g
    case Raises(None) => f
    case Raises(Some(n)) => (
      match f
      case Sets(v) => Sets(Larger(Some(v), n))
      case Raises(m) => Raises(Some(Larger(m, n))))
  }

  lemma ThenThrough(f: OutForm, g: OutForm, o: Option<nat>)
    ensures Through(Then(f, g), o) == Through(g, Through(f, o))
  {
  }

  function FormOf(me: Address, c: ChannelId, e: Option<ChannelEntry>, log: ContractLog): OutForm {
    if !About(log, c) || e.None? then Raises(None)
    else
      match log
      case ChannelOpened(_) => if Own(c, me) && e.value.status == Closed then Sets(0) else Raises(None)
      case ChannelClosed(_) => if DirectionOf(c, me) == Some(Outgoing) then Sets(0) else Raises(None)
      case TicketRedeemed(_, n) => if DirectionOf(c, me) == Some(Outgoing) then Raises(Some(n)) else Raises(None)
      case _ => Raises(None)
  }

  function FormAfter(me: Address, c: ChannelId, e: Option<ChannelEntry>, logs: seq<ContractLog>): OutForm
    decreases |logs|
  {
    if logs == [] then Raises(None)
    else Then(FormOf(me, c, e, logs[0]), FormAfter(me, c, Seen(me, c, e, logs[0]), logs[1..]))
  }

  lemma {:induction false} OutIsForm(me: Address, c: ChannelId, e: Option<ChannelEntry>, o: Option<nat>, logs: seq<ContractLog>)
    ensures OutAfter(me, c, e, o, logs) == Through(FormAfter(me, c, e, logs), o)
    decreases |logs|
  {
    if logs != [] {
      var e', o' := Seen(me, c, e, logs[0]), NextOut(me, c, e, o, logs[0]);
      assert o' == Through(FormOf(me, c, e, logs[0]), o);
      ThenThrough(FormOf(me, c, e, logs[0]), FormAfter(me, c, e', logs[1..]), o);
      OutIsForm(me, c, e', o', logs[1..]);
    }
  }

  lemma FormIsIdempotent(f: OutForm, o: Option<nat>)
    ensures Through(f, Through(f, o)) == Through(f, o)
  {
  }

  lemma {:induction false} OutAfterConcat(
    me: Address, c: ChannelId, e: Option<ChannelEntry>, o: Option<nat>, a: seq<ContractLog>, b: seq<ContractLog>)
    ensures OutAfter(me, c, e, o, a + b) == OutAfter(me, c, EntryAfter(me, c, e, a), OutAfter(me, c, e, o, a), b)
    decreases |a|
  {
    if a == [] {
      assert a + b == b;
    } else {
      assert (a + b)[1..] == a[1..] + b;
      OutAfterConcat(me, c, Seen(me, c, e, a[0]), NextOut(me, c, e, o, a[0]), a[1..], b);
    }
  }

  /** Starting again from a value reached on the way makes no difference. */
  lemma OutRestarts(me: Address, c: ChannelId, e: Option<ChannelEntry>, o: Option<nat>, a: seq<ContractLog>, b: seq<ContractLog>)
    ensures OutAfter(me, c, e, OutAfter(me, c, e, o, a), a + b) == OutAfter(me, c, e, o, a + b)
  {
    var reached := OutAfter(me, c, e, o, a);
    OutAfterConcat(me, c, e, o, a, b);
    OutAfterConcat(me, c, e, reached, a, b);
    OutIsForm(me, c, e, o, a);
    OutIsForm(me, c, e, reached, a);
    FormIsIdempotent(FormAfter(me, c, e, a), o);
  }

  // ---------- starting again from the values on disk ----------

  function Reloaded(index: Index, persisted: map<ChannelId, nat>): Index {
    index.(outgoing := persisted)
  }

  predicate SameButOutgoing(x: Index, y: Index) {
    Reloaded(x, map[]) == Reloaded(y, map[])
  }

  lemma OutgoingIsIsolated(cfg: Config, x: Index, y: Index, log: ContractLog)
    requires SameButOutgoing(x, y)
    ensures SameButOutgoing(Apply(cfg, x, log), Apply(cfg, y, log))
  {
    hide MarkAs;
    hide MarkKeys;
    hide Settle;
    assert Reloaded(x, y.outgoing) == y;
  }

  lemma {:induction false} OutgoingStaysIsolated(cfg: Config, x: Index, y: Index, logs: seq<ContractLog>)
    requires SameButOutgoing(x, y)
    ensures SameButOutgoing(ApplyAll(cfg, x, logs), ApplyAll(cfg, y, logs))
    decreases |logs|
  {
    hide Apply;
    hide SameButOutgoing;
    if logs != [] {
      OutgoingIsIsolated(cfg, x, y, logs[0]);
      OutgoingStaysIsolated(cfg, Apply(cfg, x, logs[0]), Apply(cfg, y, logs[0]), logs[1..]);
    }
  }

  function Bound(f: OutForm): nat {
    if f.Raises? && f.bound.Some? then f.bound.value else 0
  }

  /** The logs reset the index, or they raise the value on disk and the one in memory to the same. */
  predicate Recovers(f: OutForm, persisted: nat, cached: nat) {
    f.Sets? || Larger(Some(persisted), Bound(f)) == Larger(Some(cached), Bound(f))
  }

  lemma OutgoingThrough(cfg: Config, index: Index, logs: seq<ContractLog>, c: ChannelId)
    requires RangesDisjoint(index.store.tickets)
    ensures var f := FormAfter(cfg.me, c, EntryOf(index, c), logs);
      OutgoingIndex(ApplyAll(cfg, index, logs).outgoing, c) ==
        if f.Sets? then f.value else Larger(Some(OutgoingIndex(index.outgoing, c)), Bound(f))
  {
    hide ApplyAll;
    OutFollowsAll(cfg, index, logs, c);
    OutIsForm(cfg.me, c, EntryOf(index, c), OutOf(index, c), logs);
  }

  /**
   Losing the memory changes nothing but outgoing indices, and after the given logs an index is as it would
   have been exactly if the logs made up for the loss.
   */
  lemma ReloadExactly(cfg: Config, index: Index, persisted: map<ChannelId, nat>, logs: seq<ContractLog>)
    requires RangesDisjoint(index.store.tickets)
    ensures var lost, kept := ApplyAll(cfg, Reloaded(index, persisted), logs), ApplyAll(cfg, index, logs);
      && SameButOutgoing(lost, kept)
      && forall c :: OutgoingIndex(lost.outgoing, c) == OutgoingIndex(kept.outgoing, c) <==>
           Recovers(FormAfter(cfg.me, c, EntryOf(index, c), logs), OutgoingIndex(persisted, c), OutgoingIndex(index.outgoing, c))
  {
    var lost, kept := ApplyAll(cfg, Reloaded(index, persisted), logs), ApplyAll(cfg, index, logs);
    OutgoingStaysIsolated(cfg, Reloaded(index, persisted), index, logs);
    hide ApplyAll;
    forall c ensures OutgoingIndex(lost.outgoing, c) == OutgoingIndex(kept.outgoing, c) <==>
      Recovers(FormAfter(cfg.me, c, EntryOf(index, c), logs), OutgoingIndex(persisted, c), OutgoingIndex(index.outgoing, c))
    {
      OutgoingThrough(cfg, Reloaded(index, persisted), logs, c);
      OutgoingThrough(cfg, index, logs, c);
    }
  }

  // ---------- the combined effect in terms of the logs ----------

  /** Some log finds the channel known and closes it, or finds it known and closed and opens it. */
  predicate Resets(me: Address, c: ChannelId, e: Option<ChannelEntry>, logs: seq<ContractLog>)
    decreases |logs|
  {
    logs != [] && (
      (e.Some? && ((logs[0] == ChannelClosed(c)) || (logs[0] == ChannelOpened(c) && e.value.status == Closed)))
      || Resets(me, c, Seen(me, c, e, logs[0]), logs[1..]))
  }

  function HighestRedeemed(logs: seq<ContractLog>, c: ChannelId): nat {
    if logs == [] then 0
    else
      var rest := HighestRedeemed(logs[1..], c);
      if logs[0].TicketRedeemed? && logs[0].id == c && logs[0].newTicketIndex > rest then logs[0].newTicketIndex else rest
  }

  /** For a known own outgoing channel the effect is a reset, or else a raise to the highest index redeemed. */
  lemma {:induction false} FormOfKnown(me: Address, c: ChannelId, e: Option<ChannelEntry>, logs: seq<ContractLog>)
    requires DirectionOf(c, me) == Some(Outgoing) && e.Some?
    ensures var f := FormAfter(me, c, e, logs);
      && (f.Sets? <==> Resets(me, c, e, logs))
      && (f.Raises? ==> Bound(f) == HighestRedeemed(logs, c))
    decreases |logs|
  {
    if logs != [] {
      FormOfKnown(me, c, Seen(me, c, e, logs[0]), logs[1..]);
    }
  }
}
