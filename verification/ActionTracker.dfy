/**
 The table of expectations that tie submitted transactions to the events the indexer derives from them.
 Matching an event takes two steps, a scan under the read lock and a resolution under the write lock, and
 anything may happen to the table in between.
 */
module ActionTracker {
  import opened HoprTypes
  import opened Handlers

  type Hash = nat

  datatype Event = Event(txHash: Hash, kind: ChainEvent)

  datatype Expectation = Expectation(txHash: Hash, accepts: ChainEvent -> bool)

  predicate Test(exp: Expectation, event: Event) {
    event.txHash == exp.txHash && exp.accepts(event.kind)
  }

  // The sending end of the channel on which the registrant waits is part of the row.
  datatype Slot = Slot(exp: Expectation, channel: nat)

  // `delivered` and `gone` are the channels: what was sent on each, and whose receiver no longer exists.
  datatype Tracker = Tracker(table: map<Hash, Slot>, delivered: map<nat, Event>, gone: set<nat>)

  function MatchedKeys(t: Tracker, event: Event): (keys: set<Hash>)
    ensures keys <= t.table.Keys
  {
    set h | h in t.table && Test(t.table[h].exp, event)
  }

  function Receivers(t: Tracker, keys: set<Hash>): set<nat> {
    set h | h in keys && h in t.table && t.table[h].channel !in t.gone :: t.table[h].channel
  }

  // The rows under the given keys go, and their registrants get the event unless they have left.
  function Resolved(t: Tracker, keys: set<Hash>, event: Event): Tracker {
    Tracker(
      t.table - keys,
      map c | c in t.delivered.Keys + Receivers(t, keys) :: if c in Receivers(t, keys) then event else t.delivered[c],
      t.gone)
  }

  function Registered(t: Tracker, exp: Expectation, channel: nat): Tracker {
    t.(table := t.table[exp.txHash := Slot(exp, channel)])
  }

  function Unregistered(t: Tracker, h: Hash): Tracker {
    t.(table := t.table - {h})
  }

  /** Every row is kept under the hash of its expectation. */
  ghost predicate Keyed(t: Tracker) {
    forall h :: h in t.table ==> t.table[h].exp.txHash == h
  }

  /** Scanning the whole table finds at most one expectation, the one a single lookup would find. */
  lemma ScanIsLookup(t: Tracker, event: Event)
    requires Keyed(t)
    ensures var h := event.txHash;
      MatchedKeys(t, event) == if h in t.table && Test(t.table[h].exp, event) then {h} else {}
  {
  }

  lemma ResolvedOneMore(t: Tracker, keys: set<Hash>, h: Hash, event: Event)
    ensures Resolved(Resolved(t, keys, event), {h}, event) == Resolved(t, keys + {h}, event)
  {
    var once := Resolved(t, keys, event);
    var twice, both := Resolved(once, {h}, event), Resolved(t, keys + {h}, event);
    assert Receivers(t, keys + {h}) == Receivers(t, keys) + Receivers(once, {h});
    hide Receivers;
    assert twice.table == both.table;
    assert twice.delivered == both.delivered;
  }

  lemma ResolvedNone(t: Tracker, event: Event)
    ensures Resolved(t, {}, event) == t
  {
  }

  /** Resolving one key removes its row and sends the event to whoever still listens. */
  lemma ResolvedOne(t: Tracker, h: Hash, event: Event)
    ensures Resolved(t, {h}, event) ==
      if h !in t.table then t
      else if t.table[h].channel in t.gone then t.(table := t.table - {h})
      else t.(table := t.table - {h}, delivered := t.delivered[t.table[h].channel := event])
  {
  }

  function KeySet(keys: seq<Hash>): set<Hash> {
    set h | h in keys
  }

  ghost predicate Distinct(keys: seq<Hash>) {
    forall i, j :: 0 <= i < j < |keys| ==> keys[i] != keys[j]
  }

  /** The expectations under the given keys whose registrant still listens. */
  function ResolvedExpectations(t: Tracker, keys: seq<Hash>): seq<Expectation> {
    if keys == [] then []
    else
      var h := keys[|keys| - 1];
      ResolvedExpectations(t, keys[..|keys| - 1])
      + if h in t.table && t.table[h].channel !in t.gone then [t.table[h].exp] else []
  }

  lemma UntouchedYet(t: Tracker, keys: seq<Hash>, i: nat, event: Event)
    requires Distinct(keys) && i < |keys|
    ensures var now := Resolved(t, KeySet(keys[..i]), event);
      && (keys[i] in now.table <==> keys[i] in t.table)
      && (keys[i] in t.table ==> now.table[keys[i]] == t.table[keys[i]])
      && now.gone == t.gone
  {
    assert keys[i] !in keys[..i];
  }

  class IndexerActionTracker {
    var expectations: map<Hash, Slot>
    var delivered: map<nat, Event>
    var gone: set<nat>

    constructor ()
      ensures State() == Tracker(map[], map[], {})
    {
      expectations, delivered, gone := map[], map[], {};
    }

    function State(): Tracker
      reads this
    {
      Tracker(expectations, delivered, gone)
    }

    method ScanForMatches(event: Event) returns (keys: seq<Hash>)
      ensures KeySet(keys) == MatchedKeys(State(), event) && Distinct(keys)
    {
      keys := [];
      var rest := expectations.Keys;
      while rest != {}
        invariant rest <= expectations.Keys
        invariant forall h :: h in keys <==> h in MatchedKeys(State(), event) && h !in rest
        invariant Distinct(keys)
        decreases rest
      {
        var h :| h in rest;
        rest := rest - {h};
        if Test(expectations[h].exp, event) {
          keys := keys + [h];
        }
      }
    }

    method ResolveMatches(keys: seq<Hash>, event: Event) returns (resolved: seq<Expectation>)
      modifies this`expectations, this`delivered
      ensures State() == Resolved(old(State()), KeySet(keys), event)
      ensures Distinct(keys) ==> resolved == ResolvedExpectations(old(State()), keys)
    {
      hide Resolved;
      hide Distinct;
      resolved := [];
      ghost var start := State();
      ResolvedNone(start, event);
      assert KeySet(keys[..0]) == {};
      for i := 0 to |keys|
        invariant gone == start.gone
        invariant State() == Resolved(start, KeySet(keys[..i]), event)
        invariant Distinct(keys) ==> resolved == ResolvedExpectations(start, keys[..i])
      {
        var h := keys[i];
        assert keys[..i + 1] == keys[..i] + [h];
        assert KeySet(keys[..i + 1]) == KeySet(keys[..i]) + {h};
        ResolvedOneMore(start, KeySet(keys[..i]), h, event);
        ResolvedOne(State(), h, event);
        if Distinct(keys) { UntouchedYet(start, keys, i, event); }
        if h in expectations {
          var slot := expectations[h];
          expectations := expectations - {h};
          if slot.channel !in gone {
            delivered := delivered[slot.channel := event];
            resolved := resolved + [slot.exp];
          }
        }
      }
      assert keys[..|keys|] == keys;
    }

    method RegisterExpectation(exp: Expectation, channel: nat) returns (accepted: bool)
      modifies this`expectations
      ensures accepted <==> exp.txHash !in old(expectations)
      ensures State() == if accepted then Registered(old(State()), exp, channel) else old(State())
    {
      accepted := exp.txHash !in expectations;
      if accepted {
        expectations := expectations[exp.txHash := Slot(exp, channel)];
      }
    }

    method UnregisterExpectation(h: Hash)
      modifies this`expectations
      ensures State() == Unregistered(old(State()), h)
    {
      expectations := expectations - {h};
    }
  }

  // ---------- all interleavings ----------

  datatype Failure = TimedOut | RemovedBeforeResolving

  // The stages of one execution of an action, from the submitted transaction on.
  datatype Phase =
    | Submitted
    | Refused
    | Waiting
    | Leaving(failure: Failure)     // about to remove its own row
    | GivenUp(failure: Failure)
    | Confirmed(event: Event)
    | Aborted                       // its task is gone, its row may not be

  datatype Execution = Execution(exp: Expectation, phase: Phase)

  datatype Matcher = Matcher(event: Event, keys: set<Hash>)

  // What became of a row that left the table.
  datatype Fate = ResolvedBy(event: Event) | Dropped | Removed

  datatype System = System(
    tracker: Tracker,
    executions: map<nat, Execution>,   // execution a waits on channel a
    matchers: map<nat, Matcher>,       // scans whose resolution is outstanding
    fates: map<nat, Fate>)             // by channel

  datatype TrackerStep =
    | Submit(a: nat, exp: Expectation)
    | Register(a: nat)
    | Scan(m: nat, event: Event)
    | Resolve(m: nat)
    | Confirm(a: nat)
    | TimeOut(a: nat)
    | NoticeRemoval(a: nat)
    | Unregister(a: nat)
    | Abort(a: nat)

  function HasRow(t: Tracker, exp: Expectation, a: nat): bool {
    exp.txHash in t.table && t.table[exp.txHash].channel == a
  }

  predicate Enabled(s: System, step: TrackerStep) {
    match step
    case Submit(a, _) => a !in s.executions
    case Register(a) => a in s.executions && s.executions[a].phase == Submitted
    case Scan(m, _) => m !in s.matchers
    case Resolve(m) => m in s.matchers
    case Confirm(a) => a in s.executions && s.executions[a].phase == Waiting && a in s.tracker.delivered
    case TimeOut(a) => a in s.executions && s.executions[a].phase == Waiting && a !in s.tracker.delivered
    case NoticeRemoval(a) =>
      && a in s.executions && s.executions[a].phase == Waiting && a !in s.tracker.delivered
      && !HasRow(s.tracker, s.executions[a].exp, a)
    case Unregister(a) => a in s.executions && s.executions[a].phase.Leaving?
    case Abort(a) => a in s.executions && (s.executions[a].phase == Waiting || s.executions[a].phase.Leaving?)
  }

  function Move(s: System, a: nat, phase: Phase): map<nat, Execution>
    requires a in s.executions
  {
    s.executions[a := s.executions[a].(phase := phase)]
  }

  function FatesOfResolution(s: System, m: Matcher): map<nat, Fate> {
    var rows := set h | h in m.keys && h in s.tracker.table :: s.tracker.table[h].channel;
    map c | c in s.fates.Keys + rows ::
      if c !in rows then s.fates[c] else if c in s.tracker.gone then Dropped else ResolvedBy(m.event)
  }

  function Next(s: System, step: TrackerStep): System
    requires Enabled(s, step)
  {
    var t := s.tracker;
    match step
    case Submit(a, exp) => s.(executions := s.executions[a := Execution(exp, Submitted)])
    case Register(a) =>
      var exp := s.executions[a].exp;
      if exp.txHash in t.table then s.(executions := Move(s, a, Refused))
      else s.(tracker := Registered(t, exp, a), executions := Move(s, a, Waiting))
    case Scan(m, event) => s.(matchers := s.matchers[m := Matcher(event, MatchedKeys(t, event))])
    case Resolve(m) =>
      s.(tracker := Resolved(t, s.matchers[m].keys, s.matchers[m].event),
         matchers := s.matchers - {m},
         fates := FatesOfResolution(s, s.matchers[m]))
    case Confirm(a) => s.(tracker := t.(gone := t.gone + {a}), executions := Move(s, a, Confirmed(t.delivered[a])))
    case TimeOut(a) => s.(executions := Move(s, a, Leaving(TimedOut)))
    case NoticeRemoval(a) => s.(executions := Move(s, a, Leaving(RemovedBeforeResolving)))
    case Unregister(a) =>
      var h := s.executions[a].exp.txHash;
      s.(tracker := Unregistered(t, h).(gone := t.gone + {a}),
         executions := Move(s, a, GivenUp(s.executions[a].phase.failure)),
         fates := if h in t.table then s.fates[t.table[h].channel := Removed] else s.fates)
    case Abort(a) => s.(tracker := t.(gone := t.gone + {a}), executions := Move(s, a, Aborted))
  }

  predicate IsRun(s: System, steps: seq<TrackerStep>)
    decreases |steps|
  {
    steps == [] || (Enabled(s, steps[0]) && IsRun(Next(s, steps[0]), steps[1..]))
  }

  function Run(s: System, steps: seq<TrackerStep>): System
    requires IsRun(s, steps)
    decreases |steps|
  {
    if steps == [] then s else Run(Next(s, steps[0]), steps[1..])
  }

  predicate NewHash(s: System, step: TrackerStep) {
    step.Submit? ==> forall a :: a in s.executions ==> s.executions[a].exp.txHash != step.exp.txHash
  }

  /** A run in which no transaction hash is ever used a second time. */
  predicate NeverReuses(s: System, steps: seq<TrackerStep>)
    requires IsRun(s, steps)
    decreases |steps|
  {
    steps == [] || (NewHash(s, steps[0]) && NeverReuses(Next(s, steps[0]), steps[1..]))
  }

  const Start: System := System(Tracker(map[], map[], {}), map[], map[], map[])

  predicate InTable(phase: Phase) {
    phase == Waiting || phase.Leaving? || phase == Aborted
  }

  ghost predicate RowsOwned(s: System) {
    forall h :: h in s.tracker.table ==>
      var slot := s.tracker.table[h];
      && slot.exp.txHash == h
      && slot.channel in s.executions && s.executions[slot.channel].exp == slot.exp
      && InTable(s.executions[slot.channel].phase) && slot.channel !in s.fates
  }

  ghost predicate HashesDiffer(s: System) {
    forall a, b :: a in s.executions && b in s.executions && a != b ==>
      s.executions[a].exp.txHash != s.executions[b].exp.txHash
  }

  /** The execution a scan found under a key: it is past registering and expects the scanned event. */
  ghost predicate Found(s: System, event: Event, h: Hash, a: nat) {
    && a in s.executions && s.executions[a].exp.txHash == h && s.executions[a].phase != Submitted
    && Test(s.executions[a].exp, event)
  }

  ghost predicate ScansFound(s: System) {
    forall m, h :: m in s.matchers && h in s.matchers[m].keys ==> exists a :: Found(s, s.matchers[m].event, h, a)
  }

  /** A registered expectation is in the table or has met one fate, never both; what it got it had expected. */
  ghost predicate FateIs(s: System, a: nat)
    requires a in s.executions
  {
    var exp, phase := s.executions[a].exp, s.executions[a].phase;
    && (phase == Submitted ==> a !in s.fates)
    && phase != Refused
    && (phase != Submitted ==> (a in s.fates <==> !HasRow(s.tracker, exp, a)))
    && (a in s.tracker.delivered <==> a in s.fates && s.fates[a].ResolvedBy?)
    && (a in s.tracker.delivered ==> s.fates[a].event == s.tracker.delivered[a] && Test(exp, s.tracker.delivered[a]))
    && (a in s.fates && s.fates[a] == Dropped ==> phase == Aborted)
    && (a in s.fates && s.fates[a] == Removed ==> phase.GivenUp? )
    && (phase.Confirmed? ==> a in s.tracker.delivered && phase.event == s.tracker.delivered[a])
    && (phase.GivenUp? ==> a in s.fates && phase.failure == TimedOut)
    && (phase.Leaving? ==> phase.failure == TimedOut)
    && (a in s.tracker.gone <==> phase.Confirmed? || phase.GivenUp? || phase == Aborted)
  }

  ghost predicate FatesFit(s: System) {
    && s.fates.Keys <= s.executions.Keys
    && s.tracker.delivered.Keys <= s.executions.Keys
    && s.tracker.gone <= s.executions.Keys
    && forall a :: a in s.executions ==> FateIs(s, a)
  }

  ghost predicate Inv(s: System) {
    RowsOwned(s) && HashesDiffer(s) && ScansFound(s) && FatesFit(s)
  }

  lemma FoundStays(s: System, step: TrackerStep, event: Event, h: Hash, a: nat)
    requires Enabled(s, step) && Found(s, event, h, a)
    ensures Found(Next(s, step), event, h, a)
  {
  }

  lemma ScansStayFound(s: System, step: TrackerStep)
    requires Inv(s) && Enabled(s, step)
    ensures ScansFound(Next(s, step))
  {
    hide Found;
    hide FateIs;
    var s' := Next(s, step);
    forall m, h | m in s'.matchers && h in s'.matchers[m].keys ensures exists a :: Found(s', s'.matchers[m].event, h, a) {
      if step.Scan? && m == step.m {
        ScanFinds(s, step.event, h);
        FoundStays(s, step, step.event, h, s.tracker.table[h].channel);
      } else {
        var a :| Found(s, s.matchers[m].event, h, a);
        FoundStays(s, step, s.matchers[m].event, h, a);
      }
    }
  }

  lemma ScanFinds(s: System, event: Event, h: Hash)
    requires Inv(s) && h in MatchedKeys(s.tracker, event)
    ensures Found(s, event, h, s.tracker.table[h].channel)
  {
  }

  lemma ConfirmedHasNoRow(s: System, a: nat)
    requires FatesFit(s) && RowsOwned(s) && Enabled(s, Confirm(a))
    ensures forall h :: h in s.tracker.table ==> s.tracker.table[h].channel != a
  {
    assert FateIs(s, a);
  }

  lemma FewerRowsStayOwned(s: System, step: TrackerStep)
    requires RowsOwned(s) && Enabled(s, step) && !step.Register?
    requires step.Confirm? ==> forall h :: h in s.tracker.table ==> s.tracker.table[h].channel != step.a
    ensures RowsOwned(Next(s, step))
  {
    hide MatchedKeys;
    hide Receivers;
  }

  lemma NewRowIsOwned(s: System, a: nat)
    requires RowsOwned(s) && FatesFit(s) && Enabled(s, Register(a))
    ensures RowsOwned(Next(s, Register(a)))
  {
    assert FateIs(s, a);
    hide FatesFit;
  }

  lemma RowsStayOwned(s: System, step: TrackerStep)
    requires Inv(s) && Enabled(s, step)
    ensures RowsOwned(Next(s, step))
  {
    hide Next;
    hide Enabled;
    hide RowsOwned;
    hide FatesFit;
    if step.Register? {
      NewRowIsOwned(s, step.a);
    } else {
      if step.Confirm? {
        ConfirmedHasNoRow(s, step.a);
      }
      FewerRowsStayOwned(s, step);
    }
  }

  lemma KeysExpectTheEvent(s: System, m: nat, h: Hash)
    requires Inv(s) && m in s.matchers && h in s.matchers[m].keys && h in s.tracker.table
    ensures Test(s.tracker.table[h].exp, s.matchers[m].event)
  {
    var a :| Found(s, s.matchers[m].event, h, a);
    assert a == s.tracker.table[h].channel;
  }

  ghost predicate SameView(s: System, s': System, a: nat) {
    && a in s.executions && a in s'.executions && s.executions[a] == s'.executions[a]
    && HasRow(s.tracker, s.executions[a].exp, a) == HasRow(s'.tracker, s.executions[a].exp, a)
    && (a in s.fates <==> a in s'.fates) && (a in s.fates ==> s.fates[a] == s'.fates[a])
    && (a in s.tracker.delivered <==> a in s'.tracker.delivered)
    && (a in s.tracker.delivered ==> s.tracker.delivered[a] == s'.tracker.delivered[a])
    && (a in s.tracker.gone <==> a in s'.tracker.gone)
  }

  lemma SameViewSameFate(s: System, s': System, a: nat)
    requires SameView(s, s', a) && FateIs(s, a)
    ensures FateIs(s', a)
  {
  }

  ghost predicate RowTaken(s: System, m: nat, a: nat)
    requires m in s.matchers && a in s.executions
  {
    HasRow(s.tracker, s.executions[a].exp, a) && s.executions[a].exp.txHash in s.matchers[m].keys
  }

  lemma TakenIsResolvedOrDropped(s: System, m: nat, a: nat)
    requires Inv(s) && m in s.matchers && a in s.executions && RowTaken(s, m, a)
    ensures FateIs(Next(s, Resolve(m)), a)
  {
    hide ScansFound;
    hide HashesDiffer;
    var h := s.executions[a].exp.txHash;
    KeysExpectTheEvent(s, m, h);
    assert s.tracker.table[h].channel == a;
    assert FateIs(s, a);
  }

  lemma NotTakenIsSame(s: System, m: nat, a: nat)
    requires RowsOwned(s) && m in s.matchers && a in s.executions && !RowTaken(s, m, a)
    ensures SameView(s, Next(s, Resolve(m)), a)
  {
  }

  lemma ResolveKeepsFates(s: System, m: nat)
    requires Inv(s) && m in s.matchers
    ensures FatesFit(Next(s, Resolve(m)))
  {
    var s' := Next(s, Resolve(m));
    assert RowsOwned(s);
    hide Next;
    forall a | a in s'.executions ensures FateIs(s', a) {
      assert s'.executions == s.executions by { ResolveMovesNoOne(s, m); }
      if RowTaken(s, m, a) {
        TakenIsResolvedOrDropped(s, m, a);
      } else {
        assert FateIs(s, a);
        NotTakenIsSame(s, m, a);
        SameViewSameFate(s, s', a);
      }
    }
    ResolveMovesNoOne(s, m);
  }

  lemma ResolveMovesNoOne(s: System, m: nat)
    requires RowsOwned(s) && m in s.matchers
    ensures var s' := Next(s, Resolve(m));
      && s'.executions == s.executions && s'.tracker.gone == s.tracker.gone
      && s'.fates.Keys <= s.fates.Keys + s.executions.Keys
      && s'.tracker.delivered.Keys <= s.tracker.delivered.Keys + s.executions.Keys
  {
  }

  lemma OwnRowChangeKeepsFate(s: System, step: TrackerStep)
    requires Inv(s) && Enabled(s, step) && (step.Register? || step.Unregister?)
    ensures var s' := Next(s, step); step.a in s'.executions && FateIs(s', step.a)
  {
    hide ScansFound;
    hide Found;
    hide MatchedKeys;
    hide Resolved;
    hide FatesOfResolution;
    assert FateIs(s, step.a);
    assert s.executions[step.a].exp.txHash in s.tracker.table ==> s.tracker.table[s.executions[step.a].exp.txHash].channel == step.a;
    hide FatesFit;
    hide HashesDiffer;
  }

  lemma OwnPhaseChangeKeepsFate(s: System, step: TrackerStep)
    requires Inv(s) && Enabled(s, step) && !step.Scan? && !step.Resolve? && !step.Register? && !step.Unregister?
    ensures var s' := Next(s, step); step.a in s'.executions && FateIs(s', step.a)
  {
    hide ScansFound;
    hide Found;
    hide MatchedKeys;
    hide Resolved;
    hide FatesOfResolution;
    hide HashesDiffer;
    if step.a in s.executions {
      assert FateIs(s, step.a);
    }
  }

  lemma OwnStepKeepsFate(s: System, step: TrackerStep)
    requires Inv(s) && Enabled(s, step) && !step.Scan? && !step.Resolve?
    ensures var s' := Next(s, step); step.a in s'.executions && FateIs(s', step.a)
  {
    hide Inv;
    hide Enabled;
    hide Next;
    hide FateIs;
    if step.Register? || step.Unregister? {
      OwnRowChangeKeepsFate(s, step);
    } else {
      OwnPhaseChangeKeepsFate(s, step);
    }
  }

  lemma OthersSeeTheSame(s: System, step: TrackerStep, a: nat)
    requires RowsOwned(s) && HashesDiffer(s) && Enabled(s, step) && !step.Resolve?
    requires a in s.executions && (step.Scan? || a != step.a)
    ensures SameView(s, Next(s, step), a)
  {
    hide Found;
    hide MatchedKeys;
    hide Resolved;
    hide FatesOfResolution;
  }

  lemma ChannelsStayKnown(s: System, step: TrackerStep)
    requires RowsOwned(s) && FatesFit(s) && Enabled(s, step)
    ensures var s' := Next(s, step);
      && s'.fates.Keys <= s'.executions.Keys
      && s'.tracker.delivered.Keys <= s'.executions.Keys
      && s'.tracker.gone <= s'.executions.Keys
      && s'.executions.Keys == s.executions.Keys + if step.Submit? then {step.a} else {}
  {
    hide FateIs;
    hide MatchedKeys;
    if step.Resolve? {
      ResolveMovesNoOne(s, step.m);
    } else {
      hide Resolved;
      hide FatesOfResolution;
    }
  }

  lemma FatesStayFit(s: System, step: TrackerStep)
    requires Inv(s) && Enabled(s, step) && NewHash(s, step)
    ensures FatesFit(Next(s, step))
  {
    hide FateIs;
    hide NewHash;
    hide Enabled;
    if step.Resolve? {
      assert step.m in s.matchers by { ResolvesAScan(s, step); }
      ResolveKeepsFates(s, step.m);
    } else {
      var s' := Next(s, step);
      hide Next;
      ChannelsStayKnown(s, step);
      forall a | a in s'.executions ensures FateIs(s', a) {
        if !step.Scan? && a == step.a {
          OwnStepKeepsFate(s, step);
        } else {
          OthersSeeTheSame(s, step, a);
          SameViewSameFate(s, s', a);
        }
      }
    }
  }

  lemma ResolvesAScan(s: System, step: TrackerStep)
    requires Enabled(s, step) && step.Resolve?
    ensures step.m in s.matchers
  {
  }

  lemma HashesStayDifferent(s: System, step: TrackerStep)
    requires HashesDiffer(s) && Enabled(s, step) && NewHash(s, step)
    ensures HashesDiffer(Next(s, step))
  {
    hide MatchedKeys;
    hide Resolved;
    hide FatesOfResolution;
  }

  lemma StepKeepsInv(s: System, step: TrackerStep)
    requires Inv(s) && Enabled(s, step) && NewHash(s, step)
    ensures Inv(Next(s, step))
  {
    hide Next;
    RowsStayOwned(s, step);
    ScansStayFound(s, step);
    FatesStayFit(s, step);
    HashesStayDifferent(s, step);
    hide RowsOwned;
    hide HashesDiffer;
    hide ScansFound;
    hide FatesFit;
  }

  lemma {:induction false} RunKeepsInv(s: System, steps: seq<TrackerStep>)
    requires Inv(s) && IsRun(s, steps) && NeverReuses(s, steps)
    ensures Inv(Run(s, steps))
    decreases |steps|
  {
    hide Inv;
    hide Next;
    hide Enabled;
    hide NewHash;
    if steps != [] {
      StepKeepsInv(s, steps[0]);
      RunKeepsInv(Next(s, steps[0]), steps[1..]);
    }
  }

  lemma ReachableInv(steps: seq<TrackerStep>)
    requires IsRun(Start, steps) && NeverReuses(Start, steps)
    ensures Inv(Run(Start, steps))
  {
    hide IsRun;
    hide Run;
    hide NeverReuses;
    RunKeepsInv(Start, steps);
  }

  /** Whatever the interleaving, an action is confirmed only by an event of its own transaction that it expects. */
  lemma ConfirmedByOwnEvent(steps: seq<TrackerStep>, a: nat)
    requires IsRun(Start, steps) && NeverReuses(Start, steps)
    ensures var s := Run(Start, steps);
      a in s.executions && s.executions[a].phase.Confirmed? ==> Test(s.executions[a].exp, s.executions[a].phase.event)
  {
    var s := Run(Start, steps);
    ReachableInv(steps);
    if a in s.executions {
      assert FateIs(s, a);
    }
  }

  /**
   Every expectation past registering is either in the table or has met exactly one fate: it got the event,
   it was dropped because its task had been aborted, or its own task removed it on a timeout. No one is
   refused, and no one finds its row removed by another.
   */
  lemma EveryExpectationIsAccountedFor(steps: seq<TrackerStep>, a: nat)
    requires IsRun(Start, steps) && NeverReuses(Start, steps)
    ensures var s := Run(Start, steps);
      a in s.executions && s.executions[a].phase != Submitted ==>
        var phase := s.executions[a].phase;
        && (a in s.fates <==> !HasRow(s.tracker, s.executions[a].exp, a))
        && (a in s.fates ==>
              match s.fates[a]
              case ResolvedBy(e) => a in s.tracker.delivered && s.tracker.delivered[a] == e
              case Dropped => phase == Aborted && a !in s.tracker.delivered
              case Removed => phase == GivenUp(TimedOut) && a !in s.tracker.delivered)
        && phase != Refused && phase != Leaving(RemovedBeforeResolving) && phase != GivenUp(RemovedBeforeResolving)
  {
    var s := Run(Start, steps);
    ReachableInv(steps);
    if a in s.executions {
      assert FateIs(s, a);
    }
  }

  predicate Finished(phase: Phase) {
    phase.Confirmed? || phase.GivenUp?
  }

  lemma FinishedIsAbsent(s: System, a: nat)
    requires Inv(s) && a in s.executions && Finished(s.executions[a].phase)
    ensures s.executions[a].exp.txHash !in s.tracker.table
  {
    assert FateIs(s, a);
  }

  lemma FinishedStays(s: System, step: TrackerStep, a: nat)
    requires Enabled(s, step) && a in s.executions && Finished(s.executions[a].phase)
    ensures var s' := Next(s, step); a in s'.executions && s'.executions[a] == s.executions[a]
  {
    hide MatchedKeys;
    hide Resolved;
    hide FatesOfResolution;
  }

  /** A finished action keeps its result, and its hash is in the table at no later moment. */
  lemma {:induction false} FinishedForEver(s: System, steps: seq<TrackerStep>, a: nat)
    requires Inv(s) && a in s.executions && Finished(s.executions[a].phase)
    requires IsRun(s, steps) && NeverReuses(s, steps)
    ensures var s' := Run(s, steps);
      && a in s'.executions && s'.executions[a] == s.executions[a]
      && s.executions[a].exp.txHash !in s'.tracker.table
    decreases |steps|
  {
    hide Inv;
    hide Next;
    hide Enabled;
    hide NewHash;
    hide Finished;
    if steps == [] {
      FinishedIsAbsent(s, a);
    } else {
      StepKeepsInv(s, steps[0]);
      FinishedStays(s, steps[0], a);
      FinishedForEver(Next(s, steps[0]), steps[1..], a);
    }
  }

  /** With or without reused hashes, a second registration under a hash changes nothing for the first. */
  lemma RefusalDisturbsNothing(s: System, a: nat)
    requires Enabled(s, Register(a)) && s.executions[a].exp.txHash in s.tracker.table
    ensures var s' := Next(s, Register(a));
      && s'.tracker == s.tracker && s'.fates == s.fates && s'.matchers == s.matchers
      && s'.executions == s.executions[a := s.executions[a].(phase := Refused)]
      && forall step :: step != Register(a) ==>
           (Enabled(s', step) <==> Enabled(s, step))
           && (Enabled(s, step) ==> Next(s', step).tracker == Next(s, step).tracker && Next(s', step).fates == Next(s, step).fates)
  {
  }

  lemma {:induction false} RunConcat(s: System, a: seq<TrackerStep>, b: seq<TrackerStep>)
    requires IsRun(s, a) && IsRun(Run(s, a), b)
    ensures IsRun(s, a + b) && Run(s, a + b) == Run(Run(s, a), b)
    decreases |a|
  {
    hide Next;
    hide Enabled;
    if a == [] {
      assert a + b == b;
    } else {
      assert (a + b)[1..] == a[1..] + b;
      RunConcat(Next(s, a[0]), a[1..], b);
    }
  }

  lemma OneStep(s: System, step: TrackerStep)
    requires Enabled(s, step)
    ensures IsRun(s, [step]) && Run(s, [step]) == Next(s, step)
  {
    hide Next;
    hide Enabled;
    assert [step][1..] == [];
    assert IsRun(Next(s, step), []);
    assert Run(Next(s, step), []) == Next(s, step);
  }

  lemma OneMoreStep(s: System, steps: seq<TrackerStep>, step: TrackerStep)
    requires IsRun(s, steps) && Enabled(Run(s, steps), step)
    ensures IsRun(s, steps + [step]) && Run(s, steps + [step]) == Next(Run(s, steps), step)
  {
    hide Next;
    hide Enabled;
    OneStep(Run(s, steps), step);
    RunConcat(s, steps, [step]);
  }

  /** The states around the gap: 0 was scanned for, timed out and left; 1 then registered under the same hash. */
  function Gap(h: Hash, p: ChainEvent -> bool, q: ChainEvent -> bool, event: Event): System {
    var slot := Slot(Expectation(h, q), 1);
    System(
      Tracker(map[h := slot], map[], {0}),
      map[0 := Execution(Expectation(h, p), GivenUp(TimedOut)), 1 := Execution(Expectation(h, q), Waiting)],
      map[0 := Matcher(event, {h})],
      map[0 := Removed])
  }

  lemma GapIsReached(h: Hash, p: ChainEvent -> bool, q: ChainEvent -> bool, event: Event)
    requires event.txHash == h && p(event.kind)
    ensures exists steps :: IsRun(Start, steps) && Run(Start, steps) == Gap(h, p, q, event)
  {
    hide IsRun;
    hide Run;
    var exp0, exp1 := Expectation(h, p), Expectation(h, q);
    var scanned := ScannedOnce(h, p, event);
    var steps := scanned;
    assert MatchedKeys(Tracker(map[h := Slot(exp0, 0)], map[], {}), event) == {h};
    OneMoreStep(Start, steps, TimeOut(0));
    steps := steps + [TimeOut(0)];
    OneMoreStep(Start, steps, Unregister(0));
    steps := steps + [Unregister(0)];
    OneMoreStep(Start, steps, Submit(1, exp1));
    steps := steps + [Submit(1, exp1)];
    OneMoreStep(Start, steps, Register(1));
    steps := steps + [Register(1)];
    assert Run(Start, steps) == Gap(h, p, q, event);
  }

  lemma ScannedOnce(h: Hash, p: ChainEvent -> bool, event: Event) returns (steps: seq<TrackerStep>)
    requires event.txHash == h && p(event.kind)
    ensures IsRun(Start, steps)
    ensures Run(Start, steps) == System(
      Tracker(map[h := Slot(Expectation(h, p), 0)], map[], {}),
      map[0 := Execution(Expectation(h, p), Waiting)], map[0 := Matcher(event, {h})], map[])
  {
    var exp := Expectation(h, p);
    assert IsRun(Start, []) && Run(Start, []) == Start;
    hide IsRun;
    hide Run;
    OneMoreStep(Start, [], Submit(0, exp));
    OneMoreStep(Start, [] + [Submit(0, exp)], Register(0));
    OneMoreStep(Start, [] + [Submit(0, exp)] + [Register(0)], Scan(0, event));
    steps := [] + [Submit(0, exp)] + [Register(0)] + [Scan(0, event)];
    assert MatchedKeys(Tracker(map[h := Slot(exp, 0)], map[], {}), event) == {h};
  }

  ghost predicate Misled(s: System, a: nat, event: Event) {
    a in s.executions && s.executions[a].phase == Confirmed(event) && !Test(s.executions[a].exp, event)
  }

  ghost predicate GaveUpThoughResolved(s: System, a: nat, event: Event) {
    && a in s.executions && s.executions[a].phase == GivenUp(TimedOut)
    && a in s.fates && s.fates[a] == ResolvedBy(event)
  }

  /** If a hash may be reused, an action can be confirmed by any event another action expected and it does not. */
  lemma ReusedHashMisleads(h: Hash, p: ChainEvent -> bool, q: ChainEvent -> bool, event: Event)
    requires event.txHash == h && p(event.kind) && !q(event.kind)
    ensures exists steps :: IsRun(Start, steps) && Misled(Run(Start, steps), 1, event)
  {
    GapIsReached(h, p, q, event);
    hide IsRun;
    hide Run;
    var steps :| IsRun(Start, steps) && Run(Start, steps) == Gap(h, p, q, event);
    var gap := Gap(h, p, q, event);
    ResolvedOne(gap.tracker, h, event);
    OneMoreStep(Start, steps, Resolve(0));
    var more := steps + [Resolve(0)];
    OneMoreStep(Start, more, Confirm(1));
    var s := Run(Start, more + [Confirm(1)]);
    assert s.executions[1] == Execution(Expectation(h, q), Confirmed(event));
  }

  lemma ResolveThenLeave(s: System, a: nat, m: nat, event: Event)
    requires a in s.executions && s.executions[a].phase == Leaving(TimedOut) && a !in s.tracker.gone
    requires HasRow(s.tracker, s.executions[a].exp, a)
    requires m in s.matchers && s.matchers[m] == Matcher(event, {s.executions[a].exp.txHash})
    ensures IsRun(s, [Resolve(m)] + [Unregister(a)])
    ensures GaveUpThoughResolved(Run(s, [Resolve(m)] + [Unregister(a)]), a, event)
  {
    hide IsRun;
    hide Run;
    hide Resolved;
    var h := s.executions[a].exp.txHash;
    var s' := Next(s, Resolve(m));
    ResolvedOne(s.tracker, h, event);
    assert h !in s'.tracker.table && s'.fates[a] == ResolvedBy(event);
    OneStep(s, Resolve(m));
    OneMoreStep(s, [Resolve(m)], Unregister(a));
  }

  lemma {:induction false} OnlySubmittingReuses(s: System, steps: seq<TrackerStep>)
    requires IsRun(s, steps) && forall step :: step in steps ==> !step.Submit?
    ensures NeverReuses(s, steps)
    decreases |steps|
  {
    hide Next;
    hide Enabled;
    if steps != [] {
      assert steps[0] in steps;
      OnlySubmittingReuses(Next(s, steps[0]), steps[1..]);
    }
  }

  ghost predicate ReceivedInTime(s: System, a: nat) {
    && a in s.executions && a in s.tracker.delivered
    && (s.executions[a].phase == Waiting || s.executions[a].phase.Confirmed? || s.executions[a].phase == Aborted)
  }

  lemma ReceivedStays(s: System, step: TrackerStep, a: nat)
    requires ReceivedInTime(s, a) && Enabled(s, step)
    ensures ReceivedInTime(Next(s, step), a)
  {
    hide MatchedKeys;
    hide FatesOfResolution;
  }

  /** Whoever has the event before giving up never gives up. */
  lemma {:induction false} ReceivedNeverGivesUp(s: System, steps: seq<TrackerStep>, a: nat)
    requires ReceivedInTime(s, a) && IsRun(s, steps)
    ensures ReceivedInTime(Run(s, steps), a)
    decreases |steps|
  {
    hide Next;
    hide Enabled;
    hide ReceivedInTime;
    if steps != [] {
      ReceivedStays(s, steps[0], a);
      ReceivedNeverGivesUp(Next(s, steps[0]), steps[1..], a);
    }
  }

  lemma ExpectationStays(s: System, step: TrackerStep, a: nat)
    requires a in s.executions && Enabled(s, step)
    ensures a in Next(s, step).executions && Next(s, step).executions[a].exp == s.executions[a].exp
  {
    hide MatchedKeys;
    hide Resolved;
    hide FatesOfResolution;
  }

  lemma {:induction false} ExpectationStaysAlways(s: System, steps: seq<TrackerStep>, a: nat)
    requires a in s.executions && IsRun(s, steps)
    ensures a in Run(s, steps).executions && Run(s, steps).executions[a].exp == s.executions[a].exp
    decreases |steps|
  {
    hide Next;
    hide Enabled;
    if steps != [] {
      ExpectationStays(s, steps[0], a);
      ExpectationStaysAlways(Next(s, steps[0]), steps[1..], a);
    }
  }

  ghost predicate LeadsToGivingUp(s: System, steps: seq<TrackerStep>, a: nat, event: Event) {
    IsRun(s, steps) && NeverReuses(s, steps) && GaveUpThoughResolved(Run(s, steps), a, event)
  }

  lemma WaitingCanGiveUp(s: System, a: nat, event: Event) returns (steps: seq<TrackerStep>)
    requires Inv(s) && a in s.executions && s.executions[a].phase == Waiting
    requires HasRow(s.tracker, s.executions[a].exp, a) && Test(s.executions[a].exp, event)
    ensures LeadsToGivingUp(s, steps, a, event)
  {
    hide IsRun;
    hide Run;
    hide NeverReuses;
    hide HashesDiffer;
    hide ScansFound;
    assert FateIs(s, a);
    ScanIsLookup(s.tracker, event);
    hide FatesFit;
    hide FateIs;
    hide RowsOwned;
    hide MatchedKeys;
    hide GaveUpThoughResolved;
    var m := Unused(s.matchers.Keys);
    var first := [Scan(m, event)] + [TimeOut(a)];
    OneStep(s, Scan(m, event));
    OneMoreStep(s, [Scan(m, event)], TimeOut(a));
    var last := [Resolve(m)] + [Unregister(a)];
    ResolveThenLeave(Run(s, first), a, m, event);
    RunConcat(s, first, last);
    steps := first + last;
    OnlySubmittingReuses(s, steps);
  }

  lemma OnlyExpectedIsResolved(s: System, steps: seq<TrackerStep>, a: nat, event: Event)
    requires Inv(s) && LeadsToGivingUp(s, steps, a, event)
    ensures Test(Run(s, steps).executions[a].exp, event)
  {
    RunKeepsInv(s, steps);
    assert FateIs(Run(s, steps), a);
  }

  /**
   The receiver outlives the decision to give up. So an action that waits can still come to report a timeout
   although the event was delivered exactly as long as its row is in the table and the event is one it expects;
   once the event has been sent, it is reported.
   */
  lemma TimedOutThoughResolvedExactly(s: System, a: nat, event: Event)
    requires Inv(s) && a in s.executions && s.executions[a].phase == Waiting
    ensures (exists steps :: LeadsToGivingUp(s, steps, a, event))
       <==> HasRow(s.tracker, s.executions[a].exp, a) && Test(s.executions[a].exp, event)
  {
    hide IsRun;
    hide Run;
    hide NeverReuses;
    if HasRow(s.tracker, s.executions[a].exp, a) && Test(s.executions[a].exp, event) {
      var steps := WaitingCanGiveUp(s, a, event);
    } else if steps :| LeadsToGivingUp(s, steps, a, event) {
      assert FateIs(s, a);
      if !HasRow(s.tracker, s.executions[a].exp, a) {
        ReceivedNeverGivesUp(s, steps, a);
      } else {
        ExpectationStaysAlways(s, steps, a);
        OnlyExpectedIsResolved(s, steps, a, event);
      }
    }
  }
}
