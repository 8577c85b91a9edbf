/**
 When an action can still be confirmed. Its expectation is registered only after its transaction was submitted,
 so events of the transaction may have been scanned before; those never come back.
 */
module Confirmations {
  import opened HoprTypes
  import opened ActionTracker

  /** A run in which the events scanned under a hash are among those still to come. */
  predicate ScansWithin(step: TrackerStep, h: Hash, coming: set<Event>) {
    step.Scan? && step.event.txHash == h ==> step.event in coming
  }

  ghost predicate Unfolds(s: System, steps: seq<TrackerStep>, h: Hash, coming: set<Event>) {
    && IsRun(s, steps) && NeverReuses(s, steps)
    && forall step :: step in steps ==> ScansWithin(step, h, coming)
  }

  ghost predicate ConfirmsBy(s: System, a: nat, event: Event) {
    a in s.executions && s.executions[a].phase == Confirmed(event)
  }

  /** Some scan still to be resolved has found the hash with the event. */
  ghost predicate Held(s: System, h: Hash, event: Event) {
    exists m :: m in s.matchers && h in s.matchers[m].keys && s.matchers[m].event == event
  }

  /**
   The event can still confirm the action: it did; or it was sent to it in time; or the action's row is in the
   table and a scan holds the event or it is still to come; or the action has yet to register and it is to come.
   */
  ghost predicate InPlay(s: System, a: nat, coming: set<Event>, event: Event) {
    a in s.executions
    && var exp, phase := s.executions[a].exp, s.executions[a].phase;
       match phase
       case Confirmed(e) => e == event
       case Submitted => event in coming && Test(exp, event)
       case Waiting =>
         || (a in s.tracker.delivered && s.tracker.delivered[a] == event)
         || (HasRow(s.tracker, exp, a) && (Held(s, exp.txHash, event) || (event in coming && Test(exp, event))))
       case _ => false
  }

  // ---------- only then ----------

  lemma OwnStepNeedsPlay(s: System, step: TrackerStep, a: nat, coming: set<Event>, event: Event)
    requires Inv(s) && Enabled(s, step) && !step.Scan? && !step.Resolve? && step.a == a
    requires a in s.executions && InPlay(Next(s, step), a, coming, event)
    ensures InPlay(s, a, coming, event)
  {
    hide MatchedKeys;
    hide Resolved;
    hide FatesOfResolution;
    assert FateIs(s, a);
    if step.Register? {
      HashIsFree(s, a);
      NothingHeldBeforeRegistering(s, a, event);
      assert Next(s, step).matchers == s.matchers;
    }
  }

  lemma HashIsFree(s: System, a: nat)
    requires Inv(s) && a in s.executions && s.executions[a].phase == Submitted
    ensures s.executions[a].exp.txHash !in s.tracker.table
  {
    hide ScansFound;
    hide FatesFit;
  }

  /** While an action has not registered, no scan holds its hash. */
  lemma NothingHeldBeforeRegistering(s: System, a: nat, event: Event)
    requires Inv(s) && a in s.executions && s.executions[a].phase == Submitted
    ensures !Held(s, s.executions[a].exp.txHash, event)
  {
    forall m | m in s.matchers ensures s.executions[a].exp.txHash !in s.matchers[m].keys {
      KeysAreRegistered(s, m, a);
    }
  }

  lemma KeysAreRegistered(s: System, m: nat, a: nat)
    requires Inv(s) && m in s.matchers && a in s.executions
    ensures s.executions[a].exp.txHash in s.matchers[m].keys ==> s.executions[a].phase != Submitted
  {
    var h := s.executions[a].exp.txHash;
    if h in s.matchers[m].keys {
      var b :| Found(s, s.matchers[m].event, h, b);
    }
  }

  lemma OtherStepNeedsPlay(s: System, step: TrackerStep, a: nat, coming: set<Event>, event: Event)
    requires Inv(s) && Enabled(s, step) && !step.Scan? && !step.Resolve? && step.a != a
    requires a in s.executions && InPlay(Next(s, step), a, coming, event)
    ensures InPlay(s, a, coming, event)
  {
    hide MatchedKeys;
    hide Resolved;
    hide FatesOfResolution;
    OthersSeeTheSame(s, step, a);
    var s' := Next(s, step);
    assert s'.matchers == s.matchers;
    hide Next;
    hide Inv;
    assert forall h :: Held(s', h, event) ==> Held(s, h, event);
  }

  lemma ScanNeedsPlay(s: System, m: nat, scanned: Event, a: nat, coming: set<Event>, event: Event)
    requires Inv(s) && Enabled(s, Scan(m, scanned)) && a in s.executions
    requires ScansWithin(Scan(m, scanned), s.executions[a].exp.txHash, coming)
    requires InPlay(Next(s, Scan(m, scanned)), a, coming, event)
    ensures InPlay(s, a, coming, event)
  {
    var exp, s' := s.executions[a].exp, Next(s, Scan(m, scanned));
    ScanIsLookup(s.tracker, scanned);
    hide MatchedKeys;
    hide Inv;
    if s.executions[a].phase == Waiting && HasRow(s.tracker, exp, a) && Held(s', exp.txHash, event) && !Held(s, exp.txHash, event) {
      var k :| k in s'.matchers && exp.txHash in s'.matchers[k].keys && s'.matchers[k].event == event;
      assert k == m;
      RowIsOwn(s, a);
    }
  }

  lemma RowIsOwn(s: System, a: nat)
    requires RowsOwned(s) && a in s.executions && HasRow(s.tracker, s.executions[a].exp, a)
    ensures s.tracker.table[s.executions[a].exp.txHash].exp == s.executions[a].exp
  {
  }

  lemma ResolveNeedsPlay(s: System, m: nat, a: nat, coming: set<Event>, event: Event)
    requires Inv(s) && m in s.matchers && a in s.executions && InPlay(Next(s, Resolve(m)), a, coming, event)
    ensures InPlay(s, a, coming, event)
  {
    var exp, s' := s.executions[a].exp, Next(s, Resolve(m));
    ResolveMovesNoOne(s, m);
    if s.executions[a].phase == Waiting {
      if RowTaken(s, m, a) {
        assert a !in s.tracker.gone by { assert FateIs(s, a); }
        assert s'.tracker.delivered[a] == s.matchers[m].event;
        assert !HasRow(s'.tracker, exp, a);
        assert Held(s, exp.txHash, s.matchers[m].event);
      } else {
        NotTakenIsSame(s, m, a);
        HeldBefore(s, m, exp.txHash, event);
      }
    }
  }

  lemma HeldBefore(s: System, m: nat, h: Hash, event: Event)
    requires m in s.matchers
    ensures Held(Next(s, Resolve(m)), h, event) ==> Held(s, h, event)
  {
    hide Resolved;
    hide FatesOfResolution;
  }

  lemma StepNeedsPlay(s: System, step: TrackerStep, a: nat, coming: set<Event>, event: Event)
    requires Inv(s) && Enabled(s, step) && a in s.executions && ScansWithin(step, s.executions[a].exp.txHash, coming)
    requires InPlay(Next(s, step), a, coming, event)
    ensures InPlay(s, a, coming, event)
  {
    hide Next;
    hide Inv;
    hide InPlay;
    if step.Scan? {
      ScanNeedsPlay(s, step.m, step.event, a, coming, event);
    } else if step.Resolve? {
      ResolveNeedsPlay(s, step.m, a, coming, event);
    } else if step.a == a {
      OwnStepNeedsPlay(s, step, a, coming, event);
    } else {
      OtherStepNeedsPlay(s, step, a, coming, event);
    }
  }

  lemma {:induction false} ConfirmationNeedsPlay(s: System, steps: seq<TrackerStep>, a: nat, coming: set<Event>, event: Event)
    requires Inv(s) && a in s.executions && Unfolds(s, steps, s.executions[a].exp.txHash, coming)
    requires ConfirmsBy(Run(s, steps), a, event)
    ensures InPlay(s, a, coming, event)
    decreases |steps|
  {
    hide Next;
    hide Enabled;
    hide Inv;
    hide InPlay;
    hide NewHash;
    hide ScansWithin;
    if steps == [] {
      ConfirmedIsInPlay(s, a, coming, event);
    } else {
      assert steps[0] in steps;
      StepKeepsInv(s, steps[0]);
      ExpectationStays(s, steps[0], a);
      ConfirmationNeedsPlay(Next(s, steps[0]), steps[1..], a, coming, event);
      StepNeedsPlay(s, steps[0], a, coming, event);
    }
  }

  lemma ConfirmedIsInPlay(s: System, a: nat, coming: set<Event>, event: Event)
    requires ConfirmsBy(s, a, event)
    ensures InPlay(s, a, coming, event)
  {
  }

  // ---------- and then ----------

  lemma Prepend(s: System, step: TrackerStep, rest: seq<TrackerStep>, a: nat, coming: set<Event>, event: Event)
    requires Enabled(s, step) && !step.Submit? && a in s.executions && ScansWithin(step, s.executions[a].exp.txHash, coming)
    requires Unfolds(Next(s, step), rest, s.executions[a].exp.txHash, coming) && ConfirmsBy(Run(Next(s, step), rest), a, event)
    ensures Unfolds(s, [step] + rest, s.executions[a].exp.txHash, coming) && ConfirmsBy(Run(s, [step] + rest), a, event)
  {
    hide Next;
    hide Enabled;
    hide ScansWithin;
    assert ([step] + rest)[1..] == rest;
  }

  lemma SentIsConfirmed(s: System, a: nat, coming: set<Event>, event: Event) returns (steps: seq<TrackerStep>)
    requires a in s.executions && s.executions[a].phase == Waiting
    requires a in s.tracker.delivered && s.tracker.delivered[a] == event
    ensures Unfolds(s, steps, s.executions[a].exp.txHash, coming) && ConfirmsBy(Run(s, steps), a, event)
  {
    OneStep(s, Confirm(a));
    steps := [Confirm(a)];
    OnlySubmittingReuses(s, steps);
  }

  lemma HeldIsConfirmed(s: System, a: nat, m: nat, coming: set<Event>) returns (steps: seq<TrackerStep>)
    requires a in s.executions && s.executions[a].phase == Waiting && a !in s.tracker.gone
    requires HasRow(s.tracker, s.executions[a].exp, a)
    requires m in s.matchers && s.executions[a].exp.txHash in s.matchers[m].keys
    ensures Unfolds(s, steps, s.executions[a].exp.txHash, coming) && ConfirmsBy(Run(s, steps), a, s.matchers[m].event)
  {
    var s' := Next(s, Resolve(m));
    assert s'.executions == s.executions && s'.tracker.delivered[a] == s.matchers[m].event;
    hide Next;
    var rest := SentIsConfirmed(s', a, coming, s.matchers[m].event);
    Prepend(s, Resolve(m), rest, a, coming, s.matchers[m].event);
    steps := [Resolve(m)] + rest;
  }

  lemma ComingIsConfirmed(s: System, a: nat, coming: set<Event>, event: Event) returns (steps: seq<TrackerStep>)
    requires Inv(s) && a in s.executions && s.executions[a].phase == Waiting
    requires HasRow(s.tracker, s.executions[a].exp, a) && event in coming && Test(s.executions[a].exp, event)
    ensures Unfolds(s, steps, s.executions[a].exp.txHash, coming) && ConfirmsBy(Run(s, steps), a, event)
  {
    assert FateIs(s, a);
    ScanIsLookup(s.tracker, event);
    RowIsOwn(s, a);
    hide Inv;
    hide MatchedKeys;
    var m := Unused(s.matchers.Keys);
    var s' := Next(s, Scan(m, event));
    assert s'.executions == s.executions && s'.tracker == s.tracker && s'.matchers[m].event == event;
    assert s.executions[a].exp.txHash in s'.matchers[m].keys;
    hide Next;
    var rest := HeldIsConfirmed(s', a, m, coming);
    Prepend(s, Scan(m, event), rest, a, coming, event);
    steps := [Scan(m, event)] + rest;
  }

  lemma SubmittedIsConfirmed(s: System, a: nat, coming: set<Event>, event: Event) returns (steps: seq<TrackerStep>)
    requires Inv(s) && a in s.executions && s.executions[a].phase == Submitted
    requires event in coming && Test(s.executions[a].exp, event)
    ensures Unfolds(s, steps, s.executions[a].exp.txHash, coming) && ConfirmsBy(Run(s, steps), a, event)
  {
    HashIsFree(s, a);
    StepKeepsInv(s, Register(a));
    var s' := Next(s, Register(a));
    assert s'.executions[a] == s.executions[a].(phase := Waiting) && HasRow(s'.tracker, s'.executions[a].exp, a);
    hide Inv;
    hide Next;
    var rest := ComingIsConfirmed(s', a, coming, event);
    Prepend(s, Register(a), rest, a, coming, event);
    steps := [Register(a)] + rest;
  }

  /** Given the events still to come, an action can be confirmed by an event exactly if the event is in play. */
  lemma ConfirmableExactly(s: System, a: nat, coming: set<Event>, event: Event)
    requires Inv(s) && a in s.executions
    ensures (exists steps :: Unfolds(s, steps, s.executions[a].exp.txHash, coming) && ConfirmsBy(Run(s, steps), a, event))
       <==> InPlay(s, a, coming, event)
  {
    hide IsRun;
    hide Run;
    hide NeverReuses;
    var h := s.executions[a].exp.txHash;
    if InPlay(s, a, coming, event) {
      var steps := InPlayIsConfirmed(s, a, coming, event);
    } else if steps :| Unfolds(s, steps, h, coming) && ConfirmsBy(Run(s, steps), a, event) {
      ConfirmationNeedsPlay(s, steps, a, coming, event);
    }
  }

  lemma InPlayIsConfirmed(s: System, a: nat, coming: set<Event>, event: Event) returns (steps: seq<TrackerStep>)
    requires Inv(s) && a in s.executions && InPlay(s, a, coming, event)
    ensures Unfolds(s, steps, s.executions[a].exp.txHash, coming) && ConfirmsBy(Run(s, steps), a, event)
  {
    assert FateIs(s, a);
    hide Inv;
    if s.executions[a].phase.Confirmed? {
      steps := [];
    } else if s.executions[a].phase == Submitted {
      steps := SubmittedIsConfirmed(s, a, coming, event);
    } else if a in s.tracker.delivered && s.tracker.delivered[a] == event {
      steps := SentIsConfirmed(s, a, coming, event);
    } else if Held(s, s.executions[a].exp.txHash, event) {
      var m :| m in s.matchers && s.executions[a].exp.txHash in s.matchers[m].keys && s.matchers[m].event == event;
      steps := HeldIsConfirmed(s, a, m, coming);
    } else {
      steps := ComingIsConfirmed(s, a, coming, event);
    }
  }

  /**
   So an action whose transaction was mined and scanned before it registered, with nothing of it still to come,
   is confirmed in no run.
   */
  lemma ScannedTooEarly(s: System, a: nat, coming: set<Event>, steps: seq<TrackerStep>)
    requires Inv(s) && a in s.executions && s.executions[a].phase == Submitted
    requires forall e :: e in coming ==> !Test(s.executions[a].exp, e)
    requires Unfolds(s, steps, s.executions[a].exp.txHash, coming)
    ensures a in Run(s, steps).executions && !Run(s, steps).executions[a].phase.Confirmed?
  {
    ExpectationStaysAlways(s, steps, a);
    if Run(s, steps).executions[a].phase.Confirmed? {
      ConfirmationNeedsPlay(s, steps, a, coming, Run(s, steps).executions[a].phase.event);
    }
  }
}
