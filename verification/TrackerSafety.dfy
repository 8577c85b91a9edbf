/**
 What the tracker guarantees when transaction hashes may come back. A registrant can be sent an event it does
 not expect exactly if a scan made for an earlier registration of its hash is still to be resolved.
 */
module TrackerSafety {
  import opened ActionTracker

  /** Registered with a row in the table, or about to register. */
  predicate Active(s: System, a: nat)
    requires a in s.executions
  {
    s.executions[a].phase == Submitted || HasRow(s.tracker, s.executions[a].exp, a)
  }

  /** What would reach the registrant: it is active and its receiver exists. */
  predicate Listening(s: System, a: nat)
    requires a in s.executions
  {
    s.executions[a].phase == Submitted || (HasRow(s.tracker, s.executions[a].exp, a) && a !in s.tracker.gone)
  }

  /** Two actions may share a hash, but not while both are active. */
  ghost predicate ActiveDiffer(s: System) {
    forall a, b :: a in s.executions && b in s.executions && a != b && Active(s, a) && Active(s, b) ==>
      s.executions[a].exp.txHash != s.executions[b].exp.txHash
  }

  function UsedHashes(s: System): set<Hash> {
    set a | a in s.executions :: s.executions[a].exp.txHash
  }

  ghost predicate KeysUsed(s: System) {
    forall m :: m in s.matchers ==> s.matchers[m].keys <= UsedHashes(s)
  }

  /** Every event that was sent had been expected. */
  ghost predicate SentRightly(s: System) {
    forall a :: a in s.tracker.delivered ==> a in s.executions && Test(s.executions[a].exp, s.tracker.delivered[a])
  }

  ghost predicate ChannelsFit(s: System) {
    && s.fates.Keys <= s.executions.Keys && s.tracker.gone <= s.executions.Keys
    && s.tracker.delivered.Keys <= s.executions.Keys
    && (forall a :: a in s.executions && s.executions[a].phase == Submitted ==>
          a !in s.fates && a !in s.tracker.gone && a !in s.tracker.delivered)
    && (forall a :: a in s.executions && a in s.tracker.delivered ==> !HasRow(s.tracker, s.executions[a].exp, a))
  }

  ghost predicate Sane(s: System) {
    RowsOwned(s) && ActiveDiffer(s) && KeysUsed(s) && ChannelsFit(s) && SentRightly(s)
  }

  /** No scan still to be resolved holds the hash of a listening registrant with an event it does not expect. */
  ghost predicate ScansApart(s: System) {
    forall m, a :: m in s.matchers && a in s.executions && Listening(s, a) && s.executions[a].exp.txHash in s.matchers[m].keys ==>
      Test(s.executions[a].exp, s.matchers[m].event)
  }

  // ---------- what steps keep ----------

  lemma MatchedIsOwn(s: System, event: Event, a: nat)
    requires RowsOwned(s) && ActiveDiffer(s) && a in s.executions && Active(s, a)
    requires s.executions[a].exp.txHash in MatchedKeys(s.tracker, event)
    ensures Test(s.executions[a].exp, event)
  {
    var h := s.executions[a].exp.txHash;
    var c := s.tracker.table[h].channel;
    assert Active(s, c);
  }

  lemma ActiveStaysOrComes(s: System, step: TrackerStep, a: nat)
    requires RowsOwned(s) && Enabled(s, step) && a in Next(s, step).executions && Active(Next(s, step), a)
    ensures (a in s.executions && Active(s, a) && Next(s, step).executions[a].exp == s.executions[a].exp)
         || (step.Submit? && step.a == a)
  {
    hide MatchedKeys;
    hide FatesOfResolution;
    hide Receivers;
  }

  lemma ListeningStaysOrComes(s: System, step: TrackerStep, a: nat)
    requires RowsOwned(s) && Enabled(s, step) && a in Next(s, step).executions && Listening(Next(s, step), a)
    requires ChannelsFit(s)
    ensures (a in s.executions && Listening(s, a) && Next(s, step).executions[a].exp == s.executions[a].exp)
         || (step.Submit? && step.a == a)
  {
    hide MatchedKeys;
    hide FatesOfResolution;
    hide Receivers;
  }

  /** No active action has the hash; an earlier one that has left the table may have had it. */
  ghost predicate FreeHash(s: System, step: TrackerStep) {
    step.Submit? ==> forall a :: a in s.executions && Active(s, a) ==> s.executions[a].exp.txHash != step.exp.txHash
  }

  lemma StaysDifferent(s: System, step: TrackerStep)
    requires Sane(s) && Enabled(s, step) && FreeHash(s, step)
    ensures ActiveDiffer(Next(s, step))
  {
    hide Next;
    hide Active;
    hide ChannelsFit;
    hide SentRightly;
    hide KeysUsed;
    var s' := Next(s, step);
    forall a, b | a in s'.executions && b in s'.executions && a != b && Active(s', a) && Active(s', b)
      ensures s'.executions[a].exp.txHash != s'.executions[b].exp.txHash
    {
      ActiveStaysOrComes(s, step, a);
      ActiveStaysOrComes(s, step, b);
      if step.Submit? {
        SubmittedIs(s, step.a, step.exp);
      }
    }
  }

  lemma SubmittedIs(s: System, a: nat, exp: Expectation)
    requires Enabled(s, Submit(a, exp))
    ensures var s' := Next(s, Submit(a, exp));
      && a !in s.executions && s'.executions == s.executions[a := Execution(exp, Submitted)]
      && s'.tracker == s.tracker && s'.matchers == s.matchers
  {
  }

  lemma HashesStayUsed(s: System, step: TrackerStep)
    requires RowsOwned(s) && KeysUsed(s) && Enabled(s, step)
    ensures KeysUsed(Next(s, step))
  {
    hide Resolved;
    hide FatesOfResolution;
    var s' := Next(s, step);
    forall h | h in UsedHashes(s) ensures h in UsedHashes(s') {
      var a :| a in s.executions && s.executions[a].exp.txHash == h;
      ExpectationStays(s, step, a);
      assert s'.executions[a].exp.txHash == h;
    }
    if step.Scan? {
      forall h | h in MatchedKeys(s.tracker, step.event) ensures h in UsedHashes(s) {
        assert s.executions[s.tracker.table[h].channel].exp.txHash == h;
      }
    }
  }

  lemma ResolveSendsRightly(s: System, m: nat)
    requires Sane(s) && ScansApart(s) && m in s.matchers
    ensures SentRightly(Next(s, Resolve(m)))
  {
    var s' := Next(s, Resolve(m));
    forall a | a in s'.tracker.delivered ensures a in s'.executions && Test(s'.executions[a].exp, s'.tracker.delivered[a]) {
      if a in Receivers(s.tracker, s.matchers[m].keys) {
        var h :| h in s.matchers[m].keys && h in s.tracker.table && s.tracker.table[h].channel == a && a !in s.tracker.gone;
        assert Listening(s, a);
      }
    }
  }

  lemma RegisteringOwnsRow(s: System, a: nat)
    requires RowsOwned(s) && ChannelsFit(s) && Enabled(s, Register(a))
    ensures RowsOwned(Next(s, Register(a)))
  {
    assert a !in s.fates;
    hide ChannelsFit;
  }

  lemma RegisteringFits(s: System, a: nat)
    requires RowsOwned(s) && ChannelsFit(s) && Enabled(s, Register(a))
    ensures ChannelsFit(Next(s, Register(a)))
  {
    hide RowsOwned;
    assert a !in s.tracker.delivered;
  }

  lemma ResolvingFits(s: System, m: nat)
    requires RowsOwned(s) && ChannelsFit(s) && m in s.matchers
    ensures ChannelsFit(Next(s, Resolve(m)))
  {
    var s', keys := Next(s, Resolve(m)), s.matchers[m].keys;
    ResolveMovesNoOne(s, m);
    forall a | a in s'.executions && a in s'.tracker.delivered ensures !HasRow(s'.tracker, s'.executions[a].exp, a) {
      if a in Receivers(s.tracker, keys) {
        var h :| h in keys && h in s.tracker.table && s.tracker.table[h].channel == a;
        assert s.executions[a].exp.txHash == h;
      }
    }
  }

  lemma OtherStepsFit(s: System, step: TrackerStep)
    requires RowsOwned(s) && ChannelsFit(s) && Enabled(s, step) && !step.Register? && !step.Resolve?
    ensures ChannelsFit(Next(s, step))
  {
    hide MatchedKeys;
    hide Resolved;
    hide FatesOfResolution;
  }

  lemma RowsAndChannelsFit(s: System, step: TrackerStep)
    requires Sane(s) && Enabled(s, step)
    ensures RowsOwned(Next(s, step)) && ChannelsFit(Next(s, step))
  {
    hide Next;
    hide ActiveDiffer;
    hide KeysUsed;
    hide SentRightly;
    if step.Register? {
      RegisteringOwnsRow(s, step.a);
      RegisteringFits(s, step.a);
    } else {
      FewerRowsStayOwned(s, step);
      if step.Resolve? {
        ResolvingFits(s, step.m);
      } else {
        OtherStepsFit(s, step);
      }
    }
  }

  lemma StaysSane(s: System, step: TrackerStep)
    requires Sane(s) && ScansApart(s) && Enabled(s, step) && FreeHash(s, step)
    ensures Sane(Next(s, step))
  {
    RowsAndChannelsFit(s, step);
    StaysDifferent(s, step);
    HashesStayUsed(s, step);
    if step.Resolve? {
      ResolveSendsRightly(s, step.m);
    } else {
      OthersSendNothing(s, step);
    }
    hide RowsOwned;
    hide ActiveDiffer;
    hide KeysUsed;
    hide ChannelsFit;
    hide SentRightly;
  }

  lemma OthersSendNothing(s: System, step: TrackerStep)
    requires SentRightly(s) && Enabled(s, step) && !step.Resolve?
    ensures SentRightly(Next(s, step))
  {
    hide MatchedKeys;
    hide Resolved;
    hide FatesOfResolution;
  }

  lemma StaysApart(s: System, step: TrackerStep)
    requires Sane(s) && ScansApart(s) && Enabled(s, step)
    requires step.Submit? ==> forall m :: m in s.matchers && step.exp.txHash in s.matchers[m].keys ==> Test(step.exp, s.matchers[m].event)
    ensures ScansApart(Next(s, step))
  {
    var s' := Next(s, step);
    hide Next;
    forall m, a | m in s'.matchers && a in s'.executions && Listening(s', a) && s'.executions[a].exp.txHash in s'.matchers[m].keys
      ensures Test(s'.executions[a].exp, s'.matchers[m].event)
    {
      ListeningStaysOrComes(s, step, a);
      MatcherStaysOrComes(s, step, m);
      if step.Submit? && step.a == a {
        SubmittedIs(s, step.a, step.exp);
      } else if step.Scan? && step.m == m {
        MatchedIsOwn(s, step.event, a);
      }
    }
  }

  lemma MatcherStaysOrComes(s: System, step: TrackerStep, m: nat)
    requires Enabled(s, step) && m in Next(s, step).matchers
    ensures var matcher := Next(s, step).matchers[m];
      (m in s.matchers && s.matchers[m] == matcher)
      || (step.Scan? && step.m == m && matcher == Matcher(step.event, MatchedKeys(s.tracker, step.event)))
  {
    hide Resolved;
    hide FatesOfResolution;
  }

  /** A hash that was never used is free, and no scan holds it. */
  lemma NewIsFree(s: System, step: TrackerStep)
    requires KeysUsed(s) && NewHash(s, step)
    ensures FreeHash(s, step)
    ensures step.Submit? ==> forall m :: m in s.matchers ==> step.exp.txHash !in s.matchers[m].keys
  {
  }

  lemma {:induction false} ApartForEver(s: System, steps: seq<TrackerStep>)
    requires Sane(s) && ScansApart(s) && IsRun(s, steps) && NeverReuses(s, steps)
    ensures Sane(Run(s, steps)) && ScansApart(Run(s, steps)) && SentRightly(Run(s, steps))
    decreases |steps|
  {
    hide Next;
    hide Enabled;
    hide ScansApart;
    hide NewHash;
    hide FreeHash;
    if steps != [] {
      NewIsFree(s, steps[0]);
      StaysSane(s, steps[0]);
      StaysApart(s, steps[0]);
      ApartForEver(Next(s, steps[0]), steps[1..]);
    }
  }

  // ---------- exactly ----------

  ghost predicate LeadsAstray(s: System, steps: seq<TrackerStep>) {
    IsRun(s, steps) && NeverReuses(s, steps) && !SentRightly(Run(s, steps))
  }

  /** From here on, and if no further hash comes back, everyone is sent only what it expects. */
  ghost predicate SafeForEver(s: System) {
    forall steps :: IsRun(s, steps) && NeverReuses(s, steps) ==> SentRightly(Run(s, steps))
  }

  lemma HeldScanMisleads(s: System, m: nat, a: nat)
    requires Sane(s) && m in s.matchers && a in s.executions && Listening(s, a)
    requires s.executions[a].exp.txHash in s.matchers[m].keys && !Test(s.executions[a].exp, s.matchers[m].event)
    requires HasRow(s.tracker, s.executions[a].exp, a)
    ensures !SentRightly(Next(s, Resolve(m)))
  {
    hide ActiveDiffer;
    hide KeysUsed;
    var s' := Next(s, Resolve(m));
    assert a in Receivers(s.tracker, s.matchers[m].keys);
    assert s'.tracker.delivered[a] == s.matchers[m].event;
  }

  lemma RegistersFreely(s: System, a: nat)
    requires Sane(s) && a in s.executions && s.executions[a].phase == Submitted
    ensures var s' := Next(s, Register(a));
      && s'.matchers == s.matchers && a in s'.executions && s'.executions[a].exp == s.executions[a].exp
      && HasRow(s'.tracker, s'.executions[a].exp, a) && Listening(s', a)
  {
    var h := s.executions[a].exp.txHash;
    assert Active(s, a);
    if h in s.tracker.table {
      assert Active(s, s.tracker.table[h].channel);
      assert false;
    }
  }

  lemma NotApartGoesAstray(s: System, m: nat, a: nat) returns (steps: seq<TrackerStep>)
    requires Sane(s) && m in s.matchers && a in s.executions && Listening(s, a)
    requires s.executions[a].exp.txHash in s.matchers[m].keys && !Test(s.executions[a].exp, s.matchers[m].event)
    ensures LeadsAstray(s, steps)
  {
    hide IsRun;
    hide Run;
    hide NeverReuses;
    hide Next;
    hide Sane;
    hide SentRightly;
    if HasRow(s.tracker, s.executions[a].exp, a) {
      HeldScanMisleads(s, m, a);
      OneStep(s, Resolve(m));
      steps := [Resolve(m)];
    } else {
      RegistersFreely(s, a);
      RegisteringStaysSane(s, a);
      HeldScanMisleads(Next(s, Register(a)), m, a);
      OneStep(s, Register(a));
      OneMoreStep(s, [Register(a)], Resolve(m));
      steps := [Register(a)] + [Resolve(m)];
    }
    OnlySubmittingReuses(s, steps);
  }

  lemma RegisteringStaysSane(s: System, a: nat)
    requires Sane(s) && a in s.executions && s.executions[a].phase == Submitted
    ensures Sane(Next(s, Register(a)))
  {
    RowsAndChannelsFit(s, Register(a));
    StaysDifferent(s, Register(a));
    HashesStayUsed(s, Register(a));
    OthersSendNothing(s, Register(a));
  }

  /** Safety for ever is exactly that no outstanding scan can surprise a listening registrant. */
  lemma SafetyExact(s: System)
    requires Sane(s)
    ensures SafeForEver(s) <==> ScansApart(s)
  {
    hide Sane;
    hide IsRun;
    hide Run;
    hide NeverReuses;
    if ScansApart(s) {
      forall steps | IsRun(s, steps) && NeverReuses(s, steps) ensures SentRightly(Run(s, steps)) {
        ApartForEver(s, steps);
      }
    } else {
      var m, a :| m in s.matchers && a in s.executions && Listening(s, a)
        && s.executions[a].exp.txHash in s.matchers[m].keys && !Test(s.executions[a].exp, s.matchers[m].event);
      var steps := NotApartGoesAstray(s, m, a);
    }
  }

  /**
   Submitting an action under a hash that no active action has, but an earlier one may have had, stays safe
   for ever exactly if no outstanding scan holds the hash with an event the new action does not expect.
   */
  lemma ReuseIsSafeExactly(s: System, a: nat, exp: Expectation)
    requires Sane(s) && ScansApart(s) && Enabled(s, Submit(a, exp)) && FreeHash(s, Submit(a, exp))
    ensures SafeForEver(Next(s, Submit(a, exp)))
       <==> forall m :: m in s.matchers && exp.txHash in s.matchers[m].keys ==> Test(exp, s.matchers[m].event)
  {
    hide SafeForEver;
    hide Next;
    hide FreeHash;
    var s' := Next(s, Submit(a, exp));
    StaysSane(s, Submit(a, exp));
    SafetyExact(s');
    SubmittedIs(s, a, exp);
    hide Sane;
    if forall m :: m in s.matchers && exp.txHash in s.matchers[m].keys ==> Test(exp, s.matchers[m].event) {
      StaysApart(s, Submit(a, exp));
    } else {
      assert Listening(s', a);
    }
  }

  /** A node that starts is in such a state, so without reused hashes it is safe for ever. */
  lemma StartIsSafe()
    ensures Sane(Start) && SafeForEver(Start)
  {
    assert ScansApart(Start);
    SafetyExact(Start);
  }
}
