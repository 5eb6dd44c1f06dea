/**
 * Exactly which decisions an exchange can take: for every decision the sequential reading allows
 * there is an order of callbacks under which the exchange takes it, and no clean run takes another.
 */
module DnsOutcomes {
  import opened Options
  import opened DnsRules
  import opened DnsMode
  import opened DnsSequential
  import opened DnsWalk
  import opened DnsWalkInvariant
  import opened DnsWalkSteps
  import opened DnsWalkShape
  import opened DnsExchange
  import opened DnsRuns

  /** The run is clean and ends with decision d, not with the end of the context. */
  ghost predicate TakenBy(w: World, asynchronous: bool, cs: seq<Config>, es: seq<Event>, d: Decision) {
    && IsRun(w, cs, es) && cs[0] == Start(w, asynchronous) && CleanRun(w, cs, es, |es|)
    && cs[|es|].phase == Decided(d) && !cs[|es|].ended
  }

  ghost predicate Takes(w: World, asynchronous: bool, d: Decision) {
    exists cs, es :: TakenBy(w, asynchronous, cs, es, d)
  }

  // ---- Building runs ----

  ghost predicate EndsAt(w: World, asynchronous: bool, cs: seq<Config>, es: seq<Event>, c: Config) {
    IsRun(w, cs, es) && cs[0] == Start(w, asynchronous) && Atomic(cs, es, |es|) && cs[|es|] == c
  }

  /** Some run without a callback in a window ends here. */
  ghost predicate Reached(w: World, asynchronous: bool, c: Config) {
    exists cs, es :: EndsAt(w, asynchronous, cs, es, c)
  }

  lemma StartIsReached(w: World, asynchronous: bool)
    ensures Reached(w, asynchronous, Start(w, asynchronous))
  {
    assert EndsAt(w, asynchronous, [Start(w, asynchronous)], [], Start(w, asynchronous));
  }

  lemma ReachedStep(w: World, asynchronous: bool, c: Config, e: Event)
    requires Reached(w, asynchronous, c) && WellFormed(w, c) && Enabled(c, e)
    requires c.phase.Reading? || c.phase.Sweeping? ==> !e.Complete?
    ensures Reached(w, asynchronous, Step(w, c, e))
  {
    var cs, es :| EndsAt(w, asynchronous, cs, es, c);
    var c' := Step(w, c, e);
    assert Follows(w, c, e, c');
    hide Step, WellFormed, Enabled, Start, Follows;
    var cs', es' := cs + [c'], es + [e];
    forall i | 0 <= i < |es'| ensures Follows(w, cs'[i], es'[i], cs'[i + 1]) {
      if i < |es| { assert Follows(w, cs[i], es[i], cs[i + 1]); }
    }
    assert EndsAt(w, asynchronous, cs', es', c');
  }

  lemma ReachedIsRight(w: World, asynchronous: bool, c: Config)
    requires Walkable(w.rules) && Reached(w, asynchronous, c)
    ensures ConfigShape(w, c) && Right(w, c) && Clean(w, c, Machine)
  {
    var cs, es :| EndsAt(w, asynchronous, cs, es, c);
    hide Walkable, ConfigShape, Right, Clean, Start, AllSettled;
    RunKeepsShape(w, cs, es, |es|);
    AtomicIsClean(w, cs, es, |es|);
    RunKeepsRight(w, cs, es, |es|);
    SettledIsClean(w, c, Machine);
  }

  lemma ReachedIsTaken(w: World, asynchronous: bool, c: Config, d: Decision)
    requires Walkable(w.rules) && Reached(w, asynchronous, c) && c.phase == Decided(d) && !c.ended
    ensures Takes(w, asynchronous, d)
  {
    var cs, es :| EndsAt(w, asynchronous, cs, es, c);
    hide Walkable, CleanRun, Start;
    AtomicIsClean(w, cs, es, |es|);
    assert TakenBy(w, asynchronous, cs, es, d);
  }

  // ---- The schedule: let the wanted queries come back as early as they can, and no others ----

  ghost predicate Within(qs: set<Query>, wanted: Query -> bool) {
    forall q | q in qs :: wanted(q)
  }

  ghost function Any(): Query -> bool {
    q => true
  }

  ghost function Among(qs: set<Query>): Query -> bool {
    q => q in qs
  }

  lemma AllAreWithin(qs: set<Query>)
    ensures Within(qs, Any())
  {
  }

  /** Every armed rule still waits for a query that is not wanted. */
  ghost predicate HeldOut(w: World, armed: seq<Armed>, wanted: Query -> bool) {
    forall k | 0 <= k < |armed| :: !Within(Bound(w, armed[k].index), wanted)
  }

  /** Every wanted query that was sent has come back. */
  ghost predicate Gathered(st: Walk, done: set<nat>, wanted: Query -> bool) {
    forall k | 0 <= k < |st.futures| && wanted(st.futures[k].query) :: k in done
  }

  ghost predicate OnSchedule(w: World, asynchronous: bool, c: Config, wanted: Query -> bool) {
    && Reached(w, asynchronous, c)
    && (c.phase.Walking? || c.phase.Reading?)
    && !c.ended && c.direct == asynchronous && c.st.terminal.None?
    && Inv(w, c.st, c.done) && WellFormed(w, c)
    && Within(Returned(c.st, c.done), wanted)
    && HeldOut(w, c.st.armed, wanted)
    && (c.phase.Reading? ==> Gathered(c.st, c.done, wanted) && CleanRead(w, c.st, c.done) && Ranged(w, c.st))
  }

  /** A configuration of the schedule from its parts. */
  lemma KeepsSchedule(w: World, asynchronous: bool, c: Config, wanted: Query -> bool)
    requires Walkable(w.rules) && Reached(w, asynchronous, c) && (c.phase.Walking? || c.phase.Reading?)
    requires !c.ended && c.direct == asynchronous && c.st.terminal.None?
    requires Within(Returned(c.st, c.done), wanted) && HeldOut(w, c.st.armed, wanted)
    requires c.phase.Reading? ==> Gathered(c.st, c.done, wanted)
    ensures OnSchedule(w, asynchronous, c, wanted)
  {
    ReachedIsRight(w, asynchronous, c);
    hide Walkable, Reached, Within, HeldOut, Gathered, Returned, Inv, Shape, CancelledRight, Bounded, CleanRead, Ranged;
  }

  lemma StartIsOnSchedule(w: World, asynchronous: bool, wanted: Query -> bool)
    requires Walkable(w.rules)
    ensures OnSchedule(w, asynchronous, Start(w, asynchronous), wanted)
  {
    StartIsReached(w, asynchronous);
    hide Reached, Walkable;
    KeepsSchedule(w, asynchronous, Start(w, asynchronous), wanted);
  }

  /** One wanted query comes back. */
  lemma GatherOne(w: World, asynchronous: bool, c: Config, wanted: Query -> bool, k: nat) returns (c': Config)
    requires Walkable(w.rules) && OnSchedule(w, asynchronous, c, wanted) && c.phase.Walking?
    requires k < |c.st.futures| && wanted(c.st.futures[k].query)
    ensures OnSchedule(w, asynchronous, c', wanted) && c' == c.(done := c.done + {k})
  {
    c' := c.(done := c.done + {k});
    if k in c.done {
      assert c.done + {k} == c.done;
    } else {
      assert Step(w, c, Complete(k)) == c';
      hide Walkable, Reached, Inv, HeldOut, Step;
      ReachedStep(w, asynchronous, c, Complete(k));
      assert Returned(c'.st, c'.done) == Returned(c.st, c.done) + {c.st.futures[k].query};
      KeepsSchedule(w, asynchronous, c', wanted);
    }
  }

  lemma {:induction false} GatherUpTo(w: World, asynchronous: bool, c: Config, wanted: Query -> bool, n: nat)
      returns (c': Config)
    requires Walkable(w.rules) && OnSchedule(w, asynchronous, c, wanted) && c.phase.Walking? && n <= |c.st.futures|
    ensures OnSchedule(w, asynchronous, c', wanted) && c' == c.(done := c'.done) && c.done <= c'.done
    ensures forall k | 0 <= k < n && wanted(c.st.futures[k].query) :: k in c'.done
  {
    hide Walkable, OnSchedule;
    if n == 0 {
      c' := c;
    } else {
      c' := GatherUpTo(w, asynchronous, c, wanted, n - 1);
      if wanted(c.st.futures[n - 1].query) {
        c' := GatherOne(w, asynchronous, c', wanted, n - 1);
      }
    }
  }

  /** All wanted queries come back and the futures are settled: the next rule is about to be read. */
  lemma Gather(w: World, asynchronous: bool, c: Config, wanted: Query -> bool) returns (c': Config)
    requires Walkable(w.rules) && OnSchedule(w, asynchronous, c, wanted) && c.phase.Walking?
    ensures OnSchedule(w, asynchronous, c', wanted) && c'.phase.Reading? && c'.st.ruleIndex == c.st.ruleIndex
  {
    var c1 := GatherUpTo(w, asynchronous, c, wanted, |c.st.futures|);
    c' := c1.(st := SettleFor(w, c1.st, c1.done), phase := Reading);
    assert MachineStep(w, c1) == c';
    assert Returned(c'.st, c'.done) == Returned(c1.st, c1.done) by { ReturnedFrame(c1.st, c'.st, c1.done); }
    hide Walkable, Reached, Inv, HeldOut, MachineStep, SettleFor, Returned, Within;
    ReachedStep(w, asynchronous, c1, Machine);
    KeepsSchedule(w, asynchronous, c', wanted);
  }

  // ---- One rule on schedule ----

  /** With all wanted queries there, what a rule waits for is a query it binds that is not wanted. */
  lemma WaitIsOut(w: World, st: Walk, done: set<nat>, wanted: Query -> bool, k: nat)
    requires Agrees(w, st) && st.ruleIndex < |w.rules| && Gathered(st, done, wanted)
    requires k < |Waits(w.rules[st.ruleIndex], st, done)|
    ensures !Within(Bound(w, st.ruleIndex), wanted)
  {
    WaitsAreBound(w, st, done);
    var out := Waits(w.rules[st.ruleIndex], st, done)[k];
    hide Bound, Agrees, Waits;
    assert st.futures[out].query in Bound(w, st.ruleIndex) && !wanted(st.futures[out].query);
  }

  /** A rule whose queries are all wanted waits for nothing. */
  lemma WantedIsThere(w: World, st: Walk, done: set<nat>, wanted: Query -> bool)
    requires Agrees(w, st) && st.ruleIndex < |w.rules| && Gathered(st, done, wanted)
    requires Within(Bound(w, st.ruleIndex), wanted)
    ensures Waits(w.rules[st.ruleIndex], st, done) == []
  {
    hide Bound, Agrees, Within, Waits;
    if Waits(w.rules[st.ruleIndex], st, done) != [] {
      WaitIsOut(w, st, done, wanted, 0);
    }
  }

  /** The walk goes on to the next rule. */
  lemma GoesOn(w: World, asynchronous: bool, c: Config, wanted: Query -> bool, st: Walk) returns (c': Config)
    requires Walkable(w.rules) && OnSchedule(w, asynchronous, c, wanted) && c.phase.Reading?
    requires ReadRule(w, c.st, c.done) == (st, Continue)
    requires st.terminal.None? && HeldOut(w, st.armed, wanted) && st.ruleIndex == c.st.ruleIndex + 1
    requires |c.st.futures| <= |st.futures| && st.futures[..|c.st.futures|] == c.st.futures
    ensures OnSchedule(w, asynchronous, c', wanted) && c'.phase.Walking? && c'.st.ruleIndex == c.st.ruleIndex + 1
  {
    c' := c.(st := st, phase := Walking);
    ReadingStep(w, c);
    assert MachineStep(w, c) == c';
    assert Bounded(c.st, c.done);
    ReturnedGrows(c.st, st, c.done);
    hide Walkable, Reached, Inv, HeldOut, MachineStep, ReadRule, Returned, Within, Ranged, CleanRead, Gathered;
    ReachedStep(w, asynchronous, c, Machine);
    KeepsSchedule(w, asynchronous, c', wanted);
  }

  /** The action of a matched rule that does not decide, with nothing armed where that is asked for. */
  lemma ActPasses(w: World, st: Walk, done: set<nat>)
    requires Agrees(w, st) && st.ruleIndex < |w.rules| && !Armable(w.rules[st.ruleIndex])
    requires MatchesAt(w, st.ruleIndex, Reach(w, st.ruleIndex)) && Reach(w, st.ruleIndex + 1).Running?
    requires Barrier(w, st.ruleIndex) ==> st.armed == []
    ensures Indexed(st) && Act(w, st, done).1 == Continue && Passed(st, Act(w, st, done).0)
  {
    hide MatchesAt, Armable, ApplyRouteOptions, RouteQuery, EvaluateQuery, HasBindings, Barrier, Reach, Agrees, Indexed;
    var i := st.ruleIndex;
    AgreesOptions(w, st);
    match w.rules[i].action
    case SetOptions(_) =>
    case Evaluate(_, _, _, _) =>
      EvaluateIsBarrier(w, i);
      EvaluatePasses(w, st, done);
    case Route(_, _, _) => RouteReaches(w, i);
    case Respond => RespondReaches(w, i);
    case Reject(rejectMethod) =>
      FixedReaches(w, i);
      assert rejectMethod == RejectDefault || rejectMethod == RejectDrop || rejectMethod == RejectReply;
      ReplyIsBarrier(w, i);
    case Predefined(_) => FixedReaches(w, i);
  }

  /** What passing a rule changes: perhaps a query more, and nothing armed or disarmed. */
  ghost predicate Passed(st: Walk, st': Walk) {
    && st'.armed == st.armed && st'.terminal == st.terminal && st'.ruleIndex == st.ruleIndex + 1
    && |st.futures| <= |st'.futures| && st'.futures[..|st.futures|] == st.futures
  }

  lemma EvaluatePasses(w: World, st: Walk, done: set<nat>)
    requires Indexed(st) && st.ruleIndex < |w.rules| && w.rules[st.ruleIndex].action.Evaluate?
    requires var action := w.rules[st.ruleIndex].action;
      action.speculative || EvaluateQuery(w, st.ruleIndex, action, st.options).None? || st.armed == []
    ensures Act(w, st, done).1 == Continue && Passed(st, Act(w, st, done).0)
  {
    hide EvaluateQuery, Indexed;
    var st' := Act(w, st, done).0;
    assert st'.futures == st.futures || st'.futures == st.futures + [st'.futures[|st.futures|]];
  }

  lemma AgreesOptions(w: World, st: Walk)
    requires Agrees(w, st)
    ensures Indexed(st) && st.ruleIndex <= |w.rules| && Reach(w, st.ruleIndex).Running?
    ensures st.options == Reach(w, st.ruleIndex).options
  {
  }

  lemma EvaluateIsBarrier(w: World, i: nat)
    requires i < |w.rules| && !Armable(w.rules[i]) && Reach(w, i).Running? && MatchesAt(w, i, Reach(w, i))
    requires w.rules[i].action.Evaluate?
    ensures Barrier(w, i) <==>
      !w.rules[i].action.speculative && EvaluateQuery(w, i, w.rules[i].action, Reach(w, i).options).Some?
  {
  }

  lemma ReplyIsBarrier(w: World, i: nat)
    requires i < |w.rules| && !Armable(w.rules[i]) && Reach(w, i).Running? && MatchesAt(w, i, Reach(w, i))
    ensures w.rules[i].action == Reject(RejectReply) ==> Barrier(w, i)
  {
  }

  lemma RespondReaches(w: World, i: nat)
    requires i < |w.rules| && Reach(w, i).Running? && !Armable(w.rules[i])
    requires MatchesAt(w, i, Reach(w, i)) && w.rules[i].action.Respond?
    ensures Reach(w, i + 1).Stopped?
  {
    hide MatchesAt, Armable;
  }

  /** A rule that is not a race rule is passed when all it awaits is wanted. */
  lemma PassPlain(w: World, asynchronous: bool, c: Config, wanted: Query -> bool) returns (c': Config)
    requires Walkable(w.rules) && OnSchedule(w, asynchronous, c, wanted) && c.phase.Reading?
    requires c.st.ruleIndex < |w.rules| && !Armable(w.rules[c.st.ruleIndex])
    requires Reach(w, c.st.ruleIndex + 1).Running? && Within(Bound(w, c.st.ruleIndex), wanted)
    requires Barrier(w, c.st.ruleIndex) ==> Within(RaceBound(w, c.st.ruleIndex), wanted)
    ensures OnSchedule(w, asynchronous, c', wanted) && c'.phase.Walking? && c'.st.ruleIndex == c.st.ruleIndex + 1
  {
    var st := c.st;
    InvHere(w, st, c.done);
    assert Barrier(w, st.ruleIndex) ==> st.armed == [] by {
      if Barrier(w, st.ruleIndex) && st.armed != [] { HeldOutIsUnwanted(w, st, c.done, wanted); }
    }
    hide Barrier, Bound, Inv, Reach, Armable, Within, HeldOut, Walkable, SeesRight, Agrees, Recorded, Tried, Returned,
      TerminalOk;
    WantedIsThere(w, st, c.done, wanted);
    PlainRuleMatches(w, st, c.done);
    var (st', end) := ReadRule(w, st, c.done);
    ReadsPlain(w, st, c.done);
    if Matches(w.rules[st.ruleIndex], st.namedResponses, AnonymousView(w, st, c.done)) {
      ActPasses(w, st, c.done);
    }
    hide Act, Matches;
    c' := GoesOn(w, asynchronous, c, wanted, st');
  }

  lemma ReadsPlain(w: World, st: Walk, done: set<nat>)
    requires Ranged(w, st) && st.ruleIndex < |w.rules| && !Armable(w.rules[st.ruleIndex])
    requires Waits(w.rules[st.ruleIndex], st, done) == []
    ensures ReadRule(w, st, done) ==
      if Matches(w.rules[st.ruleIndex], st.namedResponses, AnonymousView(w, st, done)) then Act(w, st, done)
      else (Next(st), Continue)
  {
    hide Act, Matches, Armable, Waits;
  }

  /** Something armed at a barrier would be a race rule whose queries are all wanted. */
  lemma HeldOutIsUnwanted(w: World, st: Walk, done: set<nat>, wanted: Query -> bool)
    requires Inv(w, st, done) && HeldOut(w, st.armed, wanted) && st.armed != []
    ensures !Within(RaceBound(w, st.ruleIndex), wanted)
  {
    var a := st.armed[0];
    assert ArmedOk(w, st, a, done) && a.index < st.ruleIndex;
    RaceBoundHas(w, st.ruleIndex, a.index);
    hide Bound, RaceBound, Inv, ArmedOk;
    var q :| q in Bound(w, a.index) && !wanted(q);
    assert q in RaceBound(w, st.ruleIndex);
  }

  /** What is held out is not ready: what has come back is wanted. */
  lemma HeldOutIsUnready(w: World, st: Walk, done: set<nat>, a: Armed, wanted: Query -> bool)
    requires ArmedOk(w, st, a, done) && Within(Returned(st, done), wanted) && !Within(Bound(w, a.index), wanted)
    ensures !Ready(a, done)
  {
    if Ready(a, done) {
      ReadyIsBack(w, st, a, done);
      hide Bound, Returned, ArmedOk, Ready, Within;
      WithinSubset(Bound(w, a.index), Returned(st, done), wanted);
    }
  }

  /** The sweep of a race rule that waits for nothing: none but that rule can commit. */
  lemma SweepHere(w: World, st: Walk, done: set<nat>, wanted: Query -> bool)
    requires Walkable(w.rules) && Inv(w, st, done) && Ranged(w, st) && CleanRead(w, st, done)
    requires st.ruleIndex < |w.rules| && Armable(w.rules[st.ruleIndex]) && Waits(w.rules[st.ruleIndex], st, done) == []
    requires Within(Returned(st, done), wanted) && HeldOut(w, st.armed, wanted)
    ensures var a := ArmedHere(w, st, done);
      var st' := st.(armed := st.armed + [a]);
      && Ranged(w, st') && Contends(w, st.ruleIndex)
      && var (swept, commit) := Sweep(w, st', done, 0);
      && commit == RaceVerdict(w, st.ruleIndex)
      && (commit.None? ==> HeldOut(w, swept.armed, wanted))
  {
    hide ArmedHere, Inv, Walkable, Waits, Within, Returned, Bound, SeesRight, SweepReads, Armable, Recorded, ArmedOk,
      Sweep, Ready, InOrder, Contends, RaceVerdict, FirstCommit, Disarmed, HeldOut, Ranged;
    var a := ArmedHere(w, st, done);
    var st' := st.(armed := st.armed + [a]);
    ArmedHereRangedIn(w, st, done);
    ArmedSweepable(w, st, done);
    SweepCommitsFirst(w, st', done, 0);
    ReadyHere(w, st, done, wanted);
    var (swept, commit) := Sweep(w, st', done, 0);
    OnlyTheLast(w, st.armed, a, swept.armed, done, commit, wanted);
  }

  /** Of the rules armed when a race rule waits for nothing, that rule is ready and no other. */
  lemma ReadyHere(w: World, st: Walk, done: set<nat>, wanted: Query -> bool)
    requires Inv(w, st, done) && st.ruleIndex < |w.rules| && Armable(w.rules[st.ruleIndex])
    requires ArmedHere(w, st, done).waits == []
    requires Within(Returned(st, done), wanted) && HeldOut(w, st.armed, wanted)
    ensures Contends(w, st.ruleIndex) && Ready(ArmedHere(w, st, done), done)
    ensures forall k | 0 <= k < |st.armed| :: !Ready(st.armed[k], done)
  {
    InvHere(w, st, done);
    assert forall k | 0 <= k < |st.armed| :: ArmedOk(w, st, st.armed[k], done);
    hide Inv, Agrees, Recorded, Tried, Returned, TerminalOk, Bound, Within, ArmedOk, Armable, ArmedHere, Reach, Indexed;
    forall k | 0 <= k < |st.armed| ensures !Ready(st.armed[k], done) {
      HeldOutIsUnready(w, st, done, st.armed[k], wanted);
    }
  }

  lemma OnlyTheLast(w: World, armed: seq<Armed>, a: Armed, left: seq<Armed>, done: set<nat>, commit: Option<Decision>,
      wanted: Query -> bool)
    requires (forall k | 0 <= k < |armed| :: !Ready(armed[k], done)) && Ready(a, done) && Contends(w, a.index)
    requires commit.Some? ==> exists j: nat :: FirstCommit(w, armed + [a], done, 0, j, commit.value)
    requires commit.None? ==> Disarmed(w, armed + [a], left, done)
    requires HeldOut(w, armed, wanted)
    ensures commit == RaceVerdict(w, a.index)
    ensures commit.None? ==> HeldOut(w, left, wanted)
  {
    hide Ready, Contends, Bound, RaceVerdict, Within;
    assert (armed + [a])[|armed|] == a && forall k | 0 <= k < |armed| :: (armed + [a])[k] == armed[k];
    if commit.Some? {
      var j: nat :| FirstCommit(w, armed + [a], done, 0, j, commit.value);
    } else {
      assert a in armed + [a];
      assert a !in left;
      forall k | 0 <= k < |left| ensures !Within(Bound(w, left[k].index), wanted) {
        assert left[k] in armed + [a] && left[k] != a;
        var j :| 0 <= j < |armed| && armed[j] == left[k];
      }
    }
  }

  /** A race rule is passed when it takes no decision or still waits for a query that is not wanted. */
  lemma PassRace(w: World, asynchronous: bool, c: Config, wanted: Query -> bool) returns (c': Config)
    requires Walkable(w.rules) && OnSchedule(w, asynchronous, c, wanted) && c.phase.Reading?
    requires Contends(w, c.st.ruleIndex)
    requires RaceVerdict(w, c.st.ruleIndex).None? || !Within(Bound(w, c.st.ruleIndex), wanted)
    ensures OnSchedule(w, asynchronous, c', wanted) && c'.phase.Walking? && c'.st.ruleIndex == c.st.ruleIndex + 1
  {
    var st := c.st;
    assert st.ruleIndex < |w.rules| && Armable(w.rules[st.ruleIndex]);
    InvHere(w, st, c.done);
    hide Inv, Walkable, Agrees, Recorded, Tried, Returned, TerminalOk, Bound, Contends, RaceVerdict, Within, Armable,
      CleanRead, Reach;
    var a := ArmedHere(w, st, c.done);
    var st' := st.(armed := st.armed + [a]);
    ArmedHereRangedIn(w, st, c.done);
    ReadsRace(w, st, c.done);
    if a.waits != [] {
      WaitIsUnwanted(w, st, c.done, wanted);
      hide ArmedHere;
      c' := GoesOn(w, asynchronous, c, wanted, Next(st'));
    } else {
      PlainRuleIsBound(w, st, c.done);
      WithinSubset(Bound(w, st.ruleIndex), Returned(st, c.done), wanted);
      SweepHere(w, st, c.done, wanted);
      var (swept, commit) := Sweep(w, st', c.done, 0);
      hide ArmedHere, Sweep, Ranged;
      c' := GoesOn(w, asynchronous, c, wanted, Next(swept));
    }
  }

  lemma WithinSubset(qs: set<Query>, back: set<Query>, wanted: Query -> bool)
    requires qs <= back && Within(back, wanted)
    ensures Within(qs, wanted)
  {
  }

  lemma ArmedHereRangedIn(w: World, st: Walk, done: set<nat>)
    requires Ranged(w, st) && st.ruleIndex < |w.rules|
    ensures Ranged(w, st.(armed := st.armed + [ArmedHere(w, st, done)]))
    ensures ArmedHere(w, st, done).index == st.ruleIndex
    ensures ArmedHere(w, st, done).waits == Waits(w.rules[st.ruleIndex], st, done)
  {
  }

  lemma ReadsRace(w: World, st: Walk, done: set<nat>)
    requires Ranged(w, st) && st.ruleIndex < |w.rules| && Armable(w.rules[st.ruleIndex])
    requires Ranged(w, st.(armed := st.armed + [ArmedHere(w, st, done)]))
    ensures var a := ArmedHere(w, st, done);
      var st' := st.(armed := st.armed + [a]);
      var (swept, commit) := Sweep(w, st', done, 0);
      && (a.waits != [] ==> ReadRule(w, st, done) == (Next(st'), Continue))
      && (a.waits == [] && commit.None? ==> ReadRule(w, st, done) == (Next(swept), Continue))
      && (a.waits == [] && commit.Some? && commit.value.Forwarded? ==>
            ReadRule(w, st, done)
            == (swept.(armed := []), Suspend(Pending(PendingExchange(commit.value.query, None)))))
      && (a.waits == [] && commit.Some? && !commit.value.Forwarded? ==>
            ReadRule(w, st, done) == (swept, Decide(commit.value)))
  {
    hide Sweep, ArmedHere, Ranged, Armable;
  }

  /** A rule that has to wait, with all wanted queries there, waits for one that is not wanted. */
  lemma WaitIsUnwanted(w: World, st: Walk, done: set<nat>, wanted: Query -> bool)
    requires Agrees(w, st) && st.ruleIndex < |w.rules| && Gathered(st, done, wanted)
    requires HeldOut(w, st.armed, wanted) && ArmedHere(w, st, done).waits != []
    ensures HeldOut(w, st.armed + [ArmedHere(w, st, done)], wanted)
  {
    hide Bound, Agrees, Within, Waits;
    WaitIsOut(w, st, done, wanted, 0);
  }

  // ---- The end of a run ----

  /** A rule that decides, or takes a final exchange of its own, ends the run with that decision. */
  lemma Concludes(w: World, asynchronous: bool, c: Config, st: Walk, end: RuleEnd, d: Decision)
    requires Walkable(w.rules) && Reached(w, asynchronous, c) && c.phase.Reading? && WellFormed(w, c) && !c.ended
    requires ReadRule(w, c.st, c.done) == (st, end)
    requires end == Decide(d) || (d.Forwarded? && end == Suspend(Pending(PendingExchange(d.query, None))))
    ensures Takes(w, asynchronous, d)
  {
    ReadingStep(w, c);
    var c' := AfterRule(c, st, end);
    assert MachineStep(w, c) == c';
    hide Walkable, Reached, Takes, ReadRule, MachineStep, AllFutures, Ranged;
    ReachedStep(w, asynchronous, c, Machine);
    if end.Decide? {
      ReachedIsTaken(w, asynchronous, c', d);
    } else if c.direct {
      Finishes(w, asynchronous, c', d);
    } else {
      CatchesUp(w, asynchronous, c', d);
    }
  }

  lemma Finishes(w: World, asynchronous: bool, c: Config, d: Decision)
    requires Walkable(w.rules) && Reached(w, asynchronous, c) && !c.ended && d.Forwarded?
    requires c.phase == Finishing(PendingExchange(d.query, None))
    ensures Takes(w, asynchronous, d)
  {
    hide Walkable, Reached, Takes, AllFutures;
    ReachedStep(w, asynchronous, c, Machine);
    ReachedIsTaken(w, asynchronous, MachineStep(w, c), d);
  }

  /** A suspended exchange settles and sweeps once more; nothing is armed, so nothing comes of it. */
  lemma CatchesUp(w: World, asynchronous: bool, c: Config, d: Decision)
    requires Walkable(w.rules) && Reached(w, asynchronous, c) && !c.ended && d.Forwarded?
    requires c.phase == Resuming(Pending(PendingExchange(d.query, None)))
    ensures Takes(w, asynchronous, d)
  {
    hide Walkable, Reached, Takes, AllFutures, ConfigShape, Settle, Right, Clean, Sweep;
    var c1 := MachineStep(w, c);
    ReachedStep(w, asynchronous, c, Machine);
    ReachedIsRight(w, asynchronous, c1);
    SweepsNothing(w, c1);
    var c2 := MachineStep(w, c1);
    assert c2.phase == Checking(Pending(PendingExchange(d.query, None))) && !c2.ended;
    ReachedStep(w, asynchronous, c1, Machine);
    ReachedStep(w, asynchronous, c2, Machine);
    Finishes(w, asynchronous, MachineStep(w, c2), d);
  }

  lemma SweepsNothing(w: World, c: Config)
    requires ConfigShape(w, c) && c.phase.Sweeping? && c.phase.suspension.Pending?
    ensures WellFormed(w, c) && MachineStep(w, c) == c.(phase := Checking(c.phase.suspension))
  {
    SweepingShape(w, c);
    SweepingStep(w, c);
    hide Shape, Sweep, Ranged, CancelledRight, MachineStep, AllFutures;
  }

  // ---- Every allowed decision is taken ----

  /** The walk reaches race rule i with what it needs and nothing else, and the rule commits. */
  lemma CommitsThere(w: World, asynchronous: bool, c: Config, i: nat, d: Decision)
    requires Walkable(w.rules) && MayCommit(w, i, d)
    requires OnSchedule(w, asynchronous, c, Among(Needed(w, i))) && c.phase.Reading? && c.st.ruleIndex == i
    ensures Takes(w, asynchronous, d)
  {
    var wanted := Among(Needed(w, i));
    var st := c.st;
    assert i < |w.rules| && Armable(w.rules[i]) && RaceVerdict(w, i) == Some(d);
    InvHere(w, st, c.done);
    assert Within(Bound(w, i), wanted);
    hide Inv, Walkable, Agrees, Recorded, Tried, Returned, TerminalOk, Bound, Contends, RaceVerdict, Within, Armable,
      CleanRead, Reach, Needed, MayCommit, Takes;
    WantedIsThere(w, st, c.done, wanted);
    ArmedHereRangedIn(w, st, c.done);
    ReadsRace(w, st, c.done);
    SweepHere(w, st, c.done, wanted);
    hide ArmedHere, Sweep, Ranged, HeldOut, Gathered;
    var (st', end) := ReadRule(w, st, c.done);
    Concludes(w, asynchronous, c, st', end, d);
  }

  lemma {:induction false} DriveToRace(w: World, asynchronous: bool, c: Config, i: nat, d: Decision)
    requires Walkable(w.rules) && MayCommit(w, i, d)
    requires OnSchedule(w, asynchronous, c, Among(Needed(w, i))) && c.phase.Walking? && c.st.ruleIndex <= i
    ensures Takes(w, asynchronous, d)
    decreases i - c.st.ruleIndex
  {
    var wanted := Among(Needed(w, i));
    hide Walkable, OnSchedule, Takes;
    var c1 := Gather(w, asynchronous, c, wanted);
    var p := c.st.ruleIndex;
    if p == i {
      CommitsThere(w, asynchronous, c1, i, d);
    } else {
      OnTheWay(w, i, d, p);
      hide Contends, RaceVerdict, Bound, RaceBound, Barrier, Reach, Armable, Needed, MayCommit, Within;
      var c2: Config;
      if Armable(w.rules[p]) {
        c2 := PassRace(w, asynchronous, c1, wanted);
      } else {
        c2 := PassPlain(w, asynchronous, c1, wanted);
      }
      DriveToRace(w, asynchronous, c2, i, d);
    }
  }

  /** What a rule before race rule i awaits is among what i needs; what an earlier race rule awaits is not. */
  lemma OnTheWay(w: World, i: nat, d: Decision, p: nat)
    requires MayCommit(w, i, d) && p < i
    ensures p < |w.rules| && Reach(w, p).Running? && Reach(w, p + 1).Running?
    ensures var wanted := Among(Needed(w, i));
      && (Armable(w.rules[p]) ==>
            Contends(w, p) && (RaceVerdict(w, p).None? || !Within(Bound(w, p), wanted)))
      && (!Armable(w.rules[p]) ==>
            Within(Bound(w, p), wanted) && (Barrier(w, p) ==> Within(RaceBound(w, p), wanted)))
  {
    assert Contends(w, i);
    assert i < |w.rules| && Reach(w, i).Running?;
    StoppedForGood(w, p, i);
    StoppedForGood(w, p + 1, i);
    assert Armable(w.rules[p]) ==> Contends(w, p);
    hide Reach, Bound, RaceBound, Barrier, Armable, RaceVerdict, Contends, Awaited;
    if Armable(w.rules[p]) {
      if RaceVerdict(w, p).Some? {
        assert !(Bound(w, p) <= Needed(w, i));
      }
    } else {
      AwaitedThere(w, p);
      AwaitedGrows(w, p + 1, i);
    }
  }

  lemma AwaitedThere(w: World, p: nat)
    requires p < |w.rules| && !Armable(w.rules[p])
    ensures Bound(w, p) <= Awaited(w, p + 1)
    ensures Barrier(w, p) ==> RaceBound(w, p) <= Awaited(w, p + 1)
  {
    hide Bound, RaceBound, Barrier, Armable;
  }

  /** With every query let back as early as it can, the walk comes to the sequential decision. */
  lemma {:induction false} DriveToEnd(w: World, asynchronous: bool, c: Config)
    requires Walkable(w.rules) && forall i: nat :: Contends(w, i) ==> RaceVerdict(w, i).None?
    requires OnSchedule(w, asynchronous, c, Any()) && c.phase.Walking? && c.st.ruleIndex <= |w.rules|
    ensures Takes(w, asynchronous, SequentialDecision(w))
    decreases |w.rules| - c.st.ruleIndex
  {
    var wanted := Any();
    hide Walkable, Takes, SequentialDecision;
    var c1 := Gather(w, asynchronous, c, wanted);
    var p := c.st.ruleIndex;
    if p == |w.rules| || Reach(w, p + 1).Stopped? {
      StopsThere(w, asynchronous, c1);
    } else {
      InvHere(w, c1.st, c1.done);
      assert Armable(w.rules[p]) ==> Contends(w, p);
      hide Contends, RaceVerdict, Bound, RaceBound, Barrier, Reach, Armable, OnSchedule;
      var c2: Config;
      if Armable(w.rules[p]) {
        c2 := PassRace(w, asynchronous, c1, wanted);
      } else {
        c2 := PassPlain(w, asynchronous, c1, wanted);
      }
      assert c2.st.ruleIndex == p + 1;
      DriveToEnd(w, asynchronous, c2);
    }
  }

  /** Nothing is held out when every query is wanted. */
  lemma NothingHeldOut(w: World, armed: seq<Armed>)
    requires HeldOut(w, armed, Any())
    ensures armed == []
  {
    hide Bound, Within, Any;
    if armed != [] {
      AllAreWithin(Bound(w, armed[0].index));
    }
  }

  lemma StopsThere(w: World, asynchronous: bool, c: Config)
    requires Walkable(w.rules) && forall i: nat :: Contends(w, i) ==> RaceVerdict(w, i).None?
    requires OnSchedule(w, asynchronous, c, Any()) && c.phase.Reading? && c.st.ruleIndex <= |w.rules|
    requires c.st.ruleIndex == |w.rules| || Reach(w, c.st.ruleIndex + 1).Stopped?
    ensures Takes(w, asynchronous, SequentialDecision(w))
  {
    NothingHeldOut(w, c.st.armed);
    var (st', end) := ReadRule(w, c.st, c.done);
    EndsHere(w, c.st, c.done);
    hide Inv, Walkable, Takes, ReadRule, SequentialDecision, Contends, RaceVerdict, CleanRead, Ranged, Gathered,
      HeldOut, Within, Returned, Allowed;
    ReadRuleSound(w, c.st, c.done);
    var d := if end.Decide? then end.decision else Forwarded(end.suspension.exchange.query);
    OnlySequential(w, d);
    Concludes(w, asynchronous, c, st', end, d);
  }

  lemma OnlySequential(w: World, d: Decision)
    requires Allowed(w, d) && forall i: nat :: Contends(w, i) ==> RaceVerdict(w, i).None?
    ensures d == SequentialDecision(w)
  {
    hide Contends, RaceVerdict, SequentialDecision, Bound, Needed;
  }

  /** A rule that stops the sequential reading ends the walk, when all has come back and nothing is armed. */
  lemma EndsHere(w: World, st: Walk, done: set<nat>)
    requires Walkable(w.rules) && Inv(w, st, done) && Ranged(w, st) && CleanRead(w, st, done)
    requires st.armed == [] && st.terminal.None? && Gathered(st, done, Any()) && st.ruleIndex <= |w.rules|
    requires st.ruleIndex == |w.rules| || Reach(w, st.ruleIndex + 1).Stopped?
    ensures var end := ReadRule(w, st, done).1;
      end.Decide? || (end.Suspend? && end.suspension.Pending? && end.suspension.exchange.future.None?)
  {
    if st.ruleIndex < |w.rules| {
      InvHere(w, st, done);
      assert !Armable(w.rules[st.ruleIndex]);
      assert Within(Bound(w, st.ruleIndex), Any());
      WantedIsThere(w, st, done, Any());
      hide Inv, Walkable, SeesRight, Agrees, Recorded, Tried, Returned, TerminalOk, Bound, Within;
      PlainRuleMatches(w, st, done);
      ReadsPlain(w, st, done);
      StopsOnlyByActing(w, st, done);
    }
  }

  lemma StopsOnlyByActing(w: World, st: Walk, done: set<nat>)
    requires st.ruleIndex < |w.rules| && Reach(w, st.ruleIndex).Running? && Reach(w, st.ruleIndex + 1).Stopped?
    requires Indexed(st) && st.options == Reach(w, st.ruleIndex).options
    requires st.armed == [] && st.terminal.None? && Gathered(st, done, Any())
    ensures MatchesAt(w, st.ruleIndex, Reach(w, st.ruleIndex))
    ensures var end := Act(w, st, done).1;
      end.Decide? || (end.Suspend? && end.suspension.Pending? && end.suspension.exchange.future.None?)
  {
    hide MatchesAt, Armable, ApplyRouteOptions, RouteQuery, EvaluateQuery, HasBindings;
  }

  /**
   * The decisions of the exchange, synchronous or asynchronous, are exactly the allowed ones: every
   * clean run that is not given up decides as allowed, and every allowed decision is that of a
   * clean run.
   */
  lemma ExactlyAllowed(w: World, asynchronous: bool, d: Decision)
    requires Walkable(w.rules)
    ensures Takes(w, asynchronous, d) <==> Allowed(w, d)
  {
    if Takes(w, asynchronous, d) {
      var cs, es :| TakenBy(w, asynchronous, cs, es, d);
      hide Walkable, Allowed, CleanRun, Start;
      RunDecidesAllowed(w, cs, es, |es|, d);
    }
    if Allowed(w, d) {
      hide Walkable, OnSchedule, Takes, SequentialDecision, Contends, RaceVerdict;
      if i: nat :| MayCommit(w, i, d) {
        StartIsOnSchedule(w, asynchronous, Among(Needed(w, i)));
        DriveToRace(w, asynchronous, Start(w, asynchronous), i, d);
      } else {
        StartIsOnSchedule(w, asynchronous, Any());
        DriveToEnd(w, asynchronous, Start(w, asynchronous));
      }
    }
  }
}
