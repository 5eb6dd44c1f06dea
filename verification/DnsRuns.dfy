/** Whole runs of an exchange: what they decide, that they end, and that they never hang. */
module DnsRuns {
  import opened Options
  import opened Counting
  import opened DnsRules
  import opened DnsMode
  import opened DnsSequential
  import opened DnsWalk
  import opened DnsWalkInvariant
  import opened DnsWalkSteps
  import opened DnsWalkShape
  import opened DnsExchange

  /** A run: a synchronous or asynchronous exchange and any interleaving of events from its start. */
  ghost predicate IsRun(w: World, cs: seq<Config>, es: seq<Event>) {
    && |cs| == |es| + 1
    && (cs[0] == Start(w, false) || cs[0] == Start(w, true))
    && forall i | 0 <= i < |es| :: Follows(w, cs[i], es[i], cs[i + 1])
  }

  ghost predicate Follows(w: World, c: Config, e: Event, c': Config) {
    WellFormed(w, c) && Enabled(c, e) && c' == Step(w, c, e)
  }

  lemma {:induction false} RunKeepsShape(w: World, cs: seq<Config>, es: seq<Event>, i: nat)
    requires Walkable(w.rules) && IsRun(w, cs, es) && i < |cs|
    ensures ConfigShape(w, cs[i])
  {
    hide ConfigShape, Walkable, Step, Start;
    if i == 0 {
      StartShape(w, false);
      StartShape(w, true);
    } else {
      RunKeepsShape(w, cs, es, i - 1);
      assert Follows(w, cs[i - 1], es[i - 1], cs[i]);
      StepKeepsShape(w, cs[i - 1], es[i - 1]);
    }
  }

  /** At any grain: a recorded response is the view of its tag's one future, and nothing else is recorded. */
  lemma RecordsAreViews(w: World, cs: seq<Config>, es: seq<Event>, i: nat)
    requires Walkable(w.rules) && IsRun(w, cs, es) && i < |cs| && !cs[i].phase.Finishing? && !cs[i].phase.Decided?
    ensures OneProducer(cs[i].st) && Recorded(w, cs[i].st) && cs[i].st.settled <= cs[i].done
  {
    RunKeepsShape(w, cs, es, i);
    hide OneProducer, Recorded, Ranged, Named, NoLostWakeUp, Missing;
  }

  // ---- What a run decides ----

  /** The first n steps of the run read right. */
  ghost predicate CleanRun(w: World, cs: seq<Config>, es: seq<Event>, n: nat)
    requires n <= |es| < |cs|
  {
    forall i | 0 <= i < n :: Clean(w, cs[i], es[i])
  }

  lemma {:induction false} RunKeepsRight(w: World, cs: seq<Config>, es: seq<Event>, i: nat)
    requires Walkable(w.rules) && IsRun(w, cs, es) && i < |cs| && CleanRun(w, cs, es, i)
    ensures Right(w, cs[i])
  {
    hide ConfigShape, Walkable, Step, Start, Clean, Right;
    if i == 0 {
      StartRight(w, false);
      StartRight(w, true);
    } else {
      RunKeepsRight(w, cs, es, i - 1);
      RunKeepsShape(w, cs, es, i - 1);
      assert Follows(w, cs[i - 1], es[i - 1], cs[i]);
      StepKeeps(w, cs[i - 1], es[i - 1]);
    }
  }

  /**
   * Every decision of every run whose reads are clean is allowed, unless the caller's context ended;
   * clean or not, by then every launched query has been cancelled, and only an ended context gives up.
   */
  lemma RunDecidesAllowed(w: World, cs: seq<Config>, es: seq<Event>, i: nat, d: Decision)
    requires Walkable(w.rules) && IsRun(w, cs, es) && i < |cs| && cs[i].phase == Decided(d)
    ensures CleanRun(w, cs, es, i) ==> Allowed(w, d) || d == ContextEnded
    ensures d == ContextEnded ==> cs[i].ended
    ensures cs[i].cancelled == AllFutures(cs[i].st)
  {
    RunKeepsShape(w, cs, es, i);
    if CleanRun(w, cs, es, i) {
      RunKeepsRight(w, cs, es, i);
    }
    hide Allowed;
  }

  /**
   * For every list the validator accepts that has no race rule, every completion order of the
   * launched queries, synchronous or asynchronous, gives the sequential decision if its reads are clean.
   */
  lemma OrderDoesNotMatter(w: World, sets: RuleSets, overrides: RuleSets,
    cs: seq<Config>, es: seq<Event>, i: nat, d: Decision)
    requires Accepted(w.rules, sets, overrides) && (forall j | 0 <= j < |w.rules| :: !w.rules[j].race)
    requires IsRun(w, cs, es) && i < |cs| && CleanRun(w, cs, es, i) && cs[i].phase == Decided(d) && !cs[i].ended
    ensures d == SequentialDecision(w)
  {
    AcceptedIsWalkable(w.rules, sets, overrides);
    RunDecidesAllowed(w, cs, es, i, d);
    WithoutRacesOneDecision(w, d);
  }

  // ---- Runs in which the two reads see the same ----

  /** No query comes back between a settling and the read behind it. */
  ghost predicate Atomic(cs: seq<Config>, es: seq<Event>, n: nat)
    requires n <= |es| < |cs|
  {
    forall i | 0 <= i < n && (cs[i].phase.Reading? || cs[i].phase.Sweeping?) :: !es[i].Complete?
  }

  ghost predicate AllSettled(w: World, c: Config) {
    && (c.phase.Sweeping? ==> c.st.settled == c.done)
    && (c.phase.Reading? && c.st.ruleIndex < |w.rules| && HasBindings(w.rules[c.st.ruleIndex]) ==>
          c.st.settled == c.done)
  }

  lemma AtomicStep(w: World, c: Config, e: Event)
    requires ConfigShape(w, c) && AllSettled(w, c) && Enabled(c, e)
    requires c.phase.Reading? || c.phase.Sweeping? ==> !e.Complete?
    ensures AllSettled(w, Step(w, c, e))
  {
    if e.Machine? {
      if c.phase.Walking? || c.phase.Resuming? {
        WalkShape(w, c);
      } else if c.phase.Reading? || c.phase.Sweeping? {
        WindowCloses(w, c);
      }
      SettlesThere(w, c);
      hide MachineStep;
    }
    hide Shape, PhaseOk, CancelledRight, HasBindings, AllFutures;
  }

  lemma WindowCloses(w: World, c: Config)
    requires WellFormed(w, c) && (c.phase.Reading? || c.phase.Sweeping?)
    ensures !MachineStep(w, c).phase.Reading? && !MachineStep(w, c).phase.Sweeping?
  {
    if c.phase.Reading? {
      ReadingStep(w, c);
    } else {
      SweepingStep(w, c);
    }
    hide ReadRule, Sweep, AllFutures, Ranged, MachineStep;
  }

  /** A window opens where the walk settles, and nowhere else. */
  lemma SettlesThere(w: World, c: Config)
    requires WellFormed(w, c)
    ensures MachineStep(w, c).phase.Reading? ==> c.phase.Walking? || c.phase.Reading?
    ensures MachineStep(w, c).phase.Sweeping? ==> c.phase.Resuming? || c.phase.Sweeping?
    ensures c.phase.Walking? ==> MachineStep(w, c).st.ruleIndex == c.st.ruleIndex
  {
    hide ReadRule, Sweep, AllFutures, Ranged, Settle;
  }

  lemma SettledIsClean(w: World, c: Config, e: Event)
    requires Walkable(w.rules) && AllSettled(w, c)
    ensures Clean(w, c, e)
  {
    hide Walkable, SeesRight, Waits;
    if c.phase.Reading? && c.st.ruleIndex < |w.rules| {
      assert Tags(w.rules[c.st.ruleIndex]) == [] || c.st.settled == c.done;
      ReadsSeesRight(w, c.st, c.st.ruleIndex, c.done);
    }
    forall j | 0 <= j < |c.st.armed| && c.st.armed[j].index < |w.rules| && c.st.settled == c.done
      ensures SeesRight(w, c.st, c.st.armed[j].index, c.done)
    {
      ReadsSeesRight(w, c.st, c.st.armed[j].index, c.done);
    }
  }

  /** Runs without such a callback read right throughout. */
  lemma {:induction false} AtomicIsClean(w: World, cs: seq<Config>, es: seq<Event>, n: nat)
    requires Walkable(w.rules) && IsRun(w, cs, es) && n <= |es| && Atomic(cs, es, n)
    ensures CleanRun(w, cs, es, n) && AllSettled(w, cs[n])
  {
    hide ConfigShape, Walkable, Step, Clean, AllSettled;
    if n == 0 {
      assert AllSettled(w, Start(w, false)) && AllSettled(w, Start(w, true)) by { StartsSettled(w); }
    } else {
      AtomicIsClean(w, cs, es, n - 1);
      RunKeepsShape(w, cs, es, n - 1);
      assert Follows(w, cs[n - 1], es[n - 1], cs[n]);
      SettledIsClean(w, cs[n - 1], es[n - 1]);
      AtomicStep(w, cs[n - 1], es[n - 1]);
    }
  }

  lemma StartsSettled(w: World)
    ensures AllSettled(w, Start(w, false)) && AllSettled(w, Start(w, true))
  {
  }

  // ---- No later rule overtakes a race rule ----

  /** The rule decides, or sends a query it may only send once nothing is armed. */
  ghost predicate Overtakes(w: World, st: Walk, st': Walk, end: RuleEnd)
    requires st.ruleIndex <= |w.rules|
  {
    || end.Decide?
    || (end.Suspend? && end.suspension.Pending?)
    || (st.ruleIndex < |w.rules| && end.Continue? && |st'.futures| > |st.futures|
        && w.rules[st.ruleIndex].action.Evaluate? && !w.rules[st.ruleIndex].action.speculative)
  }

  /**
   * When the walk decides, takes its final exchange or launches a non-speculative query outside a
   * sweep, no race rule is armed any more; if the reads were clean, every race rule before it has
   * been tried with all it waited for and took no decision.
   */
  lemma NoOvertaking(w: World, cs: seq<Config>, es: seq<Event>, i: nat)
    requires Walkable(w.rules) && IsRun(w, cs, es) && i < |cs| && cs[i].phase.Reading?
    ensures
      var st := cs[i].st;
      && Ranged(w, st) && st.ruleIndex <= |w.rules|
      && var (st', end) := ReadRule(w, st, cs[i].done);
      (st.ruleIndex < |w.rules| ==> !Armable(w.rules[st.ruleIndex])) && Overtakes(w, st, st', end) ==>
        && st.armed == []
        && (CleanRun(w, cs, es, i) ==> forall j: nat | j < st.ruleIndex && Contends(w, j) :: RaceVerdict(w, j).None?)
  {
    RunKeepsShape(w, cs, es, i);
    var c := cs[i];
    ShapeIsBounded(w, c.st, c.done);
    if c.st.ruleIndex < |w.rules| && !Armable(w.rules[c.st.ruleIndex]) {
      OnlyActsUnarmed(w, c.st, c.done);
    }
    if CleanRun(w, cs, es, i) {
      RunKeepsRight(w, cs, es, i);
      assert Inv(w, c.st, c.done);
      InvTried(w, c.st, c.done);
      forall j: nat | j < c.st.ruleIndex && Contends(w, j) && c.st.armed == []
        ensures RaceVerdict(w, j).None?
      {
        assert TriedAt(w, c.st.armed, j, Returned(c.st, c.done));
      }
    }
    hide Inv, Try, Arm, Tried, Returned;
  }

  lemma OnlyActsUnarmed(w: World, st: Walk, late: set<nat>)
    requires Indexed(st) && st.ruleIndex < |w.rules|
    ensures Overtakes(w, st, Try(w, st, late).0, Try(w, st, late).1) ==> st.armed == []
  {
    hide Matches, Waits, ApplyRouteOptions;
  }

  // ---- No lost wake-up, no hang ----

  /** The suspension waits for launched query k. */
  ghost predicate Needs(c: Config, k: nat) {
    && c.phase.Blocked? && k < |c.st.futures|
    && (c.phase.suspension == Await(k) || (c.phase.suspension.Drain? && exists a :: a in c.st.armed && k in a.waits))
  }

  /**
   * Whenever the walk is blocked its wake channel exists, and a wake-up is there, or a query the
   * walk needs has come back without having signalled, or has not come back.
   */
  lemma BlockedIsOwedAWakeUp(w: World, cs: seq<Config>, es: seq<Event>, i: nat)
    requires Walkable(w.rules) && IsRun(w, cs, es) && i < |cs| && cs[i].phase.Blocked?
    ensures cs[i].st.wake.Some?
    ensures cs[i].st.wake == Some(true) || exists k :: Needs(cs[i], k) && k !in cs[i].signalled
  {
    RunKeepsShape(w, cs, es, i);
    var c := cs[i];
    assert Shape(w, c.st, c.done);
    hide OneProducer, Recorded, Ranged, Named;
    if c.st.wake != Some(true) {
      var k: nat;
      if c.phase.suspension.Await? {
        k := c.phase.suspension.future;
      } else {
        assert Unsignalled(c, c.st.armed[0].waits);
        var j :| 0 <= j < |c.st.armed[0].waits| && c.st.armed[0].waits[j] !in c.signalled;
        assert WaitsFor(w, c.st, c.st.armed[0]);
        k := c.st.armed[0].waits[j];
      }
      assert c.phase.suspension.Drain? ==> c.st.armed[0] in c.st.armed && k in c.st.armed[0].waits;
      assert Needs(c, k) && k !in c.signalled;
    }
  }

  /** Once every launched query has called back, the walking side can always take a step. */
  lemma NoHang(w: World, cs: seq<Config>, es: seq<Event>, i: nat)
    requires Walkable(w.rules) && IsRun(w, cs, es) && i < |cs| && !cs[i].phase.Decided?
    requires forall k: nat | k < |cs[i].st.futures| :: k in cs[i].signalled
    ensures Enabled(cs[i], Machine)
  {
    RunKeepsShape(w, cs, es, i);
    if cs[i].phase.Blocked? {
      BlockedIsOwedAWakeUp(w, cs, es, i);
    }
    hide Shape;
  }

  // ---- Every run ends ----

  function Token(st: Walk): int {
    if st.wake == Some(true) then 1 else 0
  }

  /** What the suspension waited for is there: the walk owes its next rule. */
  function Credit(c: Config): int {
    match c.phase
    case Resuming(s) => Served(c, s)
    case Sweeping(s) => Served(c, s)
    case Checking(s) => Served(c, s)
    case Blocked(s) => Served(c, s)
    case _ => 0
  }

  function Served(c: Config, s: Suspension): int {
    match s
    case Await(k) => if k in c.done then 1 else 0
    case Drain => if c.st.armed == [] then 1 else 0
    case Pending(_) => 0
  }

  function Rank(p: Phase): int {
    match p
    case Walking => 7
    case Reading => 6
    case Resuming(_) => 5
    case Sweeping(_) => 4
    case Checking(_) => 3
    case Blocked(_) => 2
    case Finishing(_) => 1
    case Decided(_) => 0
  }

  function RulesLeft(w: World, st: Walk): nat {
    if st.ruleIndex <= |w.rules| then |w.rules| - st.ruleIndex else 0
  }

  /** Rules to go, queries that may still be sent, callbacks still owed, rules armed, tokens held. */
  function WalkPotential(w: World, st: Walk): int {
    5 * RulesLeft(w, st) + (if st.terminal.None? then 4 else 0) + 4 * |st.futures| + 2 * |st.armed| + Token(st)
  }

  function Potential(w: World, c: Config): int {
    WalkPotential(w, c.st) - 2 * |c.done| - 2 * |c.signalled| + Credit(c) + (if c.ended then 0 else 1)
  }

  function Measure(w: World, c: Config): int {
    8 * Potential(w, c) + Rank(c.phase)
  }

  /** A rule of the walk uses up potential, or suspends without creating any. */
  ghost predicate Spends(w: World, st: Walk, st': Walk, end: RuleEnd, late: set<nat>) {
    && (if end.Continue? then WalkPotential(w, st') < WalkPotential(w, st)
         else WalkPotential(w, st') <= WalkPotential(w, st))
    && (end == Suspend(Drain) ==> st'.armed != [])
    && (end.Suspend? && end.suspension.Await? ==> end.suspension.future !in late)
  }

  lemma ReadRulePotential(w: World, st: Walk, late: set<nat>)
    requires Ranged(w, st) && st.ruleIndex <= |w.rules|
    ensures Spends(w, st, ReadRule(w, st, late).0, ReadRule(w, st, late).1, late)
  {
    if st.ruleIndex < |w.rules| {
      if Armable(w.rules[st.ruleIndex]) {
        ArmPotential(w, st, late);
      } else {
        TryPotential(w, st, late);
      }
    }
  }

  lemma ArmPotential(w: World, st: Walk, late: set<nat>)
    requires Ranged(w, st) && st.ruleIndex < |w.rules|
    ensures Spends(w, st, Arm(w, st, late).0, Arm(w, st, late).1, late)
  {
    hide Sweep, ArmedHere;
  }

  lemma TryPotential(w: World, st: Walk, late: set<nat>)
    requires Indexed(st) && st.ruleIndex < |w.rules|
    ensures Spends(w, st, Try(w, st, late).0, Try(w, st, late).1, late)
  {
    PendingTagsCover(Tags(w.rules[st.ruleIndex]), st, late);
    var waits := Waits(w.rules[st.ruleIndex], st, late);
    assert waits != [] ==> waits[0] !in late;
    hide Matches, PendingTags, Waits, Act;
    ActPotential(w, st, late);
  }

  lemma ActPotential(w: World, st: Walk, late: set<nat>)
    requires Indexed(st) && st.ruleIndex < |w.rules|
    ensures Spends(w, st, Act(w, st, late).0, Act(w, st, late).1, late)
  {
    var action := w.rules[st.ruleIndex].action;
    if action.Evaluate? {
      EvaluatePotential(w, st, late);
    } else if action.Route? {
      RoutePotential(w, st, late);
    } else {
      FixedPotential(w, st, late);
    }
    hide Act, Spends, Indexed;
  }

  lemma FixedPotential(w: World, st: Walk, late: set<nat>)
    requires Indexed(st) && st.ruleIndex < |w.rules|
    requires !w.rules[st.ruleIndex].action.Evaluate? && !w.rules[st.ruleIndex].action.Route?
    ensures Spends(w, st, Act(w, st, late).0, Act(w, st, late).1, late)
  {
    hide ApplyRouteOptions, HasBindings, AnonymousView, Indexed, RouteQuery, EvaluateQuery, Launch;
  }

  lemma EvaluatePotential(w: World, st: Walk, late: set<nat>)
    requires Indexed(st) && st.ruleIndex < |w.rules| && w.rules[st.ruleIndex].action.Evaluate?
    ensures Spends(w, st, Act(w, st, late).0, Act(w, st, late).1, late)
  {
    hide EvaluateQuery, Indexed;
  }

  lemma RoutePotential(w: World, st: Walk, late: set<nat>)
    requires Indexed(st) && st.ruleIndex < |w.rules| && w.rules[st.ruleIndex].action.Route?
    ensures Spends(w, st, Act(w, st, late).0, Act(w, st, late).1, late)
  {
    hide RouteQuery;
  }

  lemma CallbackSpends(w: World, c: Config, k: nat, e: Event)
    requires ConfigShape(w, c) && Enabled(c, e) && (e == Complete(k) || e == Signal(k))
    ensures Measure(w, Step(w, c, e)) < Measure(w, c)
  {
    if e == Complete(k) {
      assert Step(w, c, e) == c.(done := c.done + {k});
    } else {
      assert Step(w, c, e) == c.(signalled := c.signalled + {k}, st := c.st.(wake := Some(true)));
    }
    hide Step, Shape, PhaseOk, CancelledRight, WellFormed;
  }

  lemma ReadingSpends(w: World, c: Config)
    requires ConfigShape(w, c) && c.phase.Reading?
    ensures Measure(w, MachineStep(w, c)) < Measure(w, c)
  {
    ReadingStep(w, c);
    ReadRulePotential(w, c.st, c.done);
    hide Shape, ReadRule, MachineStep, Measure, Spends, AfterRule;
    AfterRuleSpends(w, c, ReadRule(w, c.st, c.done).0, ReadRule(w, c.st, c.done).1);
  }

  lemma AfterRuleSpends(w: World, c: Config, st: Walk, end: RuleEnd)
    requires c.phase.Reading? && Spends(w, c.st, st, end, c.done)
    ensures Measure(w, AfterRule(c, st, end)) < Measure(w, c)
  {
    hide WalkPotential, AllFutures;
  }

  /** Settling changes nothing the measure counts. */
  lemma SettlingSpends(w: World, c: Config)
    requires WellFormed(w, c) && (c.phase.Walking? || c.phase.Resuming?)
    ensures Measure(w, MachineStep(w, c)) < Measure(w, c)
  {
    var st := if c.phase.Walking? then SettleFor(w, c.st, c.done) else Settle(w, c.st, c.done);
    assert WalkPotential(w, st) == WalkPotential(w, c.st);
    hide Settle, SettleFor, WalkPotential;
  }

  lemma SweepingSpends(w: World, c: Config)
    requires WellFormed(w, c) && c.phase.Sweeping?
    ensures Measure(w, MachineStep(w, c)) < Measure(w, c)
  {
    SweepingStep(w, c);
    var (swept, commit) := Sweep(w, c.st, c.done, 0);
    hide Sweep, Ranged, MachineStep, Measure, AfterSweep;
    AfterSweepSpends(w, c, swept, commit);
  }

  lemma AfterSweepSpends(w: World, c: Config, st: Walk, commit: Option<Decision>)
    requires c.phase.Sweeping? && st == c.st.(armed := st.armed) && |st.armed| <= |c.st.armed|
    ensures Measure(w, AfterSweep(c, c.phase.suspension, st, commit)) < Measure(w, c)
  {
    hide WalkPotential, AllFutures;
    SweptPotential(w, c.st, st);
  }

  lemma SweptPotential(w: World, st: Walk, swept: Walk)
    requires swept == st.(armed := swept.armed) && |swept.armed| <= |st.armed|
    ensures WalkPotential(w, swept) <= WalkPotential(w, st) - (if swept.armed == [] && st.armed != [] then 2 else 0)
  {
  }

  lemma LeavingSpends(w: World, c: Config, e: Event)
    requires ConfigShape(w, c) && Enabled(c, e)
    requires e.EndContext? || e.GiveUp? || (e.Machine? && (c.phase.Finishing? || c.phase.Checking?))
    ensures Measure(w, Step(w, c, e)) < Measure(w, c)
  {
    hide Shape, Unsignalled, AllFutures, WalkPotential;
  }

  lemma ReceivingSpends(w: World, c: Config)
    requires WellFormed(w, c) && c.phase.Blocked? && Enabled(c, Machine)
    ensures Measure(w, MachineStep(w, c)) < Measure(w, c)
  {
  }

  /** Every event of every run lowers the measure. */
  lemma StepSpends(w: World, c: Config, e: Event)
    requires ConfigShape(w, c) && Enabled(c, e)
    ensures Measure(w, Step(w, c, e)) < Measure(w, c)
  {
    hide Measure, MachineStep, Shape;
    match e
    case Complete(k) => CallbackSpends(w, c, k, e);
    case Signal(k) => CallbackSpends(w, c, k, e);
    case EndContext => LeavingSpends(w, c, e);
    case GiveUp => LeavingSpends(w, c, e);
    case Machine =>
      match c.phase
      case Walking => SettlingSpends(w, c);
      case Reading => ReadingSpends(w, c);
      case Resuming(_) => SettlingSpends(w, c);
      case Sweeping(_) => SweepingSpends(w, c);
      case Checking(_) => LeavingSpends(w, c, e);
      case Blocked(_) => ReceivingSpends(w, c);
      case Finishing(_) => LeavingSpends(w, c, e);
  }

  lemma MeasureIsBounded(w: World, c: Config)
    requires ConfigShape(w, c)
    ensures Measure(w, c) >= 0
  {
    hide Shape, PhaseOk, CancelledRight, WellFormed;
    SubsetSize(c.done, AllFutures(c.st));
    SubsetSize(c.signalled, c.done);
  }

  /** Every run is short, clean or not: at most 40 events for each rule and 47 more. */
  lemma EveryRunEnds(w: World, cs: seq<Config>, es: seq<Event>)
    requires Walkable(w.rules) && IsRun(w, cs, es)
    ensures |es| <= 40 * |w.rules| + 47
  {
    assert Measure(w, cs[0]) == 40 * |w.rules| + 47;
    RunSpends(w, cs, es, |es|);
    RunKeepsShape(w, cs, es, |es|);
    hide ConfigShape, Measure;
    MeasureIsBounded(w, cs[|es|]);
  }

  lemma {:induction false} RunSpends(w: World, cs: seq<Config>, es: seq<Event>, i: nat)
    requires Walkable(w.rules) && IsRun(w, cs, es) && i < |cs|
    ensures Measure(w, cs[i]) <= Measure(w, cs[0]) - i
  {
    hide ConfigShape, Measure, Walkable, Step, Start;
    if i > 0 {
      RunSpends(w, cs, es, i - 1);
      RunKeepsShape(w, cs, es, i - 1);
      assert Follows(w, cs[i - 1], es[i - 1], cs[i]);
      StepSpends(w, cs[i - 1], es[i - 1]);
    }
  }
}
