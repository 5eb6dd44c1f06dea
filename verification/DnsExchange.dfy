/**
 * An exchange as a step system: the walking goroutine on one side, the callbacks of the launched
 * queries and the caller's context on the other. A step of the walking side is a settling, a read
 * of readiness with what follows from it, a check or a receive; the others may act between any two
 * of them, so queries may come back between a settling and the read behind it.
 */
module DnsExchange {
  import opened Options
  import opened Counting
  import opened DnsRules
  import opened DnsMode
  import opened DnsSequential
  import opened DnsWalk
  import opened DnsWalkInvariant
  import opened DnsWalkSteps
  import opened DnsWalkShape

  /** Where the walking side stands; Blocked is the select on the wake channel and the context. */
  datatype Phase =
    | Walking                            // before the first read of a rule
    | Reading                            // before its second read
    | Resuming(suspension: Suspension)   // before settling
    | Sweeping(suspension: Suspension)   // before sweeping the armed rules
    | Checking(suspension: Suspension)
    | Blocked(suspension: Suspension)
    | Finishing(exchange: PendingExchange)
    | Decided(decision: Decision)

  /** `direct` marks an asynchronous exchange that has not been suspended yet. */
  datatype Config = Config(
    st: Walk,
    done: set<nat>,
    signalled: set<nat>,
    ended: bool,
    phase: Phase,
    direct: bool,
    cancelled: set<nat>)

  /** A machine step, a callback closing `done`, a callback signalling, the context ending, giving up. */
  datatype Event = Machine | Complete(k: nat) | Signal(k: nat) | EndContext | GiveUp

  function Start(w: World, asynchronous: bool): Config {
    Config(Initial(w), {}, {}, false, Walking, asynchronous, {})
  }

  ghost function AllFutures(st: Walk): set<nat> {
    Below(|st.futures|)
  }

  ghost function Finish(c: Config, st: Walk, p: PendingExchange): Config {
    c.(st := st, phase := Finishing(p), cancelled := AllFutures(st) - (if p.future.Some? then {p.future.value} else {}))
  }

  ghost function Conclude(c: Config, st: Walk, d: Decision): Config {
    c.(st := st, phase := Decided(d), cancelled := AllFutures(st))
  }

  ghost predicate WellFormed(w: World, c: Config) {
    && (c.phase.Reading? || c.phase.Sweeping? ==> Ranged(w, c.st))
    && (c.phase.Reading? ==> c.st.ruleIndex <= |w.rules|)
  }

  ghost predicate Enabled(c: Config, e: Event) {
    match e
    case Machine =>
      && !c.phase.Decided?
      && (c.phase.Blocked? ==> c.st.wake == Some(true))
      && (c.phase.Finishing? && c.phase.exchange.future.Some? ==> c.phase.exchange.future.value in c.done)
    case Complete(k) => k < |c.st.futures| && k !in c.done
    case Signal(k) => k in c.done && k !in c.signalled
    case EndContext => !c.ended
    case GiveUp => c.ended && (c.phase.Blocked? || (c.phase.Finishing? && c.phase.exchange.future.Some?))
  }

  ghost function AfterRule(c: Config, st: Walk, end: RuleEnd): Config {
    match end
    case Continue => c.(st := st, phase := Walking)
    case Decide(d) => Conclude(c, st, d)
    case Suspend(s) =>
      if c.direct && s.Pending? && s.exchange.future.None? then Finish(c, st, s.exchange)
      else c.(st := st, phase := Resuming(s), direct := false)
  }

  ghost function AfterSweep(c: Config, s: Suspension, st: Walk, commit: Option<Decision>): Config {
    match commit
    case None => c.(st := st, phase := Checking(s))
    case Some(Forwarded(q)) => Finish(c, st, PendingExchange(q, None))
    case Some(d) => Conclude(c, st, d)
  }

  ghost function Check(c: Config, s: Suspension): Config {
    match s
    case Pending(p) => Finish(c, c.st, p)
    case Await(k) => c.(phase := if k !in c.done then Blocked(s) else Walking)
    case Drain => c.(phase := if c.st.armed != [] then Blocked(s) else Walking)
  }

  ghost function MachineStep(w: World, c: Config): Config
    requires WellFormed(w, c)
  {
    match c.phase
    case Walking => c.(st := SettleFor(w, c.st, c.done), phase := Reading)
    case Reading => var (st, end) := ReadRule(w, c.st, c.done); AfterRule(c, st, end)
    case Resuming(s) => c.(st := Settle(w, c.st, c.done), phase := Sweeping(s))
    case Sweeping(s) => var (st, commit) := Sweep(w, c.st, c.done, 0); AfterSweep(c, s, st, commit)
    case Checking(s) => Check(c, s)
    case Blocked(s) => c.(st := c.st.(wake := Some(false)), phase := Resuming(s))
    case Finishing(p) => Conclude(c, c.st, Forwarded(p.query))
    case Decided(_) => c
  }

  ghost function Step(w: World, c: Config, e: Event): Config
    requires WellFormed(w, c) && Enabled(c, e)
  {
    match e
    case Complete(k) => c.(done := c.done + {k})
    case Signal(k) => c.(signalled := c.signalled + {k}, st := c.st.(wake := Some(true)))
    case EndContext => c.(ended := true)
    case GiveUp => Conclude(c, c.st, ContextEnded)
    case Machine => MachineStep(w, c)
  }

  lemma ReadingStep(w: World, c: Config)
    requires WellFormed(w, c) && c.phase.Reading?
    ensures MachineStep(w, c) == AfterRule(c, ReadRule(w, c.st, c.done).0, ReadRule(w, c.st, c.done).1)
  {
    hide ReadRule, AfterRule, Ranged;
  }

  lemma SweepingStep(w: World, c: Config)
    requires WellFormed(w, c) && c.phase.Sweeping?
    ensures MachineStep(w, c)
         == AfterSweep(c, c.phase.suspension, Sweep(w, c.st, c.done, 0).0, Sweep(w, c.st, c.done, 0).1)
  {
    hide Sweep, AfterSweep, Ranged;
  }

  // ---- What holds however the reads fall ----

  ghost predicate Unsignalled(c: Config, waits: seq<nat>) {
    exists j :: 0 <= j < |waits| && waits[j] !in c.signalled
  }

  /** A wake-up is on its way, or something the suspension waits for has not signalled yet. */
  ghost predicate NoLostWakeUp(c: Config, s: Suspension) {
    || c.st.wake == Some(true)
    || (s.Drain? ==> forall j | 0 <= j < |c.st.armed| :: Unsignalled(c, c.st.armed[j].waits))
  }

  ghost predicate Missing(c: Config, s: Suspension) {
    match s
    case Await(k) => k !in c.signalled
    case Drain => c.st.armed != [] && Unsignalled(c, c.st.armed[0].waits)
    case Pending(_) => false
  }

  /** The suspension names something the walk may wait for. */
  ghost predicate Suspendable(st: Walk, s: Suspension) {
    match s
    case Await(k) => k < |st.futures|
    case Drain => true
    case Pending(p) => st.armed == [] && Backed(st, p)
  }

  /** Nothing is cancelled on the way, and at the end everything that nobody waits for. */
  ghost predicate CancelledRight(c: Config) {
    match c.phase
    case Finishing(p) => c.cancelled == AllFutures(c.st) - (if p.future.Some? then {p.future.value} else {})
    case Decided(_) => c.cancelled == AllFutures(c.st)
    case _ => c.cancelled == {}
  }

  ghost predicate PhaseOk(w: World, c: Config) {
    match c.phase
    case Walking => Shape(w, c.st, c.done)
    case Reading => Shape(w, c.st, c.done)
    case Resuming(s) => Shape(w, c.st, c.done) && Suspendable(c.st, s)
    case Sweeping(s) => Shape(w, c.st, c.done) && Suspendable(c.st, s)
    case Checking(s) => Shape(w, c.st, c.done) && Suspendable(c.st, s) && NoLostWakeUp(c, s)
    case Blocked(s) =>
      && Shape(w, c.st, c.done) && Suspendable(c.st, s)
      && !s.Pending? && (c.st.wake == Some(true) || Missing(c, s))
    case Finishing(p) => Backed(c.st, p)
    case Decided(d) => d.ContextEnded? ==> c.ended
  }

  /** The unconditional invariant of a configuration. */
  ghost predicate ConfigShape(w: World, c: Config) {
    && WellFormed(w, c)
    && Bounded(c.st, c.done)
    && c.signalled <= c.done
    && CancelledRight(c)
    && PhaseOk(w, c)
  }

  lemma ShapeGrows(w: World, st: Walk, done: set<nat>, k: nat)
    requires Shape(w, st, done) && k < |st.futures|
    ensures Shape(w, st, done + {k})
  {
    hide OneProducer, Recorded, Ranged, Named;
  }

  lemma ShapeWakes(w: World, st: Walk, done: set<nat>, token: bool)
    requires Shape(w, st, done)
    ensures Shape(w, st.(wake := Some(token)), done)
  {
    var st' := st.(wake := Some(token));
    ProducersFrame(st, st');
    RecordedFrame(w, st, st');
    assert Ranged(w, st');
    hide OneProducer, Recorded, Ranged;
    forall t | t in st'.namedFutures ensures DefinedBefore(w, st'.ruleIndex, t) {
      assert DefinedBefore(w, st.ruleIndex, t);
    }
    forall k | 0 <= k < |st'.armed| ensures WaitsFor(w, st', st'.armed[k]) {
      assert WaitsFor(w, st, st.armed[k]);
    }
  }

  lemma CompleteShape(w: World, c: Config, k: nat)
    requires ConfigShape(w, c) && Enabled(c, Complete(k))
    ensures ConfigShape(w, Step(w, c, Complete(k)))
  {
    assert Step(w, c, Complete(k)) == c.(done := c.done + {k});
    hide Shape, Step, AllFutures, Ranged;
    if !c.phase.Finishing? && !c.phase.Decided? {
      ShapeGrows(w, c.st, c.done, k);
    }
  }

  lemma RangedWakes(w: World, st: Walk, token: bool)
    ensures Ranged(w, st) == Ranged(w, st.(wake := Some(token)))
  {
  }

  lemma SignalShape(w: World, c: Config, k: nat)
    requires ConfigShape(w, c) && Enabled(c, Signal(k))
    ensures ConfigShape(w, Step(w, c, Signal(k)))
  {
    RangedWakes(w, c.st, true);
    var c' := c.(signalled := c.signalled + {k}, st := c.st.(wake := Some(true)));
    assert Step(w, c, Signal(k)) == c';
    hide Shape, Step, Below, Ranged, Unsignalled, Missing;
    assert CancelledRight(c');
    hide CancelledRight;
    if !c.phase.Finishing? && !c.phase.Decided? {
      ShapeWakes(w, c.st, c.done, true);
    }
  }

  lemma WalkShape(w: World, c: Config)
    requires ConfigShape(w, c) && (c.phase.Walking? || c.phase.Resuming?)
    ensures ConfigShape(w, MachineStep(w, c))
    ensures c.phase.Resuming? ==> MachineStep(w, c).st.settled == c.done
    ensures c.phase.Walking? && c.st.ruleIndex < |w.rules| && HasBindings(w.rules[c.st.ruleIndex]) ==>
      MachineStep(w, c).st.settled == c.done
  {
    var st := if c.phase.Walking? then SettleFor(w, c.st, c.done) else Settle(w, c.st, c.done);
    assert c.st.settled <= c.done;
    hide Shape, Settle, SettleFor, AllFutures, HasBindings;
    if c.phase.Walking? {
      SettleForShape(w, c.st, c.done, c.done);
    } else {
      SettleShape(w, c.st, c.done, c.done);
    }
    ShapeIsBounded(w, st, c.done);
    ShapeIndex(w, st, c.done);
  }

  lemma ShapeIndex(w: World, st: Walk, done: set<nat>)
    requires Shape(w, st, done)
    ensures st.ruleIndex <= |w.rules|
  {
  }

  lemma ReadShape(w: World, c: Config)
    requires Walkable(w.rules) && ConfigShape(w, c) && c.phase.Reading?
    ensures ConfigShape(w, MachineStep(w, c))
  {
    ReadingStep(w, c);
    assert Shape(w, c.st, c.done);
    hide Shape, ReadRule, Walkable, Ranged, MachineStep, AfterRule, ConfigShape, ShapeKept;
    ReadRuleShape(w, c.st, c.done);
    AfterRuleShape(w, c, ReadRule(w, c.st, c.done).0, ReadRule(w, c.st, c.done).1);
  }

  lemma AfterRuleShape(w: World, c: Config, st: Walk, end: RuleEnd)
    requires ConfigShape(w, c) && c.phase.Reading? && ShapeKept(w, c.st, st, end, c.done)
    ensures ConfigShape(w, AfterRule(c, st, end))
  {
    hide Shape, AllFutures, Ranged;
  }

  /** What a sweep leaves armed still waits for a query that has not signalled. */
  lemma LeftUnsignalled(c: Config, armed: seq<Armed>)
    requires c.signalled <= c.done && forall j | 0 <= j < |armed| :: !Ready(armed[j], c.done)
    ensures forall j | 0 <= j < |armed| :: Unsignalled(c, armed[j].waits)
  {
    forall j | 0 <= j < |armed| ensures Unsignalled(c, armed[j].waits) {
      assert !Ready(armed[j], c.done);
    }
  }

  lemma SweepingShape(w: World, c: Config)
    requires ConfigShape(w, c) && c.phase.Sweeping?
    ensures ConfigShape(w, MachineStep(w, c))
    ensures c.phase.suspension.Pending? ==>
      MachineStep(w, c).phase == Checking(c.phase.suspension) && MachineStep(w, c).st == c.st
  {
    SweepingStep(w, c);
    var (st, commit) := Sweep(w, c.st, c.done, 0);
    SweepLeaves(w, c.st, c.done, 0);
    SweepShape(w, c.st, c.done, c.done);
    CommitIsNoEnd(w, c.st, c.done, 0);
    assert c.phase.suspension.Pending? ==> st == c.st && commit.None?;
    hide Shape, Sweep, Ranged, Ready, MachineStep;
    AfterSweepShape(w, c, st, commit);
  }

  lemma AfterSweepShape(w: World, c: Config, st: Walk, commit: Option<Decision>)
    requires ConfigShape(w, c) && c.phase.Sweeping? && Shape(w, st, c.done) && st == c.st.(armed := st.armed)
    requires commit.None? ==> forall j | 0 <= j < |st.armed| :: !Ready(st.armed[j], c.done)
    requires commit != Some(ContextEnded) && (c.phase.suspension.Pending? ==> st == c.st && commit.None?)
    ensures ConfigShape(w, AfterSweep(c, c.phase.suspension, st, commit))
  {
    hide Shape, AllFutures, Ranged, Ready;
    ShapeIsBounded(w, st, c.done);
    if commit.None? {
      LeftUnsignalled(AfterSweep(c, c.phase.suspension, st, commit), st.armed);
    }
  }

  /** Every step of every exchange keeps the shape, and with it the records and the wake-ups. */
  lemma StepKeepsShape(w: World, c: Config, e: Event)
    requires Walkable(w.rules) && ConfigShape(w, c) && Enabled(c, e)
    ensures ConfigShape(w, Step(w, c, e))
  {
    hide ConfigShape;
    match e
    case Complete(k) => CompleteShape(w, c, k);
    case Signal(k) => SignalShape(w, c, k);
    case EndContext => EndShape(w, c, e);
    case GiveUp => EndShape(w, c, e);
    case Machine =>
      if c.phase.Walking? || c.phase.Resuming? {
        WalkShape(w, c);
      } else if c.phase.Reading? {
        ReadShape(w, c);
      } else if c.phase.Sweeping? {
        SweepingShape(w, c);
      } else {
        LeaveShape(w, c);
      }
  }

  lemma EndShape(w: World, c: Config, e: Event)
    requires ConfigShape(w, c) && Enabled(c, e) && (e.EndContext? || e.GiveUp?)
    ensures ConfigShape(w, Step(w, c, e))
  {
    hide Shape, Ranged, AllFutures;
  }

  lemma LeaveShape(w: World, c: Config)
    requires ConfigShape(w, c) && Enabled(c, Machine)
    requires c.phase.Checking? || c.phase.Blocked? || c.phase.Finishing?
    ensures ConfigShape(w, MachineStep(w, c))
  {
    hide Shape, Ranged, AllFutures;
    if c.phase.Blocked? {
      ShapeWakes(w, c.st, c.done, false);
    }
  }

  lemma StartShape(w: World, asynchronous: bool)
    ensures ConfigShape(w, Start(w, asynchronous))
  {
    forall t ensures RecordedTag(w, Initial(w), t) { }
  }

  // ---- What holds when the reads are clean ----

  /**
   * The step is not misled: answers that came back between the settling and this read make no
   * difference to the rule being read, if it is tried, nor to the armed rules being swept.
   */
  ghost predicate Clean(w: World, c: Config, e: Event) {
    e.Machine? ==>
      && (c.phase.Reading? ==> CleanRead(w, c.st, c.done))
      && (c.phase.Sweeping? ==> SweepReads(w, c.st, c.done))
  }

  /** The walk agrees with the sequential reading, and what is decided or ahead is allowed. */
  ghost predicate Right(w: World, c: Config) {
    match c.phase
    case Walking => Inv(w, c.st, c.done)
    case Reading => Inv(w, c.st, c.done)
    case Resuming(s) => RightAhead(w, c, s)
    case Sweeping(s) => RightAhead(w, c, s)
    case Checking(s) => RightAhead(w, c, s)
    case Blocked(s) => RightAhead(w, c, s)
    case Finishing(p) => Allowed(w, Forwarded(p.query))
    case Decided(d) => Allowed(w, d) || d == ContextEnded
  }

  ghost predicate RightAhead(w: World, c: Config, s: Suspension) {
    if s.Pending? then Allowed(w, Forwarded(s.exchange.query)) else Inv(w, c.st, c.done)
  }

  lemma InvGrows(w: World, st: Walk, done: set<nat>, k: nat)
    requires Inv(w, st, done) && k < |st.futures|
    ensures Inv(w, st, done + {k})
  {
    forall j | 0 <= j < |st.armed|
      ensures ArmedOk(w, st, st.armed[j], done + {k})
    {
      var a := st.armed[j];
      assert ArmedOk(w, st, a, done);
      forall t | t in Tags(w.rules[a.index])
        ensures BoundTag(st, Reach(w, a.index), t, a.waits, done + {k})
      {
        assert BoundTag(st, Reach(w, a.index), t, a.waits, done);
      }
    }
    hide ArmedOk, Agrees, Recorded, OneProducer, Accounted, TerminalOk, Waiting;
    AccountedGrows(w, st, done, k);
  }

  lemma AccountedGrows(w: World, st: Walk, done: set<nat>, k: nat)
    requires Accounted(w, st, done)
    ensures Accounted(w, st, done + {k})
  {
    assert Returned(st, done) <= Returned(st, done + {k});
    hide Awaited, Bound, Returned, SentInOrder, Contends;
    forall i: nat | i < st.ruleIndex && Contends(w, i) ensures TriedAt(w, st.armed, i, Returned(st, done + {k})) {
      assert TriedAt(w, st.armed, i, Returned(st, done));
    }
  }

  lemma InvWakes(w: World, st: Walk, done: set<nat>, token: bool)
    requires Inv(w, st, done)
    ensures Inv(w, st.(wake := Some(token)), done)
  {
    var st' := st.(wake := Some(token));
    ProducersFrame(st, st');
    RecordedFrame(w, st, st');
    AgreesFrame(w, st, st');
    AccountedFrame(w, st, st', done);
    hide Recorded, OneProducer, Agrees, ArmedOk, Accounted, Waiting;
    forall j | 0 <= j < |st'.armed|
      ensures ArmedOk(w, st', st'.armed[j], done)
    {
      ArmedFrame(w, st, st', st.armed[j], done);
    }
  }

  lemma CallbackKeepsRight(w: World, c: Config, k: nat, e: Event)
    requires ConfigShape(w, c) && Right(w, c) && Enabled(c, e) && (e == Complete(k) || e == Signal(k))
    ensures Right(w, Step(w, c, e))
  {
    hide Inv, Allowed, Shape, Ranged;
    if !c.phase.Finishing? && !c.phase.Decided? {
      if c.phase.Walking? || c.phase.Reading? || !c.phase.suspension.Pending? {
        if e.Complete? {
          InvGrows(w, c.st, c.done, k);
        } else {
          InvWakes(w, c.st, c.done, true);
        }
      }
    }
  }

  lemma SettlingKeepsRight(w: World, c: Config)
    requires ConfigShape(w, c) && Right(w, c) && (c.phase.Walking? || c.phase.Resuming?)
    ensures Right(w, MachineStep(w, c))
  {
    assert c.st.settled <= c.done;
    hide Inv, Allowed, Shape, Settle, SettleFor;
    if c.phase.Walking? {
      SettleForInv(w, c.st, c.done, c.done);
    } else if !c.phase.suspension.Pending? {
      SettleInv(w, c.st, c.done, c.done);
    }
  }

  lemma ReadingKeepsRight(w: World, c: Config)
    requires Walkable(w.rules) && ConfigShape(w, c) && Right(w, c) && c.phase.Reading? && CleanRead(w, c.st, c.done)
    ensures Right(w, MachineStep(w, c))
  {
    ReadingStep(w, c);
    assert Inv(w, c.st, c.done);
    hide Inv, Allowed, Shape, ReadRule, Walkable, CleanRead, Ranged, MachineStep, AfterRule, ConfigShape, Right, Sound;
    ReadRuleSound(w, c.st, c.done);
    AfterRuleRight(w, c, ReadRule(w, c.st, c.done).0, ReadRule(w, c.st, c.done).1);
  }

  lemma AfterRuleRight(w: World, c: Config, st: Walk, end: RuleEnd)
    requires c.phase.Reading? && Sound(w, c.st, st, end, c.done)
    ensures Right(w, AfterRule(c, st, end))
  {
    hide Inv, Allowed, AllFutures;
  }

  lemma InvSweepable(w: World, st: Walk, done: set<nat>)
    requires Walkable(w.rules) && Inv(w, st, done) && SweepReads(w, st, done) && Ranged(w, st)
    ensures Sweepable(w, st, done)
  {
    hide Recorded, OneProducer, ArmedOk, Agrees, Accounted, TerminalOk, Waiting, Walkable, SweepReads;
  }

  /** A sweep that commits nothing keeps the invariant. */
  lemma SweptKeeps(w: World, st: Walk, swept: Walk, done: set<nat>)
    requires Inv(w, st, done) && swept == st.(armed := swept.armed) && InOrder(swept.armed)
    requires Disarmed(w, st.armed, swept.armed, done)
    ensures Inv(w, swept, done)
  {
    assert forall j | 0 <= j < |swept.armed| :: swept.armed[j] in st.armed;
    hide OneProducer, Recorded, ArmedOk, Accounted, Waiting, Disarmed, InOrder, Agrees, Reach;
    SweptIsAccounted(w, st, swept, done);
    SweptAgrees(w, st, swept);
    LeftArmedOk(w, st, swept, swept, done);
    ProducersFrame(st, swept);
    RecordedFrame(w, st, swept);
  }

  lemma SweptAgrees(w: World, st: Walk, swept: Walk)
    requires Agrees(w, st) && swept == st.(armed := swept.armed)
    requires forall j | 0 <= j < |swept.armed| :: swept.armed[j] in st.armed
    ensures Agrees(w, swept)
  {
    hide Reach;
  }

  lemma SweptIsAccounted(w: World, st: Walk, swept: Walk, done: set<nat>)
    requires Inv(w, st, done) && swept == st.(armed := swept.armed)
    requires Disarmed(w, st.armed, swept.armed, done)
    ensures Accounted(w, swept, done)
  {
    hide OneProducer, Recorded, ArmedOk, Agrees, TerminalOk, Waiting, Disarmed, InOrder, Tried, Awaited, Returned;
    DisarmedIsTried(w, st, st.armed, swept.armed, st.ruleIndex, done);
    ReturnedFrame(st, swept, done);
  }

  lemma SweepingKeepsRight(w: World, c: Config)
    requires Walkable(w.rules) && ConfigShape(w, c) && Right(w, c) && c.phase.Sweeping?
    requires !c.phase.suspension.Pending? && SweepReads(w, c.st, c.done)
    ensures Right(w, MachineStep(w, c))
  {
    SweepingStep(w, c);
    var (swept, commit) := Sweep(w, c.st, c.done, 0);
    hide Walkable, Allowed, Sweepable, Disarmed, Sweep, FirstCommit, Ranged, InOrder, Shape, SweepReads, MachineStep,
      AfterSweep;
    SweepKeepsInv(w, c.st, swept, commit, c.done);
    hide Inv;
    AfterSweepRight(w, c, swept, commit);
  }

  lemma SweepKeepsInv(w: World, st: Walk, swept: Walk, commit: Option<Decision>, done: set<nat>)
    requires Walkable(w.rules) && Inv(w, st, done) && Ranged(w, st) && SweepReads(w, st, done)
    requires (swept, commit) == Sweep(w, st, done, 0)
    ensures commit.None? ==> Inv(w, swept, done)
    ensures commit.Some? ==> Allowed(w, commit.value)
  {
    hide Walkable, Allowed, Sweepable, Disarmed, Sweep, FirstCommit, Ranged, InOrder, SweepReads;
    InvSweepable(w, st, done);
    SweepFrom(w, st, done);
    if commit.None? {
      SweptKeeps(w, st, swept, done);
    } else {
      SweepCommitIsAllowed(w, st, done, commit.value);
    }
  }

  lemma SweepCommitIsAllowed(w: World, st: Walk, done: set<nat>, d: Decision)
    requires Inv(w, st, done) && exists j: nat :: FirstCommit(w, st.armed, done, 0, j, d)
    ensures Allowed(w, d)
  {
    hide Agrees, Recorded, OneProducer, ArmedOk, Waiting, Tried, TerminalOk, Awaited, Returned, SentInOrder,
      FirstCommit, Allowed;
    CommitIsAllowed(w, st, st.armed, done, d);
  }

  lemma AfterSweepRight(w: World, c: Config, st: Walk, commit: Option<Decision>)
    requires c.phase.Sweeping? && !c.phase.suspension.Pending?
    requires (commit.None? ==> Inv(w, st, c.done)) && (commit.Some? ==> Allowed(w, commit.value))
    ensures Right(w, AfterSweep(c, c.phase.suspension, st, commit))
  {
    hide Inv, Allowed, AllFutures;
  }

  /** The outcome of a whole sweep, with the facts a configuration needs. */
  lemma SweepFrom(w: World, st: Walk, done: set<nat>)
    requires Sweepable(w, st, done)
    ensures var (swept, commit) := Sweep(w, st, done, 0);
      && InOrder(swept.armed) && swept == st.(armed := swept.armed)
      && (commit.Some? ==> exists j: nat :: FirstCommit(w, st.armed, done, 0, j, commit.value))
      && (commit.None? ==> Disarmed(w, st.armed, swept.armed, done))
  {
    SweepCommitsFirst(w, st, done, 0);
    hide Recorded, ArmedOk, Walkable, SweepReads;
  }

  /** Every step that reads right keeps the walk right. */
  lemma StepKeeps(w: World, c: Config, e: Event)
    requires Walkable(w.rules) && ConfigShape(w, c) && Right(w, c) && Enabled(c, e) && Clean(w, c, e)
    ensures Right(w, Step(w, c, e))
  {
    hide Inv, Walkable, Allowed, Ranged, Shape, CleanRead, SweepReads, Suspendable, MachineStep, CancelledRight;
    match e
    case Complete(k) => CallbackKeepsRight(w, c, k, e);
    case Signal(k) => CallbackKeepsRight(w, c, k, e);
    case EndContext =>
    case GiveUp =>
    case Machine => MachineKeepsRight(w, c);
  }

  lemma MachineKeepsRight(w: World, c: Config)
    requires Walkable(w.rules) && ConfigShape(w, c) && Right(w, c) && Enabled(c, Machine) && Clean(w, c, Machine)
    ensures Right(w, MachineStep(w, c))
  {
    if c.phase.Walking? || c.phase.Resuming? {
      SettlingKeepsRight(w, c);
    } else if c.phase.Reading? {
      ReadingKeepsRight(w, c);
    } else if c.phase.Sweeping? && !c.phase.suspension.Pending? {
      SweepingKeepsRight(w, c);
    } else {
      LeavingKeepsRight(w, c);
    }
  }

  lemma LeavingKeepsRight(w: World, c: Config)
    requires ConfigShape(w, c) && Right(w, c) && Enabled(c, Machine)
    requires
      || c.phase.Checking? || c.phase.Blocked? || c.phase.Finishing?
      || (c.phase.Sweeping? && c.phase.suspension.Pending?)
    ensures Right(w, MachineStep(w, c))
  {
    hide Inv, Allowed, Ranged, Shape, Suspendable, AllFutures, Sweep;
    if c.phase.Sweeping? {
      SweepingShape(w, c);
    } else if c.phase.Blocked? && !c.phase.suspension.Pending? {
      InvWakes(w, c.st, c.done, false);
    }
  }

  lemma StartRight(w: World, asynchronous: bool)
    ensures Right(w, Start(w, asynchronous))
  {
    var st := Initial(w);
    forall t ensures RecordedTag(w, st, t) { }
    assert Inv(w, st, {});
  }
}
