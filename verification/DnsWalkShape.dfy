/**
 * What the walk keeps at any grain, however many queries come back between settling and the
 * readiness check: names, records, ranges and wake channel stay in order.
 */
module DnsWalkShape {
  import opened Options
  import opened DnsRules
  import opened DnsMode
  import opened DnsSequential
  import opened DnsWalk
  import opened DnsWalkInvariant
  import opened DnsWalkSteps

  /** Every tag in use was defined by a rule the walk has passed. */
  ghost predicate Named(w: World, st: Walk)
    requires st.ruleIndex <= |w.rules|
  {
    forall t | t in st.namedFutures :: DefinedBefore(w, st.ruleIndex, t)
  }

  ghost predicate DefinedBefore(w: World, n: nat, t: string)
    requires n <= |w.rules|
  {
    exists j :: 0 <= j < n && DefinesTag(w.rules[j], t)
  }

  /** An armed rule waits for launched queries. */
  ghost predicate WaitsFor(w: World, st: Walk, a: Armed) {
    && a.index < |w.rules|
    && a.waits != []
    && forall k | 0 <= k < |a.waits| :: a.waits[k] < |st.futures|
  }

  ghost predicate Shape(w: World, st: Walk, done: set<nat>) {
    && Ranged(w, st)
    && st.ruleIndex <= |w.rules|
    && OneProducer(st)
    && Recorded(w, st)
    && Bounded(st, done)
    && st.settled <= done
    && Named(w, st)
    && (forall k | 0 <= k < |st.armed| :: WaitsFor(w, st, st.armed[k]))
    && SentAhead(w, st)
    && (st.futures != [] ==> st.wake.Some?)
  }

  /** A route sent ahead belongs to a rule up to here, and to this one only with the query this rule sends. */
  ghost predicate SentAhead(w: World, st: Walk) {
    st.terminal.Some? ==>
      && st.terminal.value < |st.futures|
      && st.terminalIndex <= st.ruleIndex
      && (st.terminalIndex == st.ruleIndex ==>
            && st.ruleIndex < |w.rules| && w.rules[st.ruleIndex].action.Route?
            && RouteQuery(w, st.ruleIndex, w.rules[st.ruleIndex].action, st.options)
               == Some(st.futures[st.terminal.value].query))
  }

  /** What one rule of the walk leaves, right or wrong as its reads may have been. */
  ghost predicate ShapeKept(w: World, st: Walk, st': Walk, end: RuleEnd, done: set<nat>) {
    && (!end.Decide? ==> Shape(w, st', done))
    && Bounded(st', done)
    && match end
       case Continue => st'.ruleIndex == st.ruleIndex + 1
       case Suspend(Await(k)) => k < |st'.futures| && k !in done
       case Suspend(Drain) => st'.armed != []
       case Suspend(Pending(p)) => st'.armed == [] && Backed(st', p)
       case Decide(d) => !d.ContextEnded?
  }

  // ---- Steps that launch nothing ----

  lemma ShapeFrame(w: World, st: Walk, st': Walk, done: set<nat>)
    requires Shape(w, st, done) && Ranged(w, st') && st.ruleIndex <= st'.ruleIndex <= |w.rules|
    requires st'.futures == st.futures && st'.namedFutures == st.namedFutures && st'.settled == st.settled
    requires st'.namedResponses == st.namedResponses && st'.namedTransports == st.namedTransports
    requires st'.wake == st.wake && st'.terminal == st.terminal && st'.terminalIndex == st.terminalIndex
    requires st'.ruleIndex == st.ruleIndex ==> st'.options == st.options
    requires forall k | 0 <= k < |st'.armed| :: WaitsFor(w, st, st'.armed[k])
    ensures Shape(w, st', done)
  {
    ProducersFrame(st, st');
    RecordedFrame(w, st, st');
    hide OneProducer, Recorded, RouteQuery;
    forall t | t in st'.namedFutures ensures DefinedBefore(w, st'.ruleIndex, t) {
      assert DefinedBefore(w, st.ruleIndex, t);
    }
    forall k | 0 <= k < |st'.armed| ensures WaitsFor(w, st', st'.armed[k]) {
      assert WaitsFor(w, st, st'.armed[k]);
    }
  }

  lemma NextShape(w: World, st: Walk, st': Walk, done: set<nat>)
    requires Shape(w, st, done) && st.ruleIndex < |w.rules|
    requires st' == st.(ruleIndex := st.ruleIndex + 1, options := st'.options, anonymous := st'.anonymous)
    requires st'.anonymous.None? || st'.anonymous == st.anonymous
    ensures Shape(w, st', done)
  {
    assert Ranged(w, st');
    hide Ranged, OneProducer, Recorded;
    ShapeFrame(w, st, st', done);
  }

  lemma SettleShape(w: World, st: Walk, early: set<nat>, done: set<nat>)
    requires Shape(w, st, done) && st.settled <= early <= done
    ensures Shape(w, Settle(w, st, early), done)
    ensures Settle(w, st, early).settled == early
  {
    SettleKeeps(w, st, |st.futures|, early);
    assert (set k | k in early && k < |st.futures|) == early;
    var st' := Settle(w, st, early);
    hide OneProducer, Recorded, Settle;
    assert Ranged(w, st');
    forall k | 0 <= k < |st'.armed| ensures WaitsFor(w, st', st'.armed[k]) {
      assert WaitsFor(w, st, st.armed[k]);
    }
    forall t | t in st'.namedFutures ensures DefinedBefore(w, st'.ruleIndex, t) {
      assert DefinedBefore(w, st.ruleIndex, t);
    }
  }

  /** The first read of a rule; what a rule that binds responses will not see is what comes back later. */
  lemma SettleForShape(w: World, st: Walk, early: set<nat>, done: set<nat>)
    requires Shape(w, st, done) && st.settled <= early <= done
    ensures Shape(w, SettleFor(w, st, early), done)
    ensures st.ruleIndex < |w.rules| && HasBindings(w.rules[st.ruleIndex]) ==> SettleFor(w, st, early).settled == early
  {
    hide Shape;
    if st.ruleIndex < |w.rules| && HasBindings(w.rules[st.ruleIndex]) {
      SettleShape(w, st, early, done);
    }
  }

  // ---- Sweeping ----

  /** A sweep that commits nothing leaves exactly rules that still wait for something. */
  lemma {:induction false} SweepLeaves(w: World, st: Walk, late: set<nat>, k: nat)
    requires Ranged(w, st) && k <= |st.armed| && forall j | 0 <= j < k :: !Ready(st.armed[j], late)
    ensures var r := Sweep(w, st, late, k);
      r.1.None? ==> forall j | 0 <= j < |r.0.armed| :: !Ready(r.0.armed[j], late)
    decreases |st.armed| - k
  {
    hide TryArmed, Ready;
    if k < |st.armed| {
      if !Ready(st.armed[k], late) {
        SweepLeaves(w, st, late, k + 1);
      } else {
        SweepLeaves(w, WithoutArmed(st, k), late, k);
      }
    }
  }

  lemma SweepShape(w: World, st: Walk, late: set<nat>, done: set<nat>)
    requires Shape(w, st, done)
    ensures Shape(w, Sweep(w, st, late, 0).0, done)
  {
    var swept := Sweep(w, st, late, 0).0;
    hide Sweep, OneProducer, Recorded, Ranged;
    forall k | 0 <= k < |swept.armed| ensures WaitsFor(w, st, swept.armed[k]) {
      var j :| 0 <= j < |st.armed| && st.armed[j] == swept.armed[k];
    }
    ShapeFrame(w, st, swept, done);
  }

  // ---- Race rules ----

  lemma ArmedHereWaits(w: World, st: Walk, late: set<nat>)
    requires Ranged(w, st) && st.ruleIndex < |w.rules|
    ensures var a := ArmedHere(w, st, late);
      && a.index == st.ruleIndex
      && (a.waits != [] ==> WaitsFor(w, st, a))
      && Ranged(w, st.(armed := st.armed + [a]))
      && (a.waits == [] ==> Ready(a, late))
  {
    var rule := w.rules[st.ruleIndex];
    var a := ArmedHere(w, st, late);
    PendingTagsCover(Tags(rule), st, late);
    forall k | 0 <= k < |a.waits| ensures a.waits[k] < |st.futures| {
      assert k < |PendingTags(Tags(rule), st, late)| ==> a.waits[k] in PendingTags(Tags(rule), st, late);
    }
  }

  lemma ArmShape(w: World, st: Walk, done: set<nat>)
    requires Shape(w, st, done) && st.ruleIndex < |w.rules|
    ensures ShapeKept(w, st, Arm(w, st, done).0, Arm(w, st, done).1, done)
  {
    var a := ArmedHere(w, st, done);
    var st' := st.(armed := st.armed + [a]);
    ArmedHereWaits(w, st, done);
    hide OneProducer, Recorded, ArmedHere, Named, Sweep;
    if a.waits != [] {
      ArmedShape(w, st, a, done);
    } else {
      var (swept, commit) := Sweep(w, st', done, 0);
      ArmSweepShape(w, st, a, swept, done);
      if commit.Some? {
        CommitIsNoEnd(w, st', done, 0);
      }
    }
  }

  lemma ArmedShape(w: World, st: Walk, a: Armed, done: set<nat>)
    requires Shape(w, st, done) && st.ruleIndex < |w.rules| && WaitsFor(w, st, a)
    requires Ranged(w, st.(armed := st.armed + [a]))
    ensures Shape(w, Next(st.(armed := st.armed + [a])), done)
  {
    var st' := Next(st.(armed := st.armed + [a]));
    hide OneProducer, Recorded;
    ShapeFrame(w, st, st', done);
  }

  lemma ArmSweepShape(w: World, st: Walk, a: Armed, swept: Walk, done: set<nat>)
    requires Shape(w, st, done) && st.ruleIndex < |w.rules| && Ready(a, done)
    requires Ranged(w, st.(armed := st.armed + [a])) && swept == Sweep(w, st.(armed := st.armed + [a]), done, 0).0
    ensures Shape(w, swept.(armed := []), done) && Bounded(swept, done)
    ensures Sweep(w, st.(armed := st.armed + [a]), done, 0).1.None? ==> Shape(w, Next(swept), done)
  {
    var st' := st.(armed := st.armed + [a]);
    ShapeFrame(w, st, swept.(armed := []), done);
    if Sweep(w, st', done, 0).1.None? {
      SweepLeaves(w, st', done, 0);
      hide OneProducer, Recorded, Sweep, Ranged, Indexed;
      LeftWaits(w, st, a, swept, done);
      ShapeFrame(w, st, Next(swept), done);
    }
  }

  lemma LeftWaits(w: World, st: Walk, a: Armed, swept: Walk, done: set<nat>)
    requires (forall k | 0 <= k < |st.armed| :: WaitsFor(w, st, st.armed[k])) && Ready(a, done)
    requires forall k | 0 <= k < |swept.armed| :: swept.armed[k] in st.armed + [a] && !Ready(swept.armed[k], done)
    ensures forall k | 0 <= k < |swept.armed| :: WaitsFor(w, st, swept.armed[k])
  {
    hide Ready, WaitsFor;
    forall k | 0 <= k < |swept.armed| ensures WaitsFor(w, st, swept.armed[k]) {
      assert swept.armed[k] in st.armed + [a] && swept.armed[k] != a;
      var j :| 0 <= j < |st.armed| && st.armed[j] == swept.armed[k];
    }
  }

  /** An armed rule never commits with the end of the context. */
  lemma {:induction false} CommitIsNoEnd(w: World, st: Walk, late: set<nat>, k: nat)
    requires Ranged(w, st) && k <= |st.armed|
    ensures Sweep(w, st, late, k).1 != Some(ContextEnded)
    decreases |st.armed| - k
  {
    hide Matches, AnonymousView, FutureView, RouteQuery, Ready;
    if k < |st.armed| {
      if !Ready(st.armed[k], late) {
        CommitIsNoEnd(w, st, late, k + 1);
      } else {
        CommitIsNoEnd(w, WithoutArmed(st, k), late, k);
      }
    }
  }

  // ---- Other rules ----

  /** A tag a rule defines is new when the walk reaches the rule. */
  lemma DefinedIsNew(w: World, st: Walk, t: string)
    requires Walkable(w.rules) && st.ruleIndex < |w.rules| && Named(w, st)
    requires DefinesTag(w.rules[st.ruleIndex], t) && t != ""
    ensures t !in st.namedFutures
  {
  }

  /** A launch keeps the shape, the new name included. */
  lemma LaunchShape(w: World, st: Walk, f: Future, st': Walk, done: set<nat>)
    requires Shape(w, st, done) && st.ruleIndex <= st'.ruleIndex <= |w.rules|
    requires st' == Launch(st, f).(
      ruleIndex := st'.ruleIndex, anonymous := st'.anonymous, namedFutures := st'.namedFutures,
      terminal := st'.terminal, terminalIndex := st'.terminalIndex)
    requires st'.anonymous == st.anonymous || st'.anonymous == Some(|st.futures|)
    requires st'.terminal == st.terminal || st'.terminal == Some(|st.futures|)
    requires if f.tag == "" then st'.namedFutures == st.namedFutures
             else f.tag !in st.namedFutures && st'.namedFutures == st.namedFutures[f.tag := |st.futures|]
    requires f.tag != "" ==> DefinedBefore(w, st'.ruleIndex, f.tag)
    requires SentAhead(w, st')
    ensures Shape(w, st', done)
  {
    LaunchRecords(w, st, st', f);
    hide OneProducer, Recorded, SentAhead;
    assert Ranged(w, st');
    forall t | t in st'.namedFutures ensures DefinedBefore(w, st'.ruleIndex, t) {
      assert t in st.namedFutures ==> DefinedBefore(w, st.ruleIndex, t);
    }
    forall k | 0 <= k < |st'.armed| ensures WaitsFor(w, st', st'.armed[k]) {
      assert WaitsFor(w, st, st.armed[k]);
    }
  }

  lemma EvaluateShape(w: World, st: Walk, done: set<nat>)
    requires Walkable(w.rules) && Shape(w, st, done) && st.ruleIndex < |w.rules|
    requires w.rules[st.ruleIndex].action.Evaluate?
    ensures ShapeKept(w, st, Act(w, st, done).0, Act(w, st, done).1, done)
  {
    var action := w.rules[st.ruleIndex].action;
    var q := EvaluateQuery(w, st.ruleIndex, action, st.options);
    var (st', end) := Act(w, st, done);
    if action.tag != "" {
      DefinedIsNew(w, st, action.tag);
      assert DefinesTag(w.rules[st.ruleIndex], action.tag);
      assert DefinedBefore(w, st.ruleIndex + 1, action.tag);
    }
    assert end.Continue? ==> SentAhead(w, st');
    hide EvaluateQuery, OneProducer, Recorded, Ranged, Walkable, Named, Shape, SentAhead;
    if q.None? {
      NextShape(w, st, st', done);
    } else if end.Continue? {
      LaunchShape(w, st, Future(q.value, action.tag, false), st', done);
    }
    ShapeIsBounded(w, st, done);
  }

  lemma RouteShape(w: World, st: Walk, done: set<nat>)
    requires Shape(w, st, done) && st.ruleIndex < |w.rules| && w.rules[st.ruleIndex].action.Route?
    ensures ShapeKept(w, st, Act(w, st, done).0, Act(w, st, done).1, done)
  {
    var action := w.rules[st.ruleIndex].action;
    var q := RouteQuery(w, st.ruleIndex, action, st.options);
    var (st', end) := Act(w, st, done);
    hide RouteQuery, OneProducer, Recorded, Named, Shape;
    ShapeIsBounded(w, st, done);
    if q.None? {
      NextShape(w, st, st', done);
    } else if |st'.futures| > |st.futures| {
      assert SentAhead(w, st');
      LaunchShape(w, st, Future(q.value, "", true), st', done);
    }
  }

  lemma ShapeIsBounded(w: World, st: Walk, done: set<nat>)
    requires Shape(w, st, done)
    ensures Bounded(st, done) && Ranged(w, st)
  {
  }

  lemma ActShape(w: World, st: Walk, done: set<nat>)
    requires Walkable(w.rules) && Shape(w, st, done) && st.ruleIndex < |w.rules|
    ensures ShapeKept(w, st, Act(w, st, done).0, Act(w, st, done).1, done)
  {
    hide Shape, Walkable, ShapeKept, Act, Ranged;
    ShapeIsBounded(w, st, done);
    var action := w.rules[st.ruleIndex].action;
    if action.Evaluate? {
      EvaluateShape(w, st, done);
    } else if action.Route? {
      RouteShape(w, st, done);
    } else {
      OtherShape(w, st, done);
    }
  }

  lemma OtherShape(w: World, st: Walk, done: set<nat>)
    requires Shape(w, st, done) && st.ruleIndex < |w.rules|
    requires !w.rules[st.ruleIndex].action.Evaluate? && !w.rules[st.ruleIndex].action.Route?
    ensures ShapeKept(w, st, Act(w, st, done).0, Act(w, st, done).1, done)
  {
    hide Shape, ApplyRouteOptions, HasBindings, ResponseTag, AnonymousView;
    ShapeIsBounded(w, st, done);
    var (st', end) := Act(w, st, done);
    if end.Continue? {
      NextShape(w, st, st', done);
    }
  }

  /** Every rule of the walk keeps the shape, whatever has come back since the futures were settled. */
  lemma ReadRuleShape(w: World, st: Walk, done: set<nat>)
    requires Walkable(w.rules) && Shape(w, st, done)
    ensures ShapeKept(w, st, ReadRule(w, st, done).0, ReadRule(w, st, done).1, done)
  {
    if st.ruleIndex < |w.rules| {
      var rule := w.rules[st.ruleIndex];
      if Armable(rule) {
        ArmShape(w, st, done);
      } else {
        TryShape(w, st, done);
      }
    }
  }

  lemma TryShape(w: World, st: Walk, done: set<nat>)
    requires Walkable(w.rules) && Shape(w, st, done) && st.ruleIndex < |w.rules|
    ensures ShapeKept(w, st, Try(w, st, done).0, Try(w, st, done).1, done)
  {
    var rule := w.rules[st.ruleIndex];
    var waits := Waits(rule, st, done);
    PendingTagsCover(Tags(rule), st, done);
    assert waits != [] ==> waits[0] !in done && waits[0] < |st.futures|;
    hide OneProducer, Recorded, Named, Walkable, Waits, Act, Matches, Shape;
    ShapeIsBounded(w, st, done);
    if waits == [] {
      if !Matches(rule, st.namedResponses, AnonymousView(w, st, done)) {
        NextShape(w, st, Next(st), done);
      } else {
        ActShape(w, st, done);
      }
    }
  }
}
