/** One rule of the walk keeps the invariant, and what it decides is allowed. */
module DnsWalkSteps {
  import opened Options
  import opened DnsRules
  import opened DnsMode
  import opened DnsSequential
  import opened DnsWalk
  import opened DnsWalkInvariant

  // ---- Decisions ----

  /** With every race rule tried, stopping here is the sequential decision. */
  lemma DecidesSequentially(w: World, i: nat, d: Decision, back: set<Query>)
    requires i < |w.rules| && !Armable(w.rules[i]) && Tried(w, [], i, back)
    requires Reach(w, i + 1) == Stopped(d) && Reach(w, i).Running?
    ensures Allowed(w, d)
  {
    StoppedForGood(w, i + 1, |w.rules|);
    forall j: nat | Contends(w, j)
      ensures RaceVerdict(w, j).None?
    {
      if j > i {
        StoppedForGood(w, i + 1, j);
      } else {
        assert TriedAt(w, [], j, back);
      }
    }
  }

  lemma DefaultDecides(w: World, back: set<Query>)
    requires Reach(w, |w.rules|).Running? && Tried(w, [], |w.rules|, back)
    ensures Allowed(w, Forwarded(DefaultQuery(w, Reach(w, |w.rules|).options)))
  {
    forall j: nat | Contends(w, j)
      ensures RaceVerdict(w, j).None?
    {
      assert TriedAt(w, [], j, back);
    }
  }

  // ---- Moving on ----

  lemma PassedIsTried(w: World, armed: seq<Armed>, n: nat, back: set<Query>)
    requires n < |w.rules| && !Armable(w.rules[n]) && Tried(w, armed, n, back)
    ensures Tried(w, armed, n + 1, back)
  {
    hide TriedAt;
  }

  /** Passing a rule: what it awaits has come back. */
  lemma PassedIsAwaited(w: World, armed: seq<Armed>, n: nat, back: set<Query>)
    requires Tried(w, armed, n, back) && Awaited(w, n) <= back && (Barrier(w, n) ==> armed == [])
    requires n < |w.rules| && (!Armable(w.rules[n]) ==> Bound(w, n) <= back)
    ensures Awaited(w, n + 1) <= back
  {
    hide Barrier, Contends, RaceVerdict, Bound, Armable;
    if Barrier(w, n) {
      forall j: nat | j < n && Contends(w, j) ensures Bound(w, j) <= back { assert TriedAt(w, armed, j, back); }
      RaceBoundIsBound(w, n, back);
    }
  }

  lemma ReturnedGrows(st: Walk, st': Walk, done: set<nat>)
    requires Bounded(st, done) && |st.futures| <= |st'.futures| && st'.futures[..|st.futures|] == st.futures
    ensures Returned(st', done) == Returned(st, done)
  {
    assert forall k | 0 <= k < |st.futures| :: st'.futures[k] == st.futures[k];
  }

  /** A rule that waits for nothing has all it binds. */
  lemma BoundIsBack(w: World, st: Walk, i: nat, anonymous: Option<nat>, done: set<nat>)
    requires i < |w.rules| && Reach(w, i).Running?
    requires HasBindings(w.rules[i]) ==> BoundAs(w, st, i, Reach(w, i), anonymous, [], done)
    ensures Bound(w, i) <= Returned(st, done)
  {
    var s := Reach(w, i);
    hide Reach;
    forall q | q in BoundBy(w.rules[i], s)
      ensures q in Returned(st, done)
    {
      if t :| t in Tags(w.rules[i]) && t in s.named && s.named[t] == q {
        assert BoundTag(st, s, t, [], done);
      }
    }
  }

  /** A query that has not come back is not among those that have: no query is sent twice. */
  lemma StillOut(st: Walk, done: set<nat>, k: nat)
    requires SentInOrder(st) && k < |st.futures| && k !in done
    ensures st.futures[k].query !in Returned(st, done)
  {
    forall j | j in done && j < |st.futures| ensures st.futures[j].query != st.futures[k].query {
      assert j < k || k < j;
    }
  }

  /** A rule the walk passes has no route sent ahead. */
  lemma NothingSentAhead(w: World, st: Walk)
    requires TerminalOk(w, st) && st.ruleIndex < |w.rules| && Reach(w, st.ruleIndex + 1).Running?
    ensures st.terminal.None?
  {
  }

  /** Passing a rule that launches nothing. */
  lemma MoveKeeps(w: World, st: Walk, st': Walk, done: set<nat>)
    requires Inv(w, st, done) && st.ruleIndex < |w.rules| && !Armable(w.rules[st.ruleIndex])
    requires st' == st.(ruleIndex := st.ruleIndex + 1, options := st'.options, anonymous := st'.anonymous)
    requires Agrees(w, st') && Bound(w, st.ruleIndex) <= Returned(st, done)
    requires Barrier(w, st.ruleIndex) ==> st.armed == []
    ensures Inv(w, st', done)
  {
    hide OneProducer, Recorded, ArmedOk, Agrees, Accounted, Barrier, Bound, Returned, Armable;
    AgreesRunning(w, st');
    NothingSentAhead(w, st);
    hide Reach;
    PassAccounted(w, st, st', done);
    PassKeepsArmed(w, st, st', done);
    ProducersFrame(st, st');
    RecordedFrame(w, st, st');
  }

  /** Passing a rule that is not a race rule, with or without the query it sends. */
  lemma PassAccounted(w: World, st: Walk, st': Walk, done: set<nat>)
    requires Accounted(w, st, done) && Bounded(st, done) && st.ruleIndex < |w.rules| && !Armable(w.rules[st.ruleIndex])
    requires Bound(w, st.ruleIndex) <= Returned(st, done) && (Barrier(w, st.ruleIndex) ==> st.armed == [])
    requires st'.ruleIndex == st.ruleIndex + 1 && st'.armed == st.armed && st.terminal.None?
    requires
      || st'.futures == st.futures
      || exists f: Future :: st'.futures == st.futures + [f] && f.query.rule == st.ruleIndex
    ensures Accounted(w, st', done)
  {
    hide Tried, Awaited, Bound, Returned, Barrier, Armable;
    PassedIsTried(w, st.armed, st.ruleIndex, Returned(st, done));
    PassedIsAwaited(w, st.armed, st.ruleIndex, Returned(st, done));
    ReturnedGrows(st, st', done);
  }

  /** Passing a race rule that stays armed or has been tried. */
  lemma RaceAccounted(w: World, st: Walk, st': Walk, done: set<nat>)
    requires Accounted(w, st, done) && st.ruleIndex < |w.rules| && Armable(w.rules[st.ruleIndex])
    requires st'.ruleIndex == st.ruleIndex + 1 && st'.futures == st.futures && st'.terminal == st.terminal
    requires Tried(w, st'.armed, st'.ruleIndex, Returned(st, done))
    ensures Accounted(w, st', done)
  {
    hide Tried, Awaited, Bound, Returned, Barrier, Armable;
    RaceIsNoBarrier(w, st.ruleIndex);
    PassedIsAwaited(w, st.armed, st.ruleIndex, Returned(st, done));
    ReturnedFrame(st, st', done);
  }

  lemma RaceIsNoBarrier(w: World, i: nat)
    requires i < |w.rules| && Armable(w.rules[i])
    ensures !Barrier(w, i)
  {
    hide Armable, Reach, MatchesAt, EvaluateQuery;
  }

  lemma AgreesRunning(w: World, st: Walk)
    requires Agrees(w, st)
    ensures st.ruleIndex <= |w.rules| && Reach(w, st.ruleIndex).Running?
  {
  }

  lemma RecordedFrame(w: World, st: Walk, st': Walk)
    requires Recorded(w, st)
    requires st'.futures == st.futures && st'.namedFutures == st.namedFutures && st'.settled == st.settled
    requires st'.namedResponses == st.namedResponses && st'.namedTransports == st.namedTransports
    ensures Recorded(w, st')
  {
    forall t ensures RecordedTag(w, st', t) { assert RecordedTag(w, st, t); }
  }

  /** Armed rules stay as they are while the walk grows and none of their tags is given again. */
  lemma ArmedGrows(w: World, st: Walk, st': Walk, a: Armed, done: set<nat>)
    requires ArmedOk(w, st, a, done) && Waiting(w, a)
    requires |st.futures| <= |st'.futures| && st'.futures[..|st.futures|] == st.futures
    requires forall t | t in Tags(w.rules[a.index]) ::
               && (t in st.namedFutures <==> t in st'.namedFutures)
               && (t in st.namedFutures ==> st.namedFutures[t] == st'.namedFutures[t])
    ensures ArmedOk(w, st', a, done)
  {
    hide Bound;
    assert forall k | 0 <= k < |st.futures| :: st'.futures[k] == st.futures[k];
    forall t | t in Tags(w.rules[a.index])
      ensures BoundTag(st', Reach(w, a.index), t, a.waits, done)
    {
      assert BoundTag(st, Reach(w, a.index), t, a.waits, done);
    }
  }

  lemma PassKeepsArmed(w: World, st: Walk, st': Walk, done: set<nat>)
    requires Inv(w, st, done)
    requires |st.futures| <= |st'.futures| && st'.futures[..|st.futures|] == st.futures
    requires st'.armed == st.armed
    requires forall k, t | 0 <= k < |st.armed| && t in Tags(w.rules[st.armed[k].index]) ::
               && (t in st.namedFutures <==> t in st'.namedFutures)
               && (t in st.namedFutures ==> st.namedFutures[t] == st'.namedFutures[t])
    ensures forall k | 0 <= k < |st'.armed| :: ArmedOk(w, st', st'.armed[k], done)
  {
    hide OneProducer, Recorded, ArmedOk, Agrees, Accounted, TerminalOk, Waiting, InOrder, Tags;
    forall k | 0 <= k < |st'.armed|
      ensures ArmedOk(w, st', st'.armed[k], done)
    {
      ArmedGrows(w, st, st', st.armed[k], done);
    }
  }

  // ---- Evaluate ----

  /** A tag a rule defines is new when the walk reaches the rule. */
  lemma DefinedTagIsNew(w: World, st: Walk, t: string)
    requires Walkable(w.rules) && Agrees(w, st) && st.ruleIndex < |w.rules|
    requires DefinesTag(w.rules[st.ruleIndex], t) && t != ""
    ensures t !in st.namedFutures
    ensures forall j | 0 <= j <= st.ruleIndex :: t !in Tags(w.rules[j])
  {
    if t in st.namedFutures {
      NamedHasProducer(w, st.ruleIndex, t);
    }
  }

  lemma LaunchNamedAgrees(w: World, st: Walk, q: Query, t: string)
    requires Agrees(w, st) && st.ruleIndex < |w.rules| && t !in st.namedFutures
    requires Reach(w, st.ruleIndex + 1) == Reach(w, st.ruleIndex).(named := Reach(w, st.ruleIndex).named[t := q])
    ensures Agrees(w, Next(Launch(st, Future(q, t, false)).(namedFutures := st.namedFutures[t := |st.futures|])))
  {
    hide Reach;
  }

  /** Launching a tagged query leaves the armed rules alone. */
  lemma LaunchNamedArmed(w: World, st: Walk, st': Walk, t: string, done: set<nat>)
    requires Inv(w, st, done) && st.ruleIndex < |w.rules|
    requires forall j | 0 <= j <= st.ruleIndex :: t !in Tags(w.rules[j])
    requires |st.futures| <= |st'.futures| && st'.futures[..|st.futures|] == st.futures && st'.armed == st.armed
    requires st'.namedFutures == st.namedFutures[t := |st.futures|]
    ensures forall k | 0 <= k < |st'.armed| :: ArmedOk(w, st', st'.armed[k], done)
  {
    hide OneProducer, Recorded, ArmedOk, Agrees, Tried, Reach, Tags;
    PassKeepsArmed(w, st, st', done);
  }

  /** Launching the query of a tagged evaluate action. */
  lemma LaunchNamedKeeps(w: World, st: Walk, q: Query, t: string, done: set<nat>)
    requires Walkable(w.rules) && Inv(w, st, done) && st.ruleIndex < |w.rules| && !Armable(w.rules[st.ruleIndex])
    requires t != "" && DefinesTag(w.rules[st.ruleIndex], t) && (Barrier(w, st.ruleIndex) ==> st.armed == [])
    requires q.rule == st.ruleIndex && Bound(w, st.ruleIndex) <= Returned(st, done)
    requires Reach(w, st.ruleIndex + 1) == Reach(w, st.ruleIndex).(named := Reach(w, st.ruleIndex).named[t := q])
    ensures Inv(w, Next(Launch(st, Future(q, t, false)).(namedFutures := st.namedFutures[t := |st.futures|])), done)
  {
    hide OneProducer, Recorded, ArmedOk, Agrees, Accounted, Walkable, Tags, Barrier, Bound, Returned, Armable;
    var st' := Next(Launch(st, Future(q, t, false)).(namedFutures := st.namedFutures[t := |st.futures|]));
    DefinedTagIsNew(w, st, t);
    NothingSentAhead(w, st);
    assert st'.futures == st.futures + [Future(q, t, false)];
    PassAccounted(w, st, st', done);
    LaunchNamedArmed(w, st, st', t, done);
    LaunchRecords(w, st, st', Future(q, t, false));
    LaunchNamedAgrees(w, st, q, t);
  }

  /** Launching the query of an evaluate action without a tag. */
  lemma LaunchAnonymousKeeps(w: World, st: Walk, q: Query, done: set<nat>)
    requires Inv(w, st, done) && st.ruleIndex < |w.rules| && !Armable(w.rules[st.ruleIndex])
    requires Reach(w, st.ruleIndex + 1) == Reach(w, st.ruleIndex).(anonymous := Some(q))
    requires Barrier(w, st.ruleIndex) ==> st.armed == []
    requires q.rule == st.ruleIndex && Bound(w, st.ruleIndex) <= Returned(st, done)
    ensures Inv(w, Next(Launch(st, Future(q, "", false)).(anonymous := Some(|st.futures|))), done)
  {
    var st' := Next(Launch(st, Future(q, "", false)).(anonymous := Some(|st.futures|)));
    hide OneProducer, Recorded, ArmedOk, Agrees, Accounted, Barrier, Bound, Returned, Armable;
    AgreesRunning(w, st);
    NothingSentAhead(w, st);
    hide Reach;
    assert st'.futures == st.futures + [Future(q, "", false)];
    PassAccounted(w, st, st', done);
    AnonymousAgrees(w, st, q);
    PassKeepsArmed(w, st, st', done);
    LaunchRecords(w, st, st', Future(q, "", false));
  }

  lemma AnonymousAgrees(w: World, st: Walk, q: Query)
    requires Agrees(w, st) && st.ruleIndex < |w.rules|
    requires Reach(w, st.ruleIndex + 1) == Reach(w, st.ruleIndex).(anonymous := Some(q))
    ensures Agrees(w, Next(Launch(st, Future(q, "", false)).(anonymous := Some(|st.futures|))))
  {
    hide Reach;
  }

  /** A new future leaves producers and records in order. */
  lemma LaunchRecords(w: World, st: Walk, st': Walk, f: Future)
    requires OneProducer(st) && Recorded(w, st)
    requires st'.futures == st.futures + [f]
    requires if f.tag == "" then st'.namedFutures == st.namedFutures
             else f.tag !in st.namedFutures && st'.namedFutures == st.namedFutures[f.tag := |st.futures|]
    requires st'.settled == st.settled && st'.namedResponses == st.namedResponses &&
      st'.namedTransports == st.namedTransports
    ensures OneProducer(st') && Recorded(w, st')
  {
    forall k | 0 <= k < |st'.futures| ensures Produces(st', k) {
      if k < |st.futures| { assert Produces(st, k); }
    }
    forall t | t in st'.namedFutures ensures Produced(st', t) {
      if t in st.namedFutures { assert Produced(st, t); }
    }
    forall t ensures RecordedTag(w, st', t) { assert RecordedTag(w, st, t); }
  }

  /** Sending a speculative route ahead. */
  lemma LaunchTerminalKeeps(w: World, st: Walk, q: Query, done: set<nat>)
    requires Inv(w, st, done) && st.ruleIndex < |w.rules| && st.terminal.None? && q.rule == st.ruleIndex
    requires Reach(w, st.ruleIndex + 1) == Stopped(Forwarded(q))
    ensures Inv(w, Launch(st, Future(q, "", true)).(terminal := Some(|st.futures|), terminalIndex := st.ruleIndex),
      done)
  {
    var st' := Launch(st, Future(q, "", true)).(terminal := Some(|st.futures|), terminalIndex := st.ruleIndex);
    hide OneProducer, Recorded, ArmedOk, Reach, Accounted;
    assert Agrees(w, st');
    hide Agrees;
    TerminalAccounted(w, st, st', Future(q, "", true), done);
    PassKeepsArmed(w, st, st', done);
    LaunchRecords(w, st, st', Future(q, "", true));
  }

  lemma TerminalAccounted(w: World, st: Walk, st': Walk, f: Future, done: set<nat>)
    requires Accounted(w, st, done) && Bounded(st, done) && st.terminal.None? && f.query.rule == st.ruleIndex
    requires st'.futures == st.futures + [f] && st'.armed == st.armed && st'.ruleIndex == st.ruleIndex
    requires st'.terminal.Some?
    ensures Accounted(w, st', done)
  {
    hide Tried, Awaited, Returned;
    ReturnedGrows(st, st', done);
  }

  // ---- A rule that matched ----

  /** What one rule of the walk may end with. */
  ghost predicate Sound(w: World, st: Walk, st': Walk, end: RuleEnd, done: set<nat>) {
    match end
    case Continue => Inv(w, st', done) && st'.ruleIndex == st.ruleIndex + 1
    case Suspend(Await(k)) => Inv(w, st', done) && k < |st'.futures| && k !in done
    case Suspend(Drain) => Inv(w, st', done) && st'.armed != []
    case Suspend(Pending(p)) => Resting(w, st', done) && Backed(st', p) && Allowed(w, Forwarded(p.query))
    case Decide(d) => Allowed(w, d) && Bounded(st', done)
  }

  /** Nothing is armed any more: the walk only waits for its final exchange. */
  ghost predicate Resting(w: World, st: Walk, done: set<nat>) {
    && Indexed(st)
    && st.armed == []
    && Bounded(st, done)
  }

  /** A future sent ahead carries the very query of the pending exchange. */
  ghost predicate Backed(st: Walk, p: PendingExchange) {
    p.future.Some? ==> p.future.value < |st.futures| && st.futures[p.future.value].query == p.query
  }

  lemma InvTried(w: World, st: Walk, done: set<nat>)
    requires Inv(w, st, done)
    ensures Tried(w, st.armed, st.ruleIndex, Returned(st, done)) && Bounded(st, done)
  {
    hide OneProducer, Recorded, ArmedOk, Agrees, TerminalOk, Waiting, InOrder, Tried;
  }

  lemma ActOnOptions(w: World, st: Walk, done: set<nat>)
    requires Inv(w, st, done) && st.ruleIndex < |w.rules| && !Armable(w.rules[st.ruleIndex])
    requires MatchesAt(w, st.ruleIndex, Reach(w, st.ruleIndex)) && w.rules[st.ruleIndex].action.SetOptions?
    requires Bound(w, st.ruleIndex) <= Returned(st, done)
    ensures Sound(w, st, Act(w, st, done).0, Act(w, st, done).1, done)
  {
    hide OneProducer, Recorded, ArmedOk, Waiting, Accounted, Bound, Returned, InOrder, TerminalOk, Matches, MatchesAt,
      Tags, BindsAnonymous, Armable;
    var st' := Act(w, st, done).0;
    assert Agrees(w, st');
    hide Agrees, Inv, Reach;
    MoveKeeps(w, st, st', done);
  }

  lemma EvaluateReaches(w: World, i: nat)
    requires i < |w.rules| && Reach(w, i).Running? && !Armable(w.rules[i])
    requires MatchesAt(w, i, Reach(w, i)) && w.rules[i].action.Evaluate?
    ensures var s := Reach(w, i);
      var tag := w.rules[i].action.tag;
      var q := EvaluateQuery(w, i, w.rules[i].action, s.options);
      Reach(w, i + 1) ==
        if tag == "" then s.(anonymous := q) else if q.Some? then s.(named := s.named[tag := q.value]) else s
  {
    hide MatchesAt, Armable, EvaluateQuery;
  }

  /** An evaluate action whose server does not exist sends nothing. */
  lemma EvaluateSkips(w: World, st: Walk, done: set<nat>)
    requires Inv(w, st, done) && st.ruleIndex < |w.rules| && !Armable(w.rules[st.ruleIndex])
    requires MatchesAt(w, st.ruleIndex, Reach(w, st.ruleIndex)) && w.rules[st.ruleIndex].action.Evaluate?
    requires Bound(w, st.ruleIndex) <= Returned(st, done)
    requires EvaluateQuery(w, st.ruleIndex, w.rules[st.ruleIndex].action, st.options).None?
    ensures Inv(w, Next(if w.rules[st.ruleIndex].action.tag == "" then st.(anonymous := None) else st), done)
  {
    hide OneProducer, Recorded, ArmedOk, Waiting, Accounted, Bound, Returned, InOrder, TerminalOk, MatchesAt, Armable;
    var st' := Next(if w.rules[st.ruleIndex].action.tag == "" then st.(anonymous := None) else st);
    EvaluateReaches(w, st.ruleIndex);
    assert Agrees(w, st') by { hide Reach; }
    hide Inv, Agrees;
    MoveKeeps(w, st, st', done);
  }

  lemma ActOnEvaluate(w: World, st: Walk, done: set<nat>)
    requires Walkable(w.rules) && Inv(w, st, done) && st.ruleIndex < |w.rules| && !Armable(w.rules[st.ruleIndex])
    requires MatchesAt(w, st.ruleIndex, Reach(w, st.ruleIndex)) && w.rules[st.ruleIndex].action.Evaluate?
    requires Bound(w, st.ruleIndex) <= Returned(st, done)
    ensures Sound(w, st, Act(w, st, done).0, Act(w, st, done).1, done)
  {
    hide OneProducer, Recorded, ArmedOk, Waiting, Accounted, Bound, Returned, InOrder, TerminalOk, MatchesAt, Armable,
      Walkable;
    var action := w.rules[st.ruleIndex].action;
    var q := EvaluateQuery(w, st.ruleIndex, action, st.options);
    EvaluateReaches(w, st.ruleIndex);
    hide Reach, EvaluateQuery;
    if q.None? {
      EvaluateSkips(w, st, done);
    } else if action.speculative || st.armed == [] {
      if action.tag == "" {
        LaunchAnonymousKeeps(w, st, q.value, done);
      } else {
        LaunchNamedKeeps(w, st, q.value, action.tag, done);
      }
    }
    hide Inv;
  }

  lemma RouteReaches(w: World, i: nat)
    requires i < |w.rules| && Reach(w, i).Running? && !Armable(w.rules[i])
    requires MatchesAt(w, i, Reach(w, i)) && w.rules[i].action.Route?
    ensures var q := RouteQuery(w, i, w.rules[i].action, Reach(w, i).options);
      && Reach(w, i + 1) == (if q.Some? then Stopped(Forwarded(q.value)) else Reach(w, i))
      && (q.Some? ==> q.value.rule == i)
      && !Barrier(w, i)
  {
    hide MatchesAt, Armable, ApplyRouteOptions;
  }

  lemma AgreesNext(w: World, st: Walk)
    requires Agrees(w, st) && st.ruleIndex < |w.rules| && Reach(w, st.ruleIndex + 1) == Reach(w, st.ruleIndex)
    ensures Agrees(w, Next(st))
  {
    hide Reach;
  }

  /** What the walk knows on reaching a rule that is not a race rule. */
  lemma InvHere(w: World, st: Walk, done: set<nat>)
    requires Inv(w, st, done) && st.ruleIndex < |w.rules|
    ensures Agrees(w, st) && TerminalOk(w, st) && Recorded(w, st) && Bounded(st, done)
    ensures Indexed(st) && Reach(w, st.ruleIndex).Running? && st.options == Reach(w, st.ruleIndex).options
    ensures Tried(w, st.armed, st.ruleIndex, Returned(st, done))
  {
    InvTried(w, st, done);
    hide OneProducer, Recorded, ArmedOk, Accounted, Waiting, InOrder, Tried, Returned, Reach, Indexed, Bounded;
  }

  lemma ActOnRoute(w: World, st: Walk, done: set<nat>)
    requires Inv(w, st, done) && st.ruleIndex < |w.rules| && !Armable(w.rules[st.ruleIndex])
    requires MatchesAt(w, st.ruleIndex, Reach(w, st.ruleIndex)) && w.rules[st.ruleIndex].action.Route?
    requires Bound(w, st.ruleIndex) <= Returned(st, done)
    ensures Sound(w, st, Act(w, st, done).0, Act(w, st, done).1, done)
  {
    hide Inv, Tried, Bound, Returned, MatchesAt, Armable, Barrier, RouteQuery, Bounded, Allowed, Reach, Agrees,
      Recorded;
    var action := w.rules[st.ruleIndex].action;
    var q := RouteQuery(w, st.ruleIndex, action, st.options);
    InvHere(w, st, done);
    RouteReaches(w, st.ruleIndex);
    if q.None? {
      AgreesNext(w, st);
      MoveKeeps(w, st, Next(st), done);
    } else if st.armed == [] {
      DecidesSequentially(w, st.ruleIndex, Forwarded(q.value), Returned(st, done));
    } else if action.speculative && st.terminal.None? {
      LaunchTerminalKeeps(w, st, q.value, done);
    }
  }

  lemma FixedReaches(w: World, i: nat)
    requires i < |w.rules| && Reach(w, i).Running? && !Armable(w.rules[i]) && MatchesAt(w, i, Reach(w, i))
    ensures w.rules[i].action == Reject(RejectDefault) ==> Reach(w, i + 1) == Stopped(Refused)
    ensures w.rules[i].action == Reject(RejectDrop) ==> Reach(w, i + 1) == Stopped(Dropped)
    ensures w.rules[i].action == Reject(RejectReply) ==> Reach(w, i + 1) == Reach(w, i)
    ensures w.rules[i].action.Predefined? ==>
      Reach(w, i + 1) == Stopped(Answered(w.rules[i].action.response, None))
  {
    hide MatchesAt, Armable;
  }

  lemma ActOnFixed(w: World, st: Walk, done: set<nat>)
    requires Inv(w, st, done) && st.ruleIndex < |w.rules| && !Armable(w.rules[st.ruleIndex])
    requires MatchesAt(w, st.ruleIndex, Reach(w, st.ruleIndex))
    requires w.rules[st.ruleIndex].action.Reject? || w.rules[st.ruleIndex].action.Predefined?
    requires Bound(w, st.ruleIndex) <= Returned(st, done)
    ensures Sound(w, st, Act(w, st, done).0, Act(w, st, done).1, done)
  {
    hide Inv, Tried, Bound, Returned, MatchesAt, Armable, Barrier, Bounded, Allowed, Reach, Agrees, Recorded,
      TerminalOk;
    InvHere(w, st, done);
    FixedReaches(w, st.ruleIndex);
    var (st', end) := Act(w, st, done);
    if end.Decide? {
      DecidesSequentially(w, st.ruleIndex, end.decision, Returned(st, done));
    } else if end.Continue? {
      AgreesNext(w, st);
      MoveKeeps(w, st, st', done);
    }
  }

  /** A respond action that decides gives the response the sequential reading has. */
  lemma RespondIsVerdict(w: World, st: Walk, done: set<nat>)
    requires Walkable(w.rules) && Agrees(w, st) && Recorded(w, st) && st.ruleIndex < |w.rules|
    requires MatchesAt(w, st.ruleIndex, Reach(w, st.ruleIndex)) && w.rules[st.ruleIndex].action.Respond?
    requires SeesRight(w, st, st.ruleIndex, done)
    requires BoundAs(w, st, st.ruleIndex, Reach(w, st.ruleIndex), st.anonymous, [], done)
    requires Act(w, st, done).1.Decide?
    ensures Verdict(w, st.ruleIndex, Reach(w, st.ruleIndex)) == Some(Act(w, st, done).1.decision)
  {
    var rule := w.rules[st.ruleIndex];
    var s := Reach(w, st.ruleIndex);
    hide Reach, MatchesAt;
    if ResponseTag(rule) != "" {
      ResponseTagIsBound(rule);
      var tag := ResponseTag(rule);
      assert BoundTag(st, s, tag, [], done) && RecordedTag(w, st, tag) && ReadsRight(w, st, tag, done);
    } else {
      assert HasBindings(rule) ==> BindsAnonymous(rule);
    }
  }

  lemma ActOnRespond(w: World, st: Walk, done: set<nat>)
    requires Walkable(w.rules) && Inv(w, st, done) && st.ruleIndex < |w.rules| && !Armable(w.rules[st.ruleIndex])
    requires MatchesAt(w, st.ruleIndex, Reach(w, st.ruleIndex)) && w.rules[st.ruleIndex].action.Respond?
    requires SeesRight(w, st, st.ruleIndex, done)
    requires BoundAs(w, st, st.ruleIndex, Reach(w, st.ruleIndex), st.anonymous, [], done)
    ensures Sound(w, st, Act(w, st, done).0, Act(w, st, done).1, done)
  {
    hide Inv, Walkable, Recorded, Tried, Returned, SeesRight, Bounded, Allowed, BoundAs, Agrees;
    InvHere(w, st, done);
    var (st', end) := Act(w, st, done);
    if end.Decide? {
      RespondIsVerdict(w, st, done);
      assert Reach(w, st.ruleIndex + 1) == Stopped(end.decision);
      hide Reach, Verdict;
      DecidesSequentially(w, st.ruleIndex, end.decision, Returned(st, done));
    }
  }

  // ---- Race rules ----

  /** What a rule waits for is what it binds and has not come back. */
  lemma WaitsAreBound(w: World, st: Walk, done: set<nat>)
    requires Agrees(w, st) && st.ruleIndex < |w.rules|
    ensures var waits := Waits(w.rules[st.ruleIndex], st, done);
      forall k | 0 <= k < |waits| ::
        && waits[k] < |st.futures| && waits[k] !in done
        && st.futures[waits[k]].query in Bound(w, st.ruleIndex)
  {
    var rule := w.rules[st.ruleIndex];
    var waits := Waits(rule, st, done);
    var s := Reach(w, st.ruleIndex);
    hide Reach;
    PendingTagsCover(Tags(rule), st, done);
    forall k | 0 <= k < |waits|
      ensures waits[k] < |st.futures| && waits[k] !in done && st.futures[waits[k]].query in BoundBy(rule, s)
    {
      if k < |PendingTags(Tags(rule), st, done)| {
        assert waits[k] in PendingTags(Tags(rule), st, done);
        var t := PendingTagIsBound(Tags(rule), st, done, waits[k]);
        assert s.named[t] in BoundBy(rule, s);
      }
    }
  }

  lemma ArmedHereOk(w: World, st: Walk, done: set<nat>)
    requires Agrees(w, st) && st.ruleIndex < |w.rules| && Armable(w.rules[st.ruleIndex])
    ensures var a := ArmedHere(w, st, done);
      && ArmedOk(w, st, a, done)
      && (a.waits != [] ==> Waiting(w, a))
  {
    var rule := w.rules[st.ruleIndex];
    var a := ArmedHere(w, st, done);
    var s := Reach(w, st.ruleIndex);
    WaitsAreBound(w, st, done);
    hide Reach, Bound;
    PendingTagsCover(Tags(rule), st, done);
    forall t | t in Tags(rule)
      ensures BoundTag(st, s, t, a.waits, done)
    {
    }
  }

  lemma {:induction false} PendingTagIsBound(tags: seq<string>, st: Walk, late: set<nat>, k: nat) returns (t: string)
    requires k in PendingTags(tags, st, late)
    ensures t in tags && t in st.namedFutures && st.namedFutures[t] == k
  {
    if tags[0] in st.namedFutures && st.namedFutures[tags[0]] == k {
      t := tags[0];
    } else {
      t := PendingTagIsBound(tags[1..], st, late, k);
    }
  }

  lemma AppendedIsTried(w: World, armed: seq<Armed>, a: Armed, back: set<Query>)
    requires Tried(w, armed, a.index, back)
    ensures Tried(w, armed + [a], a.index + 1, back)
  {
    hide Contends, Bound;
    assert (armed + [a])[|armed|] == a;
    forall i: nat | i < a.index + 1 && Contends(w, i)
      ensures TriedAt(w, armed + [a], i, back)
    {
      assert i < a.index ==> TriedAt(w, armed, i, back);
      if IsArmed(armed, i) {
        var k :| 0 <= k < |armed| && armed[k].index == i;
        assert (armed + [a])[k].index == i;
      }
    }
  }

  /** A race rule changes nothing the sequential reading sees. */
  lemma AgreesPastRace(w: World, st: Walk, st': Walk)
    requires Agrees(w, st) && st.ruleIndex < |w.rules| && Armable(w.rules[st.ruleIndex])
    requires st' == st.(armed := st'.armed, ruleIndex := st.ruleIndex + 1) && Indexed(st')
    ensures Agrees(w, st')
  {
    assert Reach(w, st.ruleIndex + 1) == Reach(w, st.ruleIndex);
    hide Reach, Armable, Indexed;
  }

  lemma AppendedAccounted(w: World, st: Walk, a: Armed, done: set<nat>)
    requires Accounted(w, st, done) && st.ruleIndex == a.index < |w.rules| && Armable(w.rules[st.ruleIndex])
    ensures Tried(w, st.armed + [a], st.ruleIndex + 1, Returned(st, done))
    ensures Accounted(w, Next(st.(armed := st.armed + [a])), done)
  {
    hide Tried, Awaited, Returned, Armable, SentInOrder;
    AppendedIsTried(w, st.armed, a, Returned(st, done));
    RaceAccounted(w, st, Next(st.(armed := st.armed + [a])), done);
  }

  lemma AgreesIndexed(w: World, st: Walk)
    requires Agrees(w, st)
    ensures Indexed(st)
  {
  }

  lemma NextRanged(w: World, st: Walk)
    requires Ranged(w, st)
    ensures Indexed(Next(st))
  {
  }

  lemma AgreesPast(w: World, st: Walk)
    requires Agrees(w, st) && st.ruleIndex < |w.rules| && Armable(w.rules[st.ruleIndex])
    ensures Reach(w, st.ruleIndex + 1).Running?
  {
    assert Reach(w, st.ruleIndex + 1) == Reach(w, st.ruleIndex);
  }

  lemma ArmWaiting(w: World, st: Walk, done: set<nat>)
    requires Inv(w, st, done) && st.ruleIndex < |w.rules| && Armable(w.rules[st.ruleIndex])
    requires ArmedHere(w, st, done).waits != []
    ensures Inv(w, Next(st.(armed := st.armed + [ArmedHere(w, st, done)])), done)
  {
    hide OneProducer, Recorded, ArmedOk, Accounted, Waiting, ArmedHere, Agrees, Reach, Armable, Indexed, Ranged;
    var a := ArmedHere(w, st, done);
    var st' := Next(st.(armed := st.armed + [a]));
    ArmedHereOk(w, st, done);
    AgreesPast(w, st);
    AgreesIndexed(w, st);
    NothingSentAhead(w, st);
    ArmedHereRanged(w, st, done);
    AppendedAccounted(w, st, a, done);
    NextRanged(w, st.(armed := st.armed + [a]));
    AgreesPastRace(w, st, st');
    ProducersFrame(st, st');
    RecordedFrame(w, st, st');
    forall k | 0 <= k < |st'.armed|
      ensures ArmedOk(w, st', st'.armed[k], done)
    {
      ArmedFrame(w, st, st', if k < |st.armed| then st.armed[k] else a, done);
    }
  }

  lemma ArmedSweepable(w: World, st: Walk, done: set<nat>)
    requires Walkable(w.rules) && Inv(w, st, done)
    requires st.ruleIndex < |w.rules| && Armable(w.rules[st.ruleIndex])
    requires SeesRight(w, st, st.ruleIndex, done) && SweepReads(w, st, done)
    ensures Sweepable(w, st.(armed := st.armed + [ArmedHere(w, st, done)]), done)
  {
    hide Accounted, Bound, SeesRight, SweepReads, OneProducer, Recorded, ArmedOk, Waiting, TerminalOk, Walkable;
    var a := ArmedHere(w, st, done);
    var st' := st.(armed := st.armed + [a]);
    ArmedHereOk(w, st, done);
    RecordedFrame(w, st, st');
    ArmedReads(w, st, a, done);
    ArmedHereRanged(w, st, done);
    hide Agrees, Reach, Ranged, ArmedHere;
    forall k | 0 <= k < |st'.armed|
      ensures ArmedOk(w, st', st'.armed[k], done)
    {
      ArmedFrame(w, st, st', if k < |st.armed| then st.armed[k] else a, done);
    }
  }

  lemma ArmedHereRanged(w: World, st: Walk, done: set<nat>)
    requires Indexed(st) && st.ruleIndex < |w.rules|
    requires forall k | 0 <= k < |st.armed| :: st.armed[k].index < st.ruleIndex
    ensures Ranged(w, st.(armed := st.armed + [ArmedHere(w, st, done)]))
    ensures ArmedHere(w, st, done).index == st.ruleIndex
  {
  }

  lemma ArmedReads(w: World, st: Walk, a: Armed, done: set<nat>)
    requires SweepReads(w, st, done) && a.index < |w.rules| && SeesRight(w, st, a.index, done)
    ensures SweepReads(w, st.(armed := st.armed + [a]), done)
  {
    hide SeesRight;
    var st' := st.(armed := st.armed + [a]);
    forall j | 0 <= j < |st'.armed| && Ready(st'.armed[j], done) && st'.armed[j].index < |w.rules|
      ensures SeesRight(w, st', st'.armed[j].index, done)
    {
      if j < |st.armed| {
        assert st.armed[j] == st'.armed[j];
      }
      SightFrame(w, st, st', st'.armed[j].index, done);
    }
  }

  /** An armed rule that is ready has all it binds. */
  lemma ReadyIsBack(w: World, st: Walk, a: Armed, done: set<nat>)
    requires ArmedOk(w, st, a, done) && Ready(a, done)
    ensures Bound(w, a.index) <= Returned(st, done)
  {
    var s := Reach(w, a.index);
    forall t | t in Tags(w.rules[a.index]) ensures BoundTag(st, s, t, [], done) {
      assert BoundTag(st, s, t, a.waits, done);
    }
    hide Bound;
    BoundIsBack(w, st, a.index, a.anonymous, done);
  }

  /** An armed rule that is not ready binds a query that has not come back. */
  lemma UnreadyIsOut(w: World, st: Walk, a: Armed, done: set<nat>)
    requires ArmedOk(w, st, a, done) && SentInOrder(st) && !Ready(a, done)
    ensures !(Bound(w, a.index) <= Returned(st, done))
  {
    var k :| 0 <= k < |a.waits| && a.waits[k] !in done;
    hide Bound;
    StillOut(st, done, a.waits[k]);
    assert st.futures[a.waits[k]].query in Bound(w, a.index);
  }

  /**
   * A commit is allowed: what it needs has come back, and every race rule before it that would have
   * committed still waits for a query that has not.
   */
  lemma CommitIsAllowed(w: World, st: Walk, armed: seq<Armed>, done: set<nat>, d: Decision)
    requires exists j: nat :: FirstCommit(w, armed, done, 0, j, d)
    requires SentInOrder(st) && InOrder(armed) && forall j | 0 <= j < |armed| :: ArmedOk(w, st, armed[j], done)
    requires Tried(w, armed, st.ruleIndex, Returned(st, done)) && Awaited(w, st.ruleIndex) <= Returned(st, done)
    requires forall j | 0 <= j < |armed| :: armed[j].index <= st.ruleIndex
    ensures Allowed(w, d)
  {
    var j: nat :| FirstCommit(w, armed, done, 0, j, d);
    hide Contends, RaceVerdict, ArmedOk, Bound, Awaited, Returned, Ready, SentInOrder;
    var i := armed[j].index;
    ReadyIsBack(w, st, armed[j], done);
    AwaitedGrows(w, i, st.ruleIndex);
    forall e: nat | e < i && Contends(w, e) && RaceVerdict(w, e).Some?
      ensures !(Bound(w, e) <= Needed(w, i))
    {
      assert TriedAt(w, armed, e, Returned(st, done));
      var p :| 0 <= p < |armed| && armed[p].index == e;
      assert p < j;
      UnreadyIsOut(w, st, armed[p], done);
    }
    assert MayCommit(w, i, d);
  }

  /** A sweep that commits nothing has tried what it disarmed. */
  lemma DisarmedIsTried(w: World, st: Walk, armed: seq<Armed>, armed': seq<Armed>, n: nat, done: set<nat>)
    requires Disarmed(w, armed, armed', done) && forall j | 0 <= j < |armed| :: ArmedOk(w, st, armed[j], done)
    requires Tried(w, armed, n, Returned(st, done))
    ensures Tried(w, armed', n, Returned(st, done))
  {
    hide Contends, RaceVerdict, ArmedOk, Bound, Returned, Ready;
    forall i: nat | i < n && Contends(w, i)
      ensures TriedAt(w, armed', i, Returned(st, done))
    {
      assert TriedAt(w, armed, i, Returned(st, done));
      if IsArmed(armed, i) {
        var k :| 0 <= k < |armed| && armed[k].index == i;
        assert armed[k] in armed;
        if armed[k] in armed' {
          assert IsArmed(armed', i);
        } else {
          ReadyIsBack(w, st, armed[k], done);
        }
      }
    }
  }

  /** The rules a sweep leaves armed are in order with respect to any state it was run in. */
  lemma LeftArmedOk(w: World, st: Walk, swept: Walk, st': Walk, done: set<nat>)
    requires Inv(w, st, done)
    requires forall j | 0 <= j < |swept.armed| :: swept.armed[j] in st.armed
    requires st'.armed == swept.armed && st'.ruleIndex >= st.ruleIndex
    requires st'.futures == st.futures && st'.namedFutures == st.namedFutures && st'.anonymous == st.anonymous
    ensures forall k | 0 <= k < |st'.armed| ::
      st'.armed[k].index < st'.ruleIndex && ArmedOk(w, st', st'.armed[k], done) && Waiting(w, st'.armed[k])
  {
    forall k | 0 <= k < |st'.armed|
      ensures st'.armed[k].index < st'.ruleIndex && ArmedOk(w, st', st'.armed[k], done) && Waiting(w, st'.armed[k])
    {
      var j :| 0 <= j < |st.armed| && st.armed[j] == st'.armed[k];
      hide OneProducer, Recorded, ArmedOk, Agrees, Tried, Reach, Waiting;
      ArmedFrame(w, st, st', st.armed[j], done);
    }
  }

  lemma SweptAccounted(w: World, st: Walk, swept: Walk, done: set<nat>)
    requires Inv(w, st, done) && st.ruleIndex < |w.rules| && Armable(w.rules[st.ruleIndex])
    requires swept == st.(armed := swept.armed)
    requires Disarmed(w, st.armed + [ArmedHere(w, st, done)], swept.armed, done)
    ensures Accounted(w, Next(swept), done)
  {
    hide OneProducer, Recorded, ArmedOk, Agrees, Tried, Reach, Waiting, Disarmed, InOrder, ArmedHere, Accounted,
      Returned, TerminalOk, Armable;
    var a := ArmedHere(w, st, done);
    ArmedUpTo(w, st, done);
    assert a.index == st.ruleIndex by { ArmedHereIndex(w, st, done); }
    AppendedAccounted(w, st, a, done);
    DisarmedIsTried(w, st, st.armed + [a], swept.armed, st.ruleIndex + 1, done);
    RaceAccounted(w, st, Next(swept), done);
  }

  lemma ArmedHereIndex(w: World, st: Walk, done: set<nat>)
    requires st.ruleIndex < |w.rules|
    ensures ArmedHere(w, st, done).index == st.ruleIndex
  {
  }

  lemma ArmSweptKeeps(w: World, st: Walk, swept: Walk, done: set<nat>)
    requires Inv(w, st, done) && st.ruleIndex < |w.rules| && Armable(w.rules[st.ruleIndex])
    requires InOrder(swept.armed) && swept == st.(armed := swept.armed)
    requires ArmedHere(w, st, done).waits == []
    requires Disarmed(w, st.armed + [ArmedHere(w, st, done)], swept.armed, done)
    ensures Inv(w, Next(swept), done)
  {
    hide OneProducer, Recorded, ArmedOk, Agrees, Reach, Waiting, Disarmed, InOrder, ArmedHere, Ready, Indexed,
      Accounted;
    AgreesPast(w, st);
    NothingSentAhead(w, st);
    var a := ArmedHere(w, st, done);
    var st' := Next(swept);
    LeftWereArmed(w, st, swept, done);
    LeftIndexed(w, st, swept);
    SweptAccounted(w, st, swept, done);
    AgreesPastRace(w, st, st');
    hide Armable;
    LeftArmedOk(w, st, swept, st', done);
    ProducersFrame(st, st');
    RecordedFrame(w, st, st');
  }

  /** What a sweep leaves armed was armed before: the rule just armed is ready. */
  lemma LeftWereArmed(w: World, st: Walk, swept: Walk, done: set<nat>)
    requires st.ruleIndex < |w.rules| && ArmedHere(w, st, done).waits == []
    requires Disarmed(w, st.armed + [ArmedHere(w, st, done)], swept.armed, done)
    ensures forall j | 0 <= j < |swept.armed| :: swept.armed[j] in st.armed
  {
    var a := ArmedHere(w, st, done);
    hide ArmedHere;
    forall j | 0 <= j < |swept.armed|
      ensures swept.armed[j] in st.armed
    {
      assert swept.armed[j] in st.armed + [a];
    }
  }

  lemma LeftIndexed(w: World, st: Walk, swept: Walk)
    requires Agrees(w, st) && swept == st.(armed := swept.armed)
    requires forall j | 0 <= j < |swept.armed| :: swept.armed[j] in st.armed
    ensures Indexed(Next(swept))
  {
  }

  lemma ArmKeeps(w: World, st: Walk, done: set<nat>)
    requires Walkable(w.rules) && Inv(w, st, done)
    requires st.ruleIndex < |w.rules| && Armable(w.rules[st.ruleIndex]) && CleanRead(w, st, done)
    requires Ranged(w, st)
    ensures Sound(w, st, Arm(w, st, done).0, Arm(w, st, done).1, done)
  {
    var a := ArmedHere(w, st, done);
    hide Inv, Walkable, ArmedHere, Armable, Sweepable, Disarmed;
    if a.waits != [] {
      ArmWaiting(w, st, done);
    } else {
      ArmSweep(w, st, done);
    }
  }

  lemma ArmSweep(w: World, st: Walk, done: set<nat>)
    requires Walkable(w.rules) && Inv(w, st, done)
    requires st.ruleIndex < |w.rules| && Armable(w.rules[st.ruleIndex])
    requires SeesRight(w, st, st.ruleIndex, done) && SweepReads(w, st, done)
    requires Ranged(w, st) && ArmedHere(w, st, done).waits == []
    ensures Sound(w, st, Arm(w, st, done).0, Arm(w, st, done).1, done)
  {
    hide Inv, Walkable, Armable, Disarmed, Recorded, ArmedOk, Allowed, Sweep, Arm, SeesRight, SweepReads, ArmedHere,
      Tried, Awaited, Returned, SentInOrder, Bounded, InOrder, Sound;
    var st' := st.(armed := st.armed + [ArmedHere(w, st, done)]);
    ArmedSweepable(w, st, done);
    ArmedUpTo(w, st, done);
    SweepCommitsFirst(w, st', done, 0);
    var (swept, commit) := Sweep(w, st', done, 0);
    if commit.None? {
      ArmSweptKeeps(w, st, swept, done);
      ArmMisses(w, st, swept, done);
    } else {
      CommitIsAllowed(w, st, st'.armed, done, commit.value);
      ArmCommits(w, st, swept, commit.value, done);
    }
  }

  lemma ArmedUpTo(w: World, st: Walk, done: set<nat>)
    requires Inv(w, st, done) && st.ruleIndex < |w.rules| && Armable(w.rules[st.ruleIndex])
    ensures SentInOrder(st) && Bounded(st, done) && Awaited(w, st.ruleIndex) <= Returned(st, done)
    ensures var armed := st.armed + [ArmedHere(w, st, done)];
      && InOrder(armed)
      && Tried(w, armed, st.ruleIndex, Returned(st, done))
      && forall j | 0 <= j < |armed| :: armed[j].index <= st.ruleIndex && ArmedOk(w, st, armed[j], done)
  {
    var a := ArmedHere(w, st, done);
    assert a.index == st.ruleIndex;
    hide Awaited, Returned, SentInOrder, Bounded, Agrees, OneProducer, Recorded, ArmedOk, Waiting, Tried, TerminalOk,
      ArmedHere, Armable;
    ArmedHereOk(w, st, done);
    AppendedAccounted(w, st, a, done);
    TriedBelow(w, st.armed + [a], st.ruleIndex, Returned(st, done));
  }

  lemma TriedBelow(w: World, armed: seq<Armed>, n: nat, back: set<Query>)
    requires Tried(w, armed, n + 1, back)
    ensures Tried(w, armed, n, back)
  {
    hide TriedAt;
  }

  lemma ArmMisses(w: World, st: Walk, swept: Walk, done: set<nat>)
    requires Ranged(w, st) && st.ruleIndex < |w.rules| && ArmedHere(w, st, done).waits == []
    requires Ranged(w, st.(armed := st.armed + [ArmedHere(w, st, done)]))
    requires Sweep(w, st.(armed := st.armed + [ArmedHere(w, st, done)]), done, 0) == (swept, None)
    requires Inv(w, Next(swept), done)
    ensures Sound(w, st, Arm(w, st, done).0, Arm(w, st, done).1, done)
  {
    hide Inv;
  }

  lemma ArmCommits(w: World, st: Walk, swept: Walk, d: Decision, done: set<nat>)
    requires Ranged(w, st) && st.ruleIndex < |w.rules| && ArmedHere(w, st, done).waits == []
    requires Ranged(w, st.(armed := st.armed + [ArmedHere(w, st, done)]))
    requires Sweep(w, st.(armed := st.armed + [ArmedHere(w, st, done)]), done, 0) == (swept, Some(d))
    requires Allowed(w, d) && Bounded(st, done)
    ensures Sound(w, st, Arm(w, st, done).0, Arm(w, st, done).1, done)
  {
    hide Inv, Allowed;
  }

  /**
   * If the rule is tried, the answers that have come back since the futures were settled make no
   * difference to it, nor, if it makes the walk sweep, to the armed rules that are ready.
   */
  ghost predicate CleanRead(w: World, st: Walk, done: set<nat>) {
    st.ruleIndex < |w.rules| && Waits(w.rules[st.ruleIndex], st, done) == [] ==>
      && SeesRight(w, st, st.ruleIndex, done)
      && (Armable(w.rules[st.ruleIndex]) ==> SweepReads(w, st, done))
  }

  /** Every rule of the walk that reads right is sound, whatever has come back by then. */
  lemma ReadRuleSound(w: World, st: Walk, done: set<nat>)
    requires Walkable(w.rules) && Inv(w, st, done) && CleanRead(w, st, done)
    ensures Ranged(w, st) && Sound(w, st, ReadRule(w, st, done).0, ReadRule(w, st, done).1, done)
  {
    if st.ruleIndex == |w.rules| {
      if st.armed == [] {
        DefaultDecides(w, Returned(st, done));
      }
    } else if Armable(w.rules[st.ruleIndex]) {
      ArmKeeps(w, st, done);
    } else {
      TrySound(w, st, done);
    }
  }

  lemma SettleForInv(w: World, st: Walk, early: set<nat>, done: set<nat>)
    requires Inv(w, st, done) && st.settled <= early <= done
    ensures Inv(w, SettleFor(w, st, early), done)
  {
    hide Inv;
    if st.ruleIndex < |w.rules| && HasBindings(w.rules[st.ruleIndex]) {
      SettleInv(w, st, early, done);
    }
  }

  lemma TrySound(w: World, st: Walk, done: set<nat>)
    requires Walkable(w.rules) && Inv(w, st, done) && st.ruleIndex < |w.rules| && !Armable(w.rules[st.ruleIndex])
    requires Waits(w.rules[st.ruleIndex], st, done) == [] ==> SeesRight(w, st, st.ruleIndex, done)
    ensures Sound(w, st, Try(w, st, done).0, Try(w, st, done).1, done)
  {
    var rule := w.rules[st.ruleIndex];
    var waits := Waits(rule, st, done);
    hide OneProducer, Recorded, ArmedOk, Waiting, Tried, InOrder, TerminalOk, Armable, Act, Walkable, SeesRight,
      Accounted, Returned, Bound;
    if waits != [] {
      PendingTagsCover(Tags(rule), st, done);
      assert waits[0] !in done && waits[0] < |st.futures|;
    } else {
      PlainRuleMatches(w, st, done);
      if !Matches(rule, st.namedResponses, AnonymousView(w, st, done)) {
        MissPasses(w, st, done);
      } else {
        hide Inv;
        match rule.action
        case SetOptions(_) => ActOnOptions(w, st, done);
        case Evaluate(_, _, _, _) => ActOnEvaluate(w, st, done);
        case Route(_, _, _) => ActOnRoute(w, st, done);
        case Respond => ActOnRespond(w, st, done);
        case _ => ActOnFixed(w, st, done);
      }
    }
  }

  lemma MissPasses(w: World, st: Walk, done: set<nat>)
    requires Inv(w, st, done) && st.ruleIndex < |w.rules| && !Armable(w.rules[st.ruleIndex])
    requires !MatchesAt(w, st.ruleIndex, Reach(w, st.ruleIndex)) && Bound(w, st.ruleIndex) <= Returned(st, done)
    ensures Inv(w, Next(st), done)
  {
    hide OneProducer, Recorded, ArmedOk, Waiting, Accounted, Bound, Returned, InOrder, TerminalOk, MatchesAt, Armable;
    assert Agrees(w, Next(st));
    hide Inv, Agrees;
    MoveKeeps(w, st, Next(st), done);
  }

  /** A rule that waits for nothing has all it binds. */
  lemma PlainRuleIsBound(w: World, st: Walk, done: set<nat>)
    requires Agrees(w, st) && st.ruleIndex < |w.rules| && Waits(w.rules[st.ruleIndex], st, done) == []
    ensures BoundAs(w, st, st.ruleIndex, Reach(w, st.ruleIndex), st.anonymous, [], done)
    ensures Bound(w, st.ruleIndex) <= Returned(st, done)
  {
    var rule := w.rules[st.ruleIndex];
    var s := Reach(w, st.ruleIndex);
    hide Reach;
    PendingTagsCover(Tags(rule), st, done);
    forall t | t in Tags(rule) ensures BoundTag(st, s, t, [], done) { }
    hide Bound, Returned, Agrees;
    BoundIsBack(w, st, st.ruleIndex, st.anonymous, done);
  }

  /** It matches in the walk exactly when it matches sequentially, if it sees right. */
  lemma PlainRuleMatches(w: World, st: Walk, done: set<nat>)
    requires Walkable(w.rules) && Inv(w, st, done) && st.ruleIndex < |w.rules|
    requires SeesRight(w, st, st.ruleIndex, done)
    requires Waits(w.rules[st.ruleIndex], st, done) == []
    ensures Matches(w.rules[st.ruleIndex], st.namedResponses, AnonymousView(w, st, done)) ==
      MatchesAt(w, st.ruleIndex, Reach(w, st.ruleIndex))
    ensures BoundAs(w, st, st.ruleIndex, Reach(w, st.ruleIndex), st.anonymous, [], done)
    ensures Bound(w, st.ruleIndex) <= Returned(st, done)
  {
    hide SeesRight, Bound, Returned, Accounted;
    PlainRuleIsBound(w, st, done);
    hide Walkable, Recorded, OneProducer, ArmedOk;
    MatchAgrees(w, st, st.ruleIndex, st.anonymous, AnonymousView(w, st, done), done);
  }
}
