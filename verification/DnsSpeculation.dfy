/**
 * What sending early means for an exchange: marking routes speculative changes no decision and no
 * query, marking evaluates speculative lets race rules decide that a plain list would hold back.
 */
module DnsSpeculation {
  import opened Options
  import opened DnsRules
  import opened DnsMode
  import opened DnsSequential
  import opened DnsWalk
  import opened DnsWalkInvariant
  import opened DnsWalkShape
  import opened DnsExchange
  import opened DnsRuns
  import opened DnsOutcomes

  // ---- Routes ----

  /** The runs of an exchange take the same decisions whether or not routes are marked speculative. */
  lemma RoutesMayGoAhead(w: World, asynchronous: bool, d: Decision)
    requires Walkable(w.rules)
    ensures Takes(w, asynchronous, d) <==> Takes(UnspeculativeWorld(w, true), asynchronous, d)
  {
    hide Walkable, Takes, Allowed, UnspeculativeWorld;
    UnspeculativeIsWalkable(w, true);
    ExactlyAllowed(w, asynchronous, d);
    ExactlyAllowed(UnspeculativeWorld(w, true), asynchronous, d);
    SpeculationKeepsAllowed(w, true, d);
  }

  /**
   * In every run, clean or not: when a rule that is not a race rule takes a final exchange, sent
   * ahead or not, the query is the one the rule takes in the unmarked list with nothing sent ahead.
   */
  lemma SentAheadAsUnmarked(w: World, cs: seq<Config>, es: seq<Event>, i: nat, p: PendingExchange)
    requires Walkable(w.rules) && IsRun(w, cs, es) && i < |cs| && cs[i].phase.Reading?
    requires cs[i].st.ruleIndex < |w.rules| ==> !Armable(w.rules[cs[i].st.ruleIndex])
    requires Ranged(w, cs[i].st) && cs[i].st.ruleIndex <= |w.rules|
    requires ReadRule(w, cs[i].st, cs[i].done).1 == Suspend(Pending(p))
    ensures var w', st' := UnspeculativeWorld(w, true), cs[i].st.(terminal := None);
      && Ranged(w', st')
      && ReadRule(w', st', cs[i].done) == (st', Suspend(Pending(PendingExchange(p.query, None))))
  {
    RunKeepsShape(w, cs, es, i);
    var st := cs[i].st;
    assert SentAhead(w, st);
    if st.ruleIndex < |w.rules| {
      TakesTheRoute(w, st, cs[i].done, p);
    }
    hide Shape, RouteQuery, UnspeculativeWorld, CancelledRight, SentAhead, Try;
  }

  /** Only a route takes a final exchange; sent ahead or not, it takes its own query. */
  lemma TakesTheRoute(w: World, st: Walk, done: set<nat>, p: PendingExchange)
    requires Ranged(w, st) && SentAhead(w, st) && st.ruleIndex < |w.rules| && !Armable(w.rules[st.ruleIndex])
    requires Try(w, st, done).1 == Suspend(Pending(p))
    ensures var w', st' := UnspeculativeWorld(w, true), st.(terminal := None);
      && !Armable(w'.rules[st.ruleIndex])
      && Try(w', st', done) == (st', Suspend(Pending(PendingExchange(p.query, None))))
  {
    hide Matches, Waits, Tags, BindsAnonymous, AnonymousView, UnspeculativeWorld, RouteQuery, EvaluateQuery, Indexed,
      ApplyRouteOptions;
    var rule := w.rules[st.ruleIndex];
    SameTry(w, st, done);
    OnlyRoutesPend(w, st, done, p);
    SpeculationKeepsRoute(w, true, st.ruleIndex, rule.action, st.options);
  }

  /** A rule of the unmarked list waits for the same and matches the same. */
  lemma SameTry(w: World, st: Walk, done: set<nat>)
    requires Ranged(w, st) && st.ruleIndex < |w.rules|
    ensures var w', st', i := UnspeculativeWorld(w, true), st.(terminal := None), st.ruleIndex;
      && Ranged(w', st')
      && HasBindings(w'.rules[i]) == HasBindings(w.rules[i]) && Armable(w'.rules[i]) == Armable(w.rules[i])
      && Waits(w'.rules[i], st', done) == Waits(w.rules[i], st, done)
      && Matches(w'.rules[i], st'.namedResponses, AnonymousView(w', st', done))
         == Matches(w.rules[i], st.namedResponses, AnonymousView(w, st, done))
  {
    var w', st' := UnspeculativeWorld(w, true), st.(terminal := None);
    var rule := w.rules[st.ruleIndex];
    UnspeculativeBinds(rule, true, st.namedResponses, AnonymousView(w, st, done));
    SameWaits(rule, UnspeculativeRule(rule, true), st, done);
    assert AnonymousView(w', st', done) == AnonymousView(w, st, done);
    hide Matches, Waits, Tags, BindsAnonymous, AnonymousView, UnspeculativeWorld;
  }

  /** It is the action of a matched route, with nothing armed. */
  lemma OnlyRoutesPend(w: World, st: Walk, done: set<nat>, p: PendingExchange)
    requires Ranged(w, st) && SentAhead(w, st) && st.ruleIndex < |w.rules|
    requires Try(w, st, done).1 == Suspend(Pending(p))
    ensures Waits(w.rules[st.ruleIndex], st, done) == [] && st.armed == []
    ensures Matches(w.rules[st.ruleIndex], st.namedResponses, AnonymousView(w, st, done))
    ensures w.rules[st.ruleIndex].action.Route?
      && RouteQuery(w, st.ruleIndex, w.rules[st.ruleIndex].action, st.options) == Some(p.query)
  {
    hide Matches, Waits, HasBindings, AnonymousView, RouteQuery, EvaluateQuery, ApplyRouteOptions, ResponseTag;
  }

  lemma SameWaits(rule: Rule, rule': Rule, st: Walk, done: set<nat>)
    requires Tags(rule') == Tags(rule) && BindsAnonymous(rule') == BindsAnonymous(rule)
    ensures Waits(rule', st.(terminal := None), done) == Waits(rule, st, done)
  {
    SamePending(Tags(rule), st, st.(terminal := None), done);
    hide Tags, BindsAnonymous;
  }

  lemma {:induction false} SamePending(tags: seq<string>, st: Walk, st': Walk, done: set<nat>)
    requires st'.namedFutures == st.namedFutures
    ensures PendingTags(tags, st', done) == PendingTags(tags, st, done)
  {
    if tags != [] {
      SamePending(tags[1..], st, st', done);
    }
  }

  // ---- Evaluates ----

  /**
   * A race rule that commits before an evaluate that is not sent early is tried before it: no run
   * decides by a race rule behind that evaluate, nor sequentially.
   */
  lemma BarrierShutsOut(w: World, asynchronous: bool, j: nat, b: nat, d: Decision)
    requires Walkable(w.rules) && Contends(w, j) && RaceVerdict(w, j).Some? && Barrier(w, b) && j < b
    requires Takes(w, asynchronous, d)
    ensures exists i: nat :: i < b && MayCommit(w, i, d)
  {
    hide Takes, Walkable, Contends, RaceVerdict, Barrier, SequentialDecision, MayCommit;
    ExactlyAllowed(w, asynchronous, d);
    var i: nat :| MayCommit(w, i, d);
    if i >= b {
      NoCommitBehind(w, j, b, i, d);
    }
  }

  /** What the race rule binds has come back when the evaluate is sent, and so when a later rule is tried. */
  lemma NoCommitBehind(w: World, j: nat, b: nat, i: nat, d: Decision)
    requires Contends(w, j) && RaceVerdict(w, j).Some? && Barrier(w, b) && j < b <= i
    ensures !MayCommit(w, i, d)
  {
    hide Bound, RaceVerdict, RaceBound, Barrier, Contends, Armable, Awaited;
    BarrierIsPlain(w, b);
    if i > b {
      RaceBoundHas(w, b, j);
      AwaitedThere(w, b);
      AwaitedGrows(w, b + 1, i);
      assert Bound(w, j) <= Needed(w, i);
    }
  }

  lemma BarrierIsPlain(w: World, b: nat)
    requires Barrier(w, b)
    ensures b < |w.rules| && !Armable(w.rules[b]) && !Contends(w, b)
  {
    hide MatchesAt, EvaluateQuery, Reach;
  }

  /** In the list without marks an earlier race rule that commits has all it binds when rule i is tried. */
  ghost predicate HeldBack(w: World, i: nat) {
    exists j: nat ::
      j < i && Contends(w, j) && RaceVerdict(w, j).Some? && Bound(w, j) <= Needed(UnspeculativeWorld(w, false), i)
  }

  /** A race rule may take the decision, and every race rule that takes it is held back. */
  ghost predicate OnlyHeldBack(w: World, d: Decision) {
    && (exists i: nat :: MayCommit(w, i, d))
    && (forall i: nat | Contends(w, i) && RaceVerdict(w, i) == Some(d) :: HeldBack(w, i))
  }

  /** What a race rule may do in the list without marks. */
  lemma UnmarkedCommit(w: World, i: nat, d: Decision)
    ensures MayCommit(UnspeculativeWorld(w, false), i, d)
        <==> Contends(w, i) && RaceVerdict(w, i) == Some(d) && !HeldBack(w, i)
  {
    var w' := UnspeculativeWorld(w, false);
    hide Contends, RaceVerdict, Bound, Needed, UnspeculativeWorld;
    forall j: nat
      ensures Contends(w', j) == Contends(w, j) && Bound(w', j) == Bound(w, j)
      ensures Contends(w, j) ==> RaceVerdict(w', j) == RaceVerdict(w, j)
    {
      SpeculationKeepsRace(w, false, j);
      SpeculationKeepsBound(w, false, j);
    }
  }

  /**
   * Marking evaluates speculative takes no decision away, and adds decision d exactly when a race
   * rule may take it and every race rule that takes it is held back in the list without marks.
   */
  lemma EvaluatesAheadAdd(w: World, asynchronous: bool, d: Decision)
    requires Walkable(w.rules)
    ensures Takes(UnspeculativeWorld(w, false), asynchronous, d) ==> Takes(w, asynchronous, d)
    ensures Takes(w, asynchronous, d) && !Takes(UnspeculativeWorld(w, false), asynchronous, d)
      <==> OnlyHeldBack(w, d)
  {
    var w' := UnspeculativeWorld(w, false);
    UnspeculativeIsWalkable(w, false);
    ExactlyAllowed(w, asynchronous, d);
    ExactlyAllowed(w', asynchronous, d);
    SpeculationKeepsAllowed(w, false, d);
    AllowedUnmarked(w, d);
    hide Walkable, Takes, Allowed, UnspeculativeWorld, OnlyHeldBack;
  }

  lemma CommitIsVerdict(w: World, d: Decision)
    ensures forall i: nat | MayCommit(w, i, d) :: Contends(w, i) && RaceVerdict(w, i) == Some(d)
  {
    hide Contends, RaceVerdict, Bound, Needed;
  }

  lemma AllowedUnmarked(w: World, d: Decision)
    ensures Allowed(w, d) && !Allowed(UnspeculativeWorld(w, false), d)
      <==> OnlyHeldBack(w, d)
  {
    var w' := UnspeculativeWorld(w, false);
    hide Contends, RaceVerdict, HeldBack, MayCommit, UnspeculativeWorld, Reach;
    SpeculationKeepsReach(w, false, |w.rules|);
    assert SequentialDecision(w') == SequentialDecision(w);
    hide SequentialDecision;
    CommitIsVerdict(w, d);
    forall i: nat
      ensures Contends(w', i) == Contends(w, i) && (Contends(w, i) ==> RaceVerdict(w', i) == RaceVerdict(w, i))
      ensures MayCommit(w', i, d) <==> Contends(w, i) && RaceVerdict(w, i) == Some(d) && !HeldBack(w, i)
    {
      SpeculationKeepsRace(w, false, i);
      UnmarkedCommit(w, i, d);
    }
  }

  // ---- A decision that is only taken because an evaluate is sent early ----

  const X := Transport("x", false)

  const Y := Transport("y", false)

  /** Two evaluates, each with a race rule that answers with what it brought; the second may go early. */
  function TwoRaces(speculative: bool, x: Response, y: Response): World {
    var always := Conditions(Off, false, true, _ => true, false, false, false, false, false, false, [], false, false);
    World(
      [ DefaultRule(always, false, Evaluate("x", "x", false, PLAIN_OPTIONS)),
        DefaultRule(always.(matchResponse := On("x")), true, Respond),
        DefaultRule(always, false, Evaluate("y", "y", speculative, PLAIN_OPTIONS)),
        DefaultRule(always.(matchResponse := On("y")), true, Respond) ],
      map["x" := X, "y" := Y],
      Transport("final", false),
      AsIs,
      true,
      QueryOptions(AsIs, false, false, None, 0, None, false),
      (q: Query) => if q.transport == X then Answer(x) else Answer(y))
  }

  lemma TwoRacesBind(speculative: bool, x: Response, y: Response)
    ensures var rules := TwoRaces(speculative, x, y).rules;
      && Tags(rules[0]) == [] && Tags(rules[1]) == ["x"] && Tags(rules[2]) == [] && Tags(rules[3]) == ["y"]
      && (forall i | 0 <= i < 4 :: !BindsAnonymous(rules[i]) && WellBound(rules[i]))
      && (forall i | 0 <= i < 4 :: Armable(rules[i]) <==> i == 1 || i == 3)
  {
    var rules := TwoRaces(speculative, x, y).rules;
    forall i | 0 <= i < 4
      ensures !BindsAnonymous(rules[i]) && WellBound(rules[i]) && (Armable(rules[i]) <==> i == 1 || i == 3)
    {
      assert i == 0 || i == 1 || i == 2 || i == 3;
    }
  }

  lemma TwoRacesIsWalkable(speculative: bool, x: Response, y: Response)
    ensures Walkable(TwoRaces(speculative, x, y).rules)
  {
    TwoRacesBind(speculative, x, y);
    var rules := TwoRaces(speculative, x, y).rules;
    assert DefinesTag(rules[0], "x") && DefinesTag(rules[2], "y");
    assert |rules| == 4;
    assert !rules[1].action.Evaluate? && !rules[3].action.Evaluate?;
    assert rules[0].action.tag == "x" && rules[2].action.tag == "y";
    assert ResponseTag(rules[1]) == "x" && ResponseTag(rules[3]) == "y";
    hide Tags, WellBound, ResponseTag, TwoRaces;
  }

  function AskX(w: World): Query {
    Query(0, X, w.options)
  }

  function AskY(w: World): Query {
    Query(2, Y, w.options)
  }

  /** One evaluate rule of the list, reached with the options of the exchange. */
  lemma EvaluateSends(speculative: bool, x: Response, y: Response, i: nat, named: map<string, Query>)
    requires i == 0 || i == 2
    ensures var w := TwoRaces(speculative, x, y);
      var s := Running(w.options, None, named);
      && MatchesAt(w, i, s)
      && EvaluateQuery(w, i, w.rules[i].action, w.options) == Some(if i == 0 then AskX(w) else AskY(w))
      && Advance(w, i, s)
         == s.(named := if i == 0 then named["x" := AskX(w)] else named["y" := AskY(w)])
  {
    var w := TwoRaces(speculative, x, y);
    TwoRacesBind(speculative, x, y);
    assert ApplyRouteOptions(w.options, PLAIN_OPTIONS) == w.options;
    hide Armable, ApplyRouteOptions;
  }

  lemma TwoRacesReach(speculative: bool, x: Response, y: Response)
    ensures var w := TwoRaces(speculative, x, y);
      && Reach(w, 0) == Running(w.options, None, map[])
      && Reach(w, 1) == Reach(w, 2) == Running(w.options, None, map["x" := AskX(w)])
      && Reach(w, 3) == Running(w.options, None, map["x" := AskX(w), "y" := AskY(w)])
  {
    var w := TwoRaces(speculative, x, y);
    TwoRacesBind(speculative, x, y);
    EvaluateSends(speculative, x, y, 0, map[]);
    EvaluateSends(speculative, x, y, 2, map["x" := AskX(w)]);
    var s0 := Reach(w, 0);
    assert s0 == Running(w.options, None, map[]);
    var s1 := Reach(w, 1);
    assert s1 == Advance(w, 0, s0);
    assert s1 == Running(w.options, None, map["x" := AskX(w)]);
    var s2 := Reach(w, 2);
    assert s2 == Advance(w, 1, s1) == s1;
    var s3 := Reach(w, 3);
    assert s3 == Advance(w, 2, s2);
  }

  /** Each race rule binds its own query and answers with it. */
  lemma TwoRacesDecide(speculative: bool, x: Response, y: Response)
    ensures var w := TwoRaces(speculative, x, y);
      && (forall i: nat :: Contends(w, i) <==> i == 1 || i == 3)
      && RaceVerdict(w, 1) == Some(Answered(x, Some(X))) && RaceVerdict(w, 3) == Some(Answered(y, Some(Y)))
      && Bound(w, 0) == {} && Bound(w, 1) == {AskX(w)} && Bound(w, 2) == {} && Bound(w, 3) == {AskY(w)}
  {
    var w := TwoRaces(speculative, x, y);
    TwoRacesBind(speculative, x, y);
    TwoRacesReach(speculative, x, y);
    hide Reach, Armable;
    var s1, s3 := Reach(w, 1), Reach(w, 3);
    assert |w.rules| == 4;
    assert NamedViews(w, s1.named)["x"] == Some(x) && NamedViews(w, s3.named)["y"] == Some(y);
    assert MatchesAt(w, 1, s1) && MatchesAt(w, 3, s3);
    assert "x" in Tags(w.rules[1]) && "y" in Tags(w.rules[3]);
  }

  /** What has come back when the second race rule is tried: the first answer only if y was not sent early. */
  lemma TwoRacesAwait(speculative: bool, x: Response, y: Response)
    ensures var w := TwoRaces(speculative, x, y);
      Needed(w, 3) == if speculative then {AskY(w)} else {AskX(w), AskY(w)}
  {
    var w := TwoRaces(speculative, x, y);
    TwoRacesBind(speculative, x, y);
    TwoRacesReach(speculative, x, y);
    TwoRacesDecide(speculative, x, y);
    EvaluateSends(speculative, x, y, 0, map[]);
    EvaluateSends(speculative, x, y, 2, map["x" := AskX(w)]);
    hide Reach, Bound, Armable, Contends, RaceVerdict, EvaluateQuery, MatchesAt;
    assert RaceBound(w, 0) == {} && RaceBound(w, 1) == {} && RaceBound(w, 2) == {AskX(w)};
    assert Barrier(w, 2) <==> !speculative;
    assert !Barrier(w, 1);
    assert Awaited(w, 0) == {} && Awaited(w, 1) == {} && Awaited(w, 2) == {};
    assert Awaited(w, 3) == if speculative then {} else {AskX(w)};
  }

  /**
   * With the second evaluate marked speculative some clean run answers from y; no clean run of the
   * plain list does, because x is back and its race rule tried before y is asked.
   */
  lemma AnswerOnlyWhenAhead(asynchronous: bool, x: Response, y: Response)
    ensures var marked, plain := TwoRaces(true, x, y), TwoRaces(false, x, y);
      && Walkable(marked.rules) && Walkable(plain.rules) && plain == UnspeculativeWorld(marked, false)
      && Takes(marked, asynchronous, Answered(y, Some(Y)))
      && !Takes(plain, asynchronous, Answered(y, Some(Y)))
  {
    hide Walkable, Takes, Allowed, TwoRaces, UnspeculativeWorld;
    UnmarkedTwoRaces(x, y);
    TwoRacesIsWalkable(true, x, y);
    TwoRacesIsWalkable(false, x, y);
    TwoRacesAllow(true, x, y);
    TwoRacesAllow(false, x, y);
    ExactlyAllowed(TwoRaces(true, x, y), asynchronous, Answered(y, Some(Y)));
    ExactlyAllowed(TwoRaces(false, x, y), asynchronous, Answered(y, Some(Y)));
  }

  lemma UnmarkedTwoRaces(x: Response, y: Response)
    ensures TwoRaces(false, x, y) == UnspeculativeWorld(TwoRaces(true, x, y), false)
  {
    assert TwoRaces(false, x, y).rules == UnspeculativeWorld(TwoRaces(true, x, y), false).rules;
  }

  lemma TwoRacesAllow(speculative: bool, x: Response, y: Response)
    ensures Allowed(TwoRaces(speculative, x, y), Answered(y, Some(Y))) <==> speculative
  {
    var w := TwoRaces(speculative, x, y);
    var d := Answered(y, Some(Y));
    TwoRacesDecide(speculative, x, y);
    TwoRacesAwait(speculative, x, y);
    hide Contends, RaceVerdict, Bound, Needed, TwoRaces, SequentialDecision;
    assert AskX(w) != AskY(w);
    assert MayCommit(w, 3, d) <==> speculative;
    assert !MayCommit(w, 1, d);
  }
}
