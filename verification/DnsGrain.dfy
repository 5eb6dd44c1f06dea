/**
 * What goes wrong when a query comes back between a settling and the read behind it, and exactly
 * when: the tag reads as missing although its query is ready.
 */
module DnsGrain {
  import opened Options
  import opened Counting
  import opened DnsRules
  import opened DnsMode
  import opened DnsSequential
  import opened DnsWalk
  import opened DnsWalkInvariant
  import opened DnsWalkSteps
  import opened DnsWalkShape
  import opened DnsExchange
  import opened DnsRuns

  // ---- What a read sees ----

  /**
   * At every step of every run, a tag whose query has come back reads as it should exactly when the
   * query was there to be settled or has failed: an answer that came in since reads as none.
   */
  lemma WindowRead(w: World, cs: seq<Config>, es: seq<Event>, i: nat, t: string)
    requires Walkable(w.rules) && IsRun(w, cs, es) && i < |cs| && (cs[i].phase.Reading? || cs[i].phase.Sweeping?)
    requires t in cs[i].st.namedFutures && cs[i].st.namedFutures[t] in cs[i].done
    ensures var st := cs[i].st;
      && st.namedFutures[t] < |st.futures|
      && (Get(st.namedResponses, t) == ViewOf(w, st.futures[st.namedFutures[t]].query) <==>
           ReadsRight(w, st, t, cs[i].done))
  {
    RecordsAreViews(w, cs, es, i);
    assert RecordedTag(w, cs[i].st, t);
  }

  /**
   * A rule that waits for nothing is matched against exactly that: with every answer that came back
   * inside the window taken for a missing response.
   */
  lemma MatchedOnWhatIsSeen(w: World, st: Walk, done: set<nat>)
    requires Walkable(w.rules) && Inv(w, st, done) && st.ruleIndex < |w.rules|
    requires Waits(w.rules[st.ruleIndex], st, done) == []
    ensures var s := Reach(w, st.ruleIndex);
      Matches(w.rules[st.ruleIndex], st.namedResponses, AnonymousView(w, st, done))
      == Matches(w.rules[st.ruleIndex], SeenViews(w, st, s, done), OptionalView(w, s.anonymous))
  {
    var s := Reach(w, st.ruleIndex);
    hide Accounted, Reach;
    PlainRuleIsBound(w, st, done);
    RecordsAreSeen(w, st, st.ruleIndex, s, st.anonymous, done);
    MatchFrame(w.rules[st.ruleIndex], st.namedResponses, AnonymousView(w, st, done),
      SeenViews(w, st, s, done), OptionalView(w, s.anonymous));
  }

  /** The rule binds the response of one tag and nothing else. */
  predicate BindsTag(rule: Rule, t: string) {
    rule.DefaultRule? && rule.conditions.matchResponse == On(t) && t != ""
  }

  /** The condition says the same of the tag's answer as of no response. */
  ghost predicate SameEitherWay(w: World, rule: Rule, s: Progress, t: string)
    requires rule.DefaultRule? && s.Running?
  {
    && t in s.named && ViewOf(w, s.named[t]).Some?
    && rule.conditions.onResponse(ViewOf(w, s.named[t]).value) == rule.conditions.invert
  }

  /**
   * For a rule on one tag the converse: its match is the sequential one if and only if the tag reads
   * right, or the condition says the same of the answer as of no response; and the read is clean if
   * and only if besides the rule does not answer with what it missed.
   */
  lemma MatchIsRightIff(w: World, st: Walk, done: set<nat>, t: string)
    requires Walkable(w.rules) && Inv(w, st, done) && st.ruleIndex < |w.rules| && BindsTag(w.rules[st.ruleIndex], t)
    requires Waits(w.rules[st.ruleIndex], st, done) == []
    ensures var rule, s := w.rules[st.ruleIndex], Reach(w, st.ruleIndex);
      && (Matches(rule, st.namedResponses, AnonymousView(w, st, done)) == MatchesAt(w, st.ruleIndex, s)
          <==> ReadsRight(w, st, t, done) || SameEitherWay(w, rule, s, t))
      && var answers := rule.action.Respond? && MatchesAt(w, st.ruleIndex, s);
      (SeesRight(w, st, st.ruleIndex, done)
       <==> ReadsRight(w, st, t, done) || (SameEitherWay(w, rule, s, t) && !answers))
  {
    var rule, s := w.rules[st.ruleIndex], Reach(w, st.ruleIndex);
    MatchedOnWhatIsSeen(w, st, done);
    assert Tags(rule) == [t];
    OneTagMatches(rule, t, SeenViews(w, st, s, done), OptionalView(w, s.anonymous));
    OneTagMatches(rule, t, NamedViews(w, s.named), OptionalView(w, s.anonymous));
    UnnamedReadsRight(w, st, done, t);
    hide Inv, Reach, Tags, Matches, Waits, AnonymousView, Walkable;
  }

  lemma UnnamedReadsRight(w: World, st: Walk, done: set<nat>, t: string)
    requires Inv(w, st, done)
    ensures t !in Reach(w, st.ruleIndex).named ==> ReadsRight(w, st, t, done)
  {
    hide Accounted, ArmedOk, Recorded, OneProducer, TerminalOk, Waiting, InOrder, Reach;
  }

  lemma OneTagMatches(rule: Rule, t: string, named: map<string, Option<Response>>, anonymous: Option<Response>)
    requires BindsTag(rule, t)
    ensures Matches(rule, named, anonymous) ==
      if Get(named, t).None? then rule.conditions.invert else rule.conditions.onResponse(Get(named, t).value)
  {
  }

  /** The same for an armed rule on one tag that a sweep tries. */
  lemma ArmedMatchIsRightIff(w: World, st: Walk, a: Armed, done: set<nat>, t: string, anonymous: Option<Response>)
    requires Recorded(w, st) && ArmedOk(w, st, a, done) && Ready(a, done) && BindsTag(w.rules[a.index], t)
    ensures var rule, s := w.rules[a.index], Reach(w, a.index);
      Matches(rule, st.namedResponses, anonymous) == MatchesAt(w, a.index, s)
      <==> ReadsRight(w, st, t, done) || SameEitherWay(w, rule, s, t)
  {
    var s := Reach(w, a.index);
    assert Tags(w.rules[a.index]) == [t];
    assert BoundTag(st, s, t, a.waits, done) && RecordedTag(w, st, t);
    assert t !in s.named ==> ReadsRight(w, st, t, done);
  }

  // ---- An answer lost ----

  /** An evaluate action and a respond action that answers with whatever it brought. */
  function EvaluateThenRespond(r: Response): World {
    var always := Conditions(Off, false, true, _ => true, false, false, false, false, false, false, [], false, false);
    var server := Transport("x", false);
    World(
      [ DefaultRule(always, false, Evaluate("x", "x", false, PLAIN_OPTIONS)),
        DefaultRule(always.(matchResponse := On("x")), false, Respond) ],
      map["x" := server],
      Transport("final", false),
      AsIs,
      true,
      QueryOptions(AsIs, false, false, None, 0, None, false),
      _ => Answer(r))
  }

  function Sent(r: Response): Query {
    var w := EvaluateThenRespond(r);
    Query(0, w.transports["x"], w.options)
  }

  /** The walk after the evaluate action. */
  function Launched(r: Response): Walk {
    var w := EvaluateThenRespond(r);
    Walk(1, w.options, None, map["x" := 0], map[], map[], [Future(Sent(r), "x", false)], {}, [], None, 0, Some(false))
  }

  lemma ExampleLaunches(r: Response)
    ensures var w := EvaluateThenRespond(r);
      && Ranged(w, Initial(w)) && SettleFor(w, Initial(w), {}) == Initial(w)
      && ReadRule(w, Initial(w), {}) == (Launched(r), Continue)
      && CleanRead(w, Initial(w), {})
  {
    var w := EvaluateThenRespond(r);
    assert Tags(w.rules[0]) == [] && !BindsAnonymous(w.rules[0]);
    assert Waits(w.rules[0], Initial(w), {}) == [];
    ExampleIsWalkable(r);
    ReadsSeesRight(w, Initial(w), 0, {});
    assert ApplyRouteOptions(w.options, PLAIN_OPTIONS) == w.options;
    assert EvaluateQuery(w, 0, w.rules[0].action, w.options) == Some(Sent(r));
    assert Act(w, Initial(w), {}).0.futures == [Future(Sent(r), "x", false)];
  }

  lemma ExampleIsWalkable(r: Response)
    ensures Walkable(EvaluateThenRespond(r).rules)
  {
    var w := EvaluateThenRespond(r);
    assert Tags(w.rules[0]) == [] && Tags(w.rules[1]) == ["x"];
    assert DefinesTag(w.rules[0], "x");
  }

  lemma ExampleReaches(r: Response)
    ensures var w := EvaluateThenRespond(r);
      Reach(w, 1) == Running(w.options, None, map["x" := Sent(r)])
  {
    var w := EvaluateThenRespond(r);
    assert Tags(w.rules[0]) == [];
    assert ApplyRouteOptions(w.options, PLAIN_OPTIONS) == w.options;
    assert EvaluateQuery(w, 0, w.rules[0].action, w.options) == Some(Sent(r));
    var s0 := Reach(w, 0);
    assert s0 == Running(w.options, None, map[]) && MatchesAt(w, 0, s0) && Verdict(w, 0, s0).None?;
    assert Reach(w, 1) == Advance(w, 0, s0);
  }

  lemma ExampleSequential(r: Response)
    ensures var w := EvaluateThenRespond(r);
      && SequentialDecision(w) == Answered(r, Some(Transport("x", false)))
      && forall i: nat :: !Contends(w, i)
  {
    var w := EvaluateThenRespond(r);
    assert Tags(w.rules[0]) == [] && Tags(w.rules[1]) == ["x"];
    ExampleReaches(r);
    var s := Reach(w, 1);
    assert NamedViews(w, s.named)["x"] == Some(r);
    assert Verdict(w, 1, s) == Some(Answered(r, Some(Transport("x", false))));
    assert Reach(w, 2) == Stopped(Answered(r, Some(Transport("x", false))));
  }

  lemma ExampleRule(r: Response)
    ensures var w := EvaluateThenRespond(r);
      var st := Launched(r);
      && Ranged(w, st) && SettleFor(w, st, {}) == st
      && ReadRule(w, st, {0}) == (Next(st), Continue)
      && !CleanRead(w, st, {0})
  {
    var w := EvaluateThenRespond(r);
    var st := Launched(r);
    assert Tags(w.rules[1]) == ["x"] && !BindsAnonymous(w.rules[1]);
    assert PendingTags(["x"][1..], st, {0}) == [];
    assert Waits(w.rules[1], st, {0}) == [];
    assert SettleUpTo(w, st, 1, {}) == SettleOne(w, SettleUpTo(w, st, 0, {}), 0, {}) == st;
    ExampleReaches(r);
    assert !ReadsRight(w, st, "x", {0});
    assert SeenViews(w, st, Reach(w, 1), {0})["x"].None?;
    assert NamedViews(w, Reach(w, 1).named)["x"] == Some(r);
  }

  lemma ExampleEnd(r: Response)
    ensures var w := EvaluateThenRespond(r);
      var st := Next(Launched(r));
      && Ranged(w, st) && SettleFor(w, st, {0}) == st
      && ReadRule(w, st, {0}) == (st, Suspend(Pending(PendingExchange(DefaultQuery(w, w.options), None))))
      && CleanRead(w, st, {0})
  {
  }

  // ---- The run that loses it ----

  /** An asynchronous exchange on its way through the list; `back` says whether the query has come back. */
  function At(st: Walk, phase: Phase, back: bool): Config {
    Config(st, if back then {0} else {}, {}, false, phase, true, {})
  }

  ghost function LosingRun(r: Response): seq<Config> {
    var w := EvaluateThenRespond(r);
    var st := Launched(r);
    var end := PendingExchange(DefaultQuery(w, w.options), None);
    [ At(Initial(w), Walking, false),
      At(Initial(w), Reading, false),
      At(st, Walking, false),
      At(st, Reading, false),
      At(st, Reading, true),
      At(Next(st), Walking, true),
      At(Next(st), Reading, true),
      Finish(At(Next(st), Reading, true), Next(st), end),
      Conclude(Finish(At(Next(st), Reading, true), Next(st), end), Next(st), Forwarded(end.query)) ]
  }

  const LOSING_EVENTS: seq<Event> := [Machine, Machine, Machine, Complete(0), Machine, Machine, Machine, Machine]

  lemma SettleStep(w: World, st: Walk, back: bool)
    requires SettleFor(w, st, if back then {0} else {}) == st
    ensures Follows(w, At(st, Walking, back), Machine, At(st, Reading, back))
  {
    hide SettleFor;
  }

  lemma ReadStep(w: World, st: Walk, st': Walk, back: bool)
    requires Ranged(w, st) && st.ruleIndex <= |w.rules|
    requires ReadRule(w, st, if back then {0} else {}) == (st', Continue)
    ensures Follows(w, At(st, Reading, back), Machine, At(st', Walking, back))
  {
    ReadingStep(w, At(st, Reading, back));
    hide ReadRule, Ranged, MachineStep;
  }

  lemma BackStep(w: World, st: Walk)
    requires |st.futures| > 0 && Ranged(w, st) && st.ruleIndex <= |w.rules|
    ensures Follows(w, At(st, Reading, false), Complete(0), At(st, Reading, true))
  {
    hide Ranged, MachineStep;
  }

  lemma EndSteps(w: World, st: Walk, p: PendingExchange)
    requires Ranged(w, st) && st.ruleIndex <= |w.rules| && p.future.None?
    requires ReadRule(w, st, {0}) == (st, Suspend(Pending(p)))
    ensures var c := Finish(At(st, Reading, true), st, p);
      Follows(w, At(st, Reading, true), Machine, c) && Follows(w, c, Machine, Conclude(c, st, Forwarded(p.query)))
  {
    ReadingStep(w, At(st, Reading, true));
    var c := Finish(At(st, Reading, true), st, p);
    hide ReadRule, Ranged, AllFutures;
    assert MachineStep(w, c) == Conclude(c, st, Forwarded(p.query));
    hide MachineStep;
  }

  lemma ExampleIndices(r: Response)
    ensures var w, st := EvaluateThenRespond(r), Launched(r);
      && |w.rules| == 2 && Initial(w).ruleIndex == 0 && st.ruleIndex == 1 && |st.futures| == 1
      && Start(w, true) == At(Initial(w), Walking, false)
  {
  }

  lemma LosingRunFollows(r: Response)
    ensures IsRun(EvaluateThenRespond(r), LosingRun(r), LOSING_EVENTS)
  {
    hide SettleFor, ReadRule, Ranged, EvaluateThenRespond, Initial, Launched, CleanRead, DefaultQuery, Follows, Finish,
      Conclude, At, Start;
    var w, st := EvaluateThenRespond(r), Launched(r);
    ExampleLaunches(r);
    ExampleRule(r);
    ExampleEnd(r);
    ExampleIndices(r);
    SettleStep(w, Initial(w), false);
    ReadStep(w, Initial(w), st, false);
    SettleStep(w, st, false);
    BackStep(w, st);
    ReadStep(w, st, Next(st), true);
    SettleStep(w, Next(st), true);
    EndSteps(w, Next(st), PendingExchange(DefaultQuery(w, w.options), None));
  }

  /**
   * A run of the exchange in which the query comes back right after the settling of the respond
   * rule: the rule is passed over, although it matches, and the exchange goes to the default server,
   * which is no allowed decision. That one read is the only one that is not clean.
   */
  lemma AnswerIsLostInTheWindow(r: Response)
    ensures var w := EvaluateThenRespond(r);
      var lost := DefaultQuery(w, w.options);
      && Walkable(w.rules) && IsRun(w, LosingRun(r), LOSING_EVENTS)
      && LosingRun(r)[8].phase == Decided(Forwarded(lost)) && !Allowed(w, Forwarded(lost))
      && forall i | 0 <= i < 8 :: Clean(w, LosingRun(r)[i], LOSING_EVENTS[i]) <==> i != 4
  {
    LosingRunFollows(r);
    ExampleIsWalkable(r);
    ExampleSequential(r);
    ExampleLaunches(r);
    ExampleRule(r);
    ExampleEnd(r);
    hide Walkable, SequentialDecision, Contends, IsRun, CleanRead, ReadRule, SettleFor, Ranged, AllFutures;
    var w, cs := EvaluateThenRespond(r), LosingRun(r);
    assert Clean(w, cs[0], Machine) && Clean(w, cs[1], Machine) && Clean(w, cs[2], Machine);
    assert Clean(w, cs[3], Complete(0));
    assert !Clean(w, cs[4], Machine);
    assert Clean(w, cs[5], Machine) && Clean(w, cs[6], Machine) && Clean(w, cs[7], Machine);
  }
}
