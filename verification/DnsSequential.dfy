/**
 * The sequential reading of a DNS rule list: every evaluate action is run to its end before the
 * next rule, and race rules are looked at one by one. It is the reference the concurrent walk
 * is measured against.
 */
module DnsSequential {
  import opened Options
  import opened DnsRules
  import opened DnsMode

  /** A query, named by the rule that sends it (`|rules|` for the default server). */
  datatype Query = Query(rule: nat, transport: Transport, options: QueryOptions)

  datatype Outcome = Answer(response: Response) | Failure(error: string)

  /** One exchange: the rules, the servers, and what every query would come back with. */
  datatype World = World(
    rules: seq<Rule>,
    transports: map<string, Transport>,
    fallback: Transport,
    defaultStrategy: Strategy,
    allowFakeIP: bool,
    options: QueryOptions,
    outcome: Query -> Outcome)

  /** What an exchange ends with; Forwarded stands for the outcome of the query it names. */
  datatype Decision =
    | Answered(response: Response, transport: Option<Transport>)
    | Refused
    | Dropped
    | MissingResponse
    | Forwarded(query: Query)
    | ContextEnded

  function Finalize(w: World, o: QueryOptions): QueryOptions {
    if o.strategy == AsIs then o.(strategy := w.defaultStrategy) else o
  }

  /** The response of a query, or None when it failed. */
  function ViewOf(w: World, q: Query): Option<Response> {
    match w.outcome(q)
    case Answer(r) => Some(r)
    case Failure(_) => None
  }

  /** The query an evaluate action sends; None when its server does not exist. */
  function EvaluateQuery(w: World, i: nat, action: Action, options: QueryOptions): Option<Query>
    requires action.Evaluate?
  {
    if action.server in w.transports
    then Some(Query(i, w.transports[action.server], Finalize(w, ApplyRouteOptions(options, action.routeOptions))))
    else None
  }

  /** The query a route action sends; None when its server is missing or skipped. */
  function RouteQuery(w: World, i: nat, action: Action, options: QueryOptions): (q: Option<Query>)
    requires action.Route?
    ensures q.Some? ==> !q.value.transport.fakeIP || (w.allowFakeIP && q.value.options.disableCache)
  {
    if action.server !in w.transports then None
    else
      var transport := w.transports[action.server];
      if transport.fakeIP && !w.allowFakeIP then None
      else
        var o := ApplyRouteOptions(options, action.routeOptions);
        Some(Query(i, transport, Finalize(w, if transport.fakeIP then o.(disableCache := true) else o)))
  }

  /** The state the sequential reading has on reaching a rule, or the decision it stopped with. */
  datatype Progress =
    | Running(options: QueryOptions, anonymous: Option<Query>, named: map<string, Query>)
    | Stopped(decision: Decision)

  function NamedViews(w: World, named: map<string, Query>): map<string, Option<Response>> {
    map t | t in named :: ViewOf(w, named[t])
  }

  function OptionalView(w: World, q: Option<Query>): Option<Response> {
    if q.Some? then ViewOf(w, q.value) else None
  }

  function RespondWith(w: World, q: Option<Query>): Decision {
    if q.None? || ViewOf(w, q.value).None? then MissingResponse
    else Answered(ViewOf(w, q.value).value, Some(q.value.transport))
  }

  predicate MatchesAt(w: World, i: nat, s: Progress)
    requires i < |w.rules| && s.Running?
  {
    Matches(w.rules[i], NamedViews(w, s.named), OptionalView(w, s.anonymous))
  }

  /** The decision rule i takes when everything it binds has come back; None when it takes none. */
  function Verdict(w: World, i: nat, s: Progress): Option<Decision>
    requires i < |w.rules| && s.Running?
  {
    var rule := w.rules[i];
    if !MatchesAt(w, i, s) then None
    else
      match rule.action
      case Respond =>
        var tag := ResponseTag(rule);
        Some(RespondWith(w, if tag == "" then s.anonymous else if tag in s.named then Some(s.named[tag]) else None))
      case Route(_, _, _) =>
        var q := RouteQuery(w, i, rule.action, s.options);
        if q.Some? then Some(Forwarded(q.value)) else None
      case Reject(RejectDefault) => Some(Refused)
      case Reject(RejectDrop) => Some(Dropped)
      case Predefined(response) => Some(Answered(response, None))
      case _ => None
  }

  /** One rule of the sequential reading; race rules are passed over. */
  function Advance(w: World, i: nat, s: Progress): Progress
    requires i < |w.rules| && s.Running?
  {
    var rule := w.rules[i];
    if Armable(rule) then s
    else if Verdict(w, i, s).Some? then Stopped(Verdict(w, i, s).value)
    else if !MatchesAt(w, i, s) then s
    else
      match rule.action
      case SetOptions(o) => s.(options := ApplyRouteOptions(s.options, o))
      case Evaluate(_, tag, _, _) =>
        var q := EvaluateQuery(w, i, rule.action, s.options);
        if tag == "" then s.(anonymous := q)
        else if q.Some? then s.(named := s.named[tag := q.value])
        else s
      case _ => s
  }

  function Reach(w: World, i: nat): Progress
    requires i <= |w.rules|
  {
    if i == 0 then Running(w.options, None, map[])
    else
      var s := Reach(w, i - 1);
      if s.Stopped? then s else Advance(w, i - 1, s)
  }

  function DefaultQuery(w: World, options: QueryOptions): Query {
    Query(|w.rules|, w.fallback, Finalize(w, options))
  }

  /** The decision of the sequential reading when no race rule commits. */
  function SequentialDecision(w: World): Decision {
    var s := Reach(w, |w.rules|);
    if s.Stopped? then s.decision else Forwarded(DefaultQuery(w, s.options))
  }

  /** Rule i is a race rule the sequential reading comes past. */
  ghost predicate Contends(w: World, i: nat) {
    i < |w.rules| && Armable(w.rules[i]) && Reach(w, i).Running?
  }

  /** The decision a race rule commits with when everything it binds has come back. */
  ghost function RaceVerdict(w: World, i: nat): Option<Decision>
    requires Contends(w, i)
  {
    Verdict(w, i, Reach(w, i))
  }

  /** The queries whose responses rule i reads when the sequential reading comes to it. */
  ghost function Bound(w: World, i: nat): set<Query> {
    if i < |w.rules| && Reach(w, i).Running? then BoundBy(w.rules[i], Reach(w, i)) else {}
  }

  ghost function BoundBy(rule: Rule, s: Progress): set<Query>
    requires s.Running?
  {
    (set t | t in Tags(rule) && t in s.named :: s.named[t]) +
    if BindsAnonymous(rule) && s.anonymous.Some? then {s.anonymous.value} else {}
  }

  ghost function RaceBound(w: World, n: nat): set<Query> {
    if n == 0 then {} else RaceBound(w, n - 1) + if Contends(w, n - 1) then Bound(w, n - 1) else {}
  }

  /**
   * Rule b acts without deciding, but only once nothing is armed: it sends a query it may not send
   * early, or it is a reject action with a method that DNS does not know.
   */
  ghost predicate Barrier(w: World, b: nat) {
    && b < |w.rules| && !Armable(w.rules[b]) && Reach(w, b).Running?
    && MatchesAt(w, b, Reach(w, b))
    && match w.rules[b].action
       case Evaluate(_, _, speculative, _) =>
         !speculative && EvaluateQuery(w, b, w.rules[b].action, Reach(w, b).options).Some?
       case Reject(RejectReply) => true
       case _ => false
  }

  /**
   * The queries that have come back when the walk is past the first n rules: what the rules that are
   * not race rules bind, and at a barrier what every race rule before it binds.
   */
  ghost function Awaited(w: World, n: nat): set<Query> {
    if n == 0 then {}
    else
      Awaited(w, n - 1) +
      (if n - 1 < |w.rules| && !Armable(w.rules[n - 1]) then Bound(w, n - 1) else {}) +
      if Barrier(w, n - 1) then RaceBound(w, n - 1) else {}
  }

  /** What has come back at least when race rule i is tried. */
  ghost function Needed(w: World, i: nat): set<Query> {
    Awaited(w, i) + Bound(w, i)
  }

  /**
   * Race rule i may decide: it commits, and every race rule before it that commits too binds a query
   * that need not have come back by then.
   */
  ghost predicate MayCommit(w: World, i: nat, d: Decision) {
    && Contends(w, i) && RaceVerdict(w, i) == Some(d)
    && forall j: nat | j < i && Contends(w, j) && RaceVerdict(w, j).Some? :: !(Bound(w, j) <= Needed(w, i))
  }

  /**
   * The decisions an exchange may take: that of a race rule that may commit, or, only when no race
   * rule on the way commits, the sequential one.
   */
  ghost predicate Allowed(w: World, d: Decision) {
    || (exists i: nat :: MayCommit(w, i, d))
    || (d == SequentialDecision(w) && forall i: nat :: Contends(w, i) ==> RaceVerdict(w, i).None?)
  }

  /** Without race rules exactly one decision is allowed. */
  lemma WithoutRacesOneDecision(w: World, d: Decision)
    requires forall i | 0 <= i < |w.rules| :: !w.rules[i].race
    ensures Allowed(w, d) <==> d == SequentialDecision(w)
  {
  }

  lemma {:induction false} AwaitedGrows(w: World, m: nat, n: nat)
    requires m <= n
    ensures Awaited(w, m) <= Awaited(w, n)
  {
    hide Barrier, Bound, Armable, RaceBound;
    if m < n { AwaitedGrows(w, m, n - 1); }
  }

  lemma {:induction false} RaceBoundHas(w: World, n: nat, j: nat)
    requires j < n && Contends(w, j)
    ensures Bound(w, j) <= RaceBound(w, n)
  {
    hide Bound, Contends;
    if j < n - 1 { RaceBoundHas(w, n - 1, j); }
  }

  lemma {:induction false} RaceBoundIsBound(w: World, n: nat, back: set<Query>)
    requires forall j: nat | j < n && Contends(w, j) :: Bound(w, j) <= back
    ensures RaceBound(w, n) <= back
  {
    hide Bound, Contends;
    if n > 0 { RaceBoundIsBound(w, n - 1, back); }
  }

  /** A decision stays: once the sequential reading has stopped it has stopped for good. */
  lemma {:induction false} StoppedForGood(w: World, i: nat, j: nat)
    requires i <= j <= |w.rules|
    ensures Reach(w, i).Stopped? ==> Reach(w, j) == Reach(w, i)
    ensures Reach(w, j).Running? ==> Reach(w, i).Running?
  {
    if i < j { StoppedForGood(w, i, j - 1); }
  }

  /** A tag bound in the sequential state was put there by an earlier evaluate action. */
  lemma {:induction false} NamedHasProducer(w: World, i: nat, t: string)
    requires i <= |w.rules| && Reach(w, i).Running? && t in Reach(w, i).named
    ensures t != ""
    ensures exists j :: 0 <= j < i && DefinesTag(w.rules[j], t) && Reach(w, i).named[t].rule == j
  {
    assert Reach(w, i - 1).Running?;
    if t in Reach(w, i - 1).named && Reach(w, i).named[t] == Reach(w, i - 1).named[t] {
      NamedHasProducer(w, i - 1, t);
    }
  }

  /** A tag a rule binds has the same producer, or none, ever after: its entry is write-once. */
  lemma {:induction false} BindingIsStable(w: World, i: nat, j: nat, t: string)
    requires Walkable(w.rules)
    requires i <= j <= |w.rules| && i < |w.rules| && t in Tags(w.rules[i]) && Reach(w, j).Running?
    ensures Reach(w, i).Running?
    ensures t in Reach(w, i).named <==> t in Reach(w, j).named
    ensures t in Reach(w, i).named ==> Reach(w, i).named[t] == Reach(w, j).named[t]
  {
    hide Walkable, Reach, Tags;
    StoppedForGood(w, i, j);
    if i < j {
      StoppedForGood(w, j - 1, j);
      BindingIsStable(w, i, j - 1, t);
      BoundTagIsTaken(w, i, j - 1, t);
      OtherTagsStay(w, j - 1, t);
    }
  }

  /** A tag a rule binds is defined before the rule, so no later rule defines it. */
  lemma BoundTagIsTaken(w: World, i: nat, j: nat, t: string)
    requires Walkable(w.rules) && i <= j < |w.rules| && t in Tags(w.rules[i])
    ensures !DefinesTag(w.rules[j], t)
  {
    var k :| 0 <= k < i && DefinesTag(w.rules[k], t);
    assert t != "";
  }

  lemma OtherTagsStay(w: World, j: nat, t: string)
    requires j < |w.rules| && Reach(w, j + 1).Running? && Reach(w, j).Running? && !DefinesTag(w.rules[j], t)
    ensures t in Reach(w, j + 1).named <==> t in Reach(w, j).named
    ensures t in Reach(w, j).named ==> Reach(w, j + 1).named[t] == Reach(w, j).named[t]
  {
    hide Verdict, MatchesAt, Armable, EvaluateQuery, ApplyRouteOptions;
  }

  // ---- Speculation ----

  /** The action without its speculative mark; evaluate actions keep theirs when asked to. */
  function Unspeculative(action: Action, keepEvaluates: bool): Action {
    match action
    case Route(server, _, o) => Route(server, false, o)
    case Evaluate(server, tag, speculative, o) => Evaluate(server, tag, speculative && keepEvaluates, o)
    case _ => action
  }

  function UnspeculativeRule(rule: Rule, keepEvaluates: bool): Rule {
    match rule
    case DefaultRule(c, race, action) => DefaultRule(c, race, Unspeculative(action, keepEvaluates))
    case LogicalRule(conjunctive, invert, rules, race, action) =>
      LogicalRule(conjunctive, invert, rules, race, Unspeculative(action, keepEvaluates))
  }

  function UnspeculativeWorld(w: World, keepEvaluates: bool): (w': World)
    ensures w' == w.(rules := w'.rules) && |w'.rules| == |w.rules|
    ensures forall i | 0 <= i < |w.rules| :: w'.rules[i] == UnspeculativeRule(w.rules[i], keepEvaluates)
  {
    w.(rules := seq(|w.rules|, i requires 0 <= i < |w.rules| => UnspeculativeRule(w.rules[i], keepEvaluates)))
  }

  lemma {:induction false} SpeculationKeepsReach(w: World, keepEvaluates: bool, i: nat)
    requires i <= |w.rules|
    ensures Reach(UnspeculativeWorld(w, keepEvaluates), i) == Reach(w, i)
  {
    hide Advance, UnspeculativeWorld, UnspeculativeRule;
    if i > 0 {
      SpeculationKeepsReach(w, keepEvaluates, i - 1);
      var s := Reach(w, i - 1);
      if s.Running? {
        SpeculationKeepsAdvance(w, keepEvaluates, i - 1, s);
      }
    }
  }

  lemma SpeculationKeepsAdvance(w: World, keepEvaluates: bool, i: nat, s: Progress)
    requires i < |w.rules| && s.Running?
    ensures Advance(UnspeculativeWorld(w, keepEvaluates), i, s) == Advance(w, i, s)
  {
    SpeculationKeepsMatch(w, keepEvaluates, i, s);
    SpeculationKeepsVerdict(w, keepEvaluates, i, s);
    hide Verdict, MatchesAt, Armable, UnspeculativeWorld, ApplyRouteOptions;
  }

  lemma SpeculationKeepsMatch(w: World, keepEvaluates: bool, i: nat, s: Progress)
    requires i < |w.rules| && s.Running?
    ensures var w' := UnspeculativeWorld(w, keepEvaluates);
      && Armable(w'.rules[i]) == Armable(w.rules[i])
      && MatchesAt(w', i, s) == MatchesAt(w, i, s)
  {
    assert NamedViews(UnspeculativeWorld(w, keepEvaluates), s.named) == NamedViews(w, s.named);
    UnspeculativeBinds(w.rules[i], keepEvaluates, NamedViews(w, s.named), OptionalView(w, s.anonymous));
    hide Matches, Tags, BindsAnonymous, ViewOf, NamedViews, UnspeculativeWorld;
  }

  lemma SpeculationKeepsRoute(w: World, keepEvaluates: bool, i: nat, action: Action, o: QueryOptions)
    requires action.Route?
    ensures RouteQuery(UnspeculativeWorld(w, keepEvaluates), i, Unspeculative(action, keepEvaluates), o)
         == RouteQuery(w, i, action, o)
  {
    hide UnspeculativeWorld, ApplyRouteOptions;
  }

  lemma SpeculationKeepsVerdict(w: World, keepEvaluates: bool, i: nat, s: Progress)
    requires i < |w.rules| && s.Running?
    ensures Verdict(UnspeculativeWorld(w, keepEvaluates), i, s) == Verdict(w, i, s)
  {
    SpeculationKeepsMatch(w, keepEvaluates, i, s);
    var action := w.rules[i].action;
    if action.Route? {
      SpeculationKeepsRoute(w, keepEvaluates, i, action, s.options);
    }
    hide MatchesAt, RouteQuery, UnspeculativeWorld, Armable;
  }

  lemma {:induction false} UnspeculativeBinds(rule: Rule, keepEvaluates: bool,
    named: map<string, Option<Response>>, anonymous: Option<Response>)
    ensures Tags(UnspeculativeRule(rule, keepEvaluates)) == Tags(rule)
    ensures BindsAnonymous(UnspeculativeRule(rule, keepEvaluates)) == BindsAnonymous(rule)
    ensures Matches(UnspeculativeRule(rule, keepEvaluates), named, anonymous) == Matches(rule, named, anonymous)
  {
  }

  lemma SpeculationKeepsRace(w: World, keepEvaluates: bool, i: nat)
    ensures var w' := UnspeculativeWorld(w, keepEvaluates);
      && Contends(w', i) == Contends(w, i)
      && (Contends(w, i) ==> RaceVerdict(w', i) == RaceVerdict(w, i))
  {
    if i < |w.rules| {
      SpeculationKeepsReach(w, keepEvaluates, i);
      SpeculationKeepsMatch(w, keepEvaluates, i, Running(w.options, None, map[]));
      if Contends(w, i) {
        SpeculationKeepsVerdict(w, keepEvaluates, i, Reach(w, i));
      }
    }
    hide Verdict, Reach, Armable, UnspeculativeWorld;
  }

  lemma SpeculationKeepsBound(w: World, keepEvaluates: bool, i: nat)
    ensures Bound(UnspeculativeWorld(w, keepEvaluates), i) == Bound(w, i)
  {
    if i < |w.rules| {
      SpeculationKeepsReach(w, keepEvaluates, i);
      UnspeculativeBinds(w.rules[i], keepEvaluates, map[], None);
    }
    hide Reach, Tags, BindsAnonymous, UnspeculativeWorld;
  }

  lemma {:induction false} SpeculationKeepsRaceBound(w: World, keepEvaluates: bool, n: nat)
    ensures RaceBound(UnspeculativeWorld(w, keepEvaluates), n) == RaceBound(w, n)
  {
    hide Bound, Contends, UnspeculativeWorld;
    if n > 0 {
      SpeculationKeepsRaceBound(w, keepEvaluates, n - 1);
      SpeculationKeepsRace(w, keepEvaluates, n - 1);
      SpeculationKeepsBound(w, keepEvaluates, n - 1);
    }
  }

  lemma SpeculationKeepsBarrier(w: World, keepEvaluates: bool, b: nat)
    ensures Barrier(w, b) ==> Barrier(UnspeculativeWorld(w, keepEvaluates), b)
    ensures keepEvaluates ==> (Barrier(w, b) <==> Barrier(UnspeculativeWorld(w, keepEvaluates), b))
  {
    if b < |w.rules| && Reach(w, b).Running? {
      SpeculationKeepsMatch(w, keepEvaluates, b, Reach(w, b));
    }
    if b < |w.rules| {
      SpeculationKeepsReach(w, keepEvaluates, b);
    }
    hide Reach, MatchesAt, Armable, ApplyRouteOptions, UnspeculativeWorld;
  }

  /** Fewer barriers, fewer queries that must have come back. */
  lemma {:induction false} SpeculationKeepsAwaited(w: World, keepEvaluates: bool, n: nat)
    ensures Awaited(w, n) <= Awaited(UnspeculativeWorld(w, keepEvaluates), n)
    ensures keepEvaluates ==> Awaited(w, n) == Awaited(UnspeculativeWorld(w, keepEvaluates), n)
  {
    hide Barrier, Bound, Armable, RaceBound, UnspeculativeWorld;
    if n > 0 {
      SpeculationKeepsAwaited(w, keepEvaluates, n - 1);
      SpeculationKeepsBound(w, keepEvaluates, n - 1);
      SpeculationKeepsRaceBound(w, keepEvaluates, n - 1);
      SpeculationKeepsBarrier(w, keepEvaluates, n - 1);
      if n - 1 < |w.rules| {
        SpeculationKeepsMatch(w, keepEvaluates, n - 1, Running(w.options, None, map[]));
      }
    }
  }

  lemma SpeculationKeepsCommit(w: World, keepEvaluates: bool, i: nat, d: Decision)
    ensures var w' := UnspeculativeWorld(w, keepEvaluates);
      && (MayCommit(w', i, d) ==> MayCommit(w, i, d))
      && (keepEvaluates && MayCommit(w, i, d) ==> MayCommit(w', i, d))
  {
    hide Bound, Contends, RaceVerdict, UnspeculativeWorld, Awaited;
    var w' := UnspeculativeWorld(w, keepEvaluates);
    SpeculationKeepsRace(w, keepEvaluates, i);
    SpeculationKeepsBound(w, keepEvaluates, i);
    SpeculationKeepsAwaited(w, keepEvaluates, i);
    forall j: nat
      ensures Contends(w', j) == Contends(w, j) && Bound(w', j) == Bound(w, j)
      ensures Contends(w, j) ==> RaceVerdict(w', j) == RaceVerdict(w, j)
    {
      SpeculationKeepsRace(w, keepEvaluates, j);
      SpeculationKeepsBound(w, keepEvaluates, j);
    }
  }

  /** What the marks mean for the decisions the sequential reading allows. */
  lemma SpeculationKeepsAllowed(w: World, keepEvaluates: bool, d: Decision)
    ensures Allowed(UnspeculativeWorld(w, keepEvaluates), d) ==> Allowed(w, d)
    ensures keepEvaluates && Allowed(w, d) ==> Allowed(UnspeculativeWorld(w, keepEvaluates), d)
  {
    var w' := UnspeculativeWorld(w, keepEvaluates);
    SpeculationKeepsReach(w, keepEvaluates, |w.rules|);
    assert SequentialDecision(w') == SequentialDecision(w);
    hide Contends, RaceVerdict, MayCommit, SequentialDecision, UnspeculativeWorld;
    forall i: nat
      ensures Contends(w', i) == Contends(w, i)
      ensures Contends(w, i) ==> RaceVerdict(w', i) == RaceVerdict(w, i)
      ensures MayCommit(w', i, d) ==> MayCommit(w, i, d)
      ensures keepEvaluates && MayCommit(w, i, d) ==> MayCommit(w', i, d)
    {
      SpeculationKeepsRace(w, keepEvaluates, i);
      SpeculationKeepsCommit(w, keepEvaluates, i, d);
    }
  }

  /** The marks are none of the walk's requirements. */
  lemma UnspeculativeIsWalkable(w: World, keepEvaluates: bool)
    requires Walkable(w.rules)
    ensures Walkable(UnspeculativeWorld(w, keepEvaluates).rules)
  {
    var rules' := UnspeculativeWorld(w, keepEvaluates).rules;
    hide UnspeculativeWorld;
    forall i | 0 <= i < |rules'|
      ensures Tags(rules'[i]) == Tags(w.rules[i]) && WellBound(rules'[i])
      ensures ResponseTag(rules'[i]) == ResponseTag(w.rules[i])
      ensures rules'[i].action.Respond? == w.rules[i].action.Respond?
      ensures forall t :: DefinesTag(rules'[i], t) == DefinesTag(w.rules[i], t)
    {
      UnspeculativeBinds(w.rules[i], keepEvaluates, map[], None);
      assert WellBound(w.rules[i]);
    }
    hide Tags, WellBound, ResponseTag;
    forall i, t | 0 <= i < |rules'| && t in Tags(rules'[i])
      ensures t != "" && exists j :: 0 <= j < i && DefinesTag(rules'[j], t)
    {
      var j :| 0 <= j < i && DefinesTag(w.rules[j], t);
      assert DefinesTag(rules'[j], t);
    }
  }
}
