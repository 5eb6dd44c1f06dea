/** How rule-set updates are admitted while the DNS router runs. */
module DnsUpdates {
  import opened Options
  import opened DnsRules
  import opened DnsMode

  /** Analysing with one override is analysing the rule sets after the update. */
  lemma {:induction false} OverrideRuleSetFlags(tags: seq<string>, matchSource: bool, flags: Flags, sets: RuleSets,
      tag: string, m: Metadata)
    ensures RuleSetFlags(tags, matchSource, flags, sets, map[tag := m]) ==
      RuleSetFlags(tags, matchSource, flags, sets[tag := m], NO_OVERRIDES)
  {
    if tags != [] {
      var found := Lookup(sets, map[tag := m], tags[0]);
      if found.Some? {
        var flags' := flags.(
          disabled := flags.disabled || found.value.containsQueryType,
          needed := flags.needed || (!matchSource && found.value.containsIPCIDR));
        OverrideRuleSetFlags(tags[1..], matchSource, flags', sets, tag, m);
      }
    }
  }

  lemma {:induction false} OverrideRuleFlags(rule: Rule, sets: RuleSets, tag: string, m: Metadata)
    ensures RuleFlags(rule, sets, map[tag := m]) == RuleFlags(rule, sets[tag := m], NO_OVERRIDES)
    decreases rule, 1
  {
    match rule
    case DefaultRule(c, race, action) =>
      var strategy := ActionHasStrategy(action);
      var flags := Flags(
        DefaultDisablesLegacy(c, action) || ActionDisablesLegacy(race, action),
        DefaultNeedsLegacy(c) || strategy,
        strategy);
      OverrideRuleSetFlags(c.ruleSet, c.ruleSetMatchSource, flags, sets, tag, m);
    case LogicalRule(_, _, rules, race, action) =>
      var strategy := ActionHasStrategy(action);
      var disables := action.Evaluate? || action.Respond? || ActionDisablesLegacy(race, action);
      OverrideFoldFlags(rules, Flags(disables, strategy, strategy), sets, tag, m);
  }

  lemma {:induction false} OverrideFoldFlags(rules: seq<Rule>, flags: Flags, sets: RuleSets, tag: string, m: Metadata)
    ensures FoldFlags(rules, flags, sets, map[tag := m]) == FoldFlags(rules, flags, sets[tag := m], NO_OVERRIDES)
    decreases rules, 0
  {
    if rules != [] {
      OverrideRuleFlags(rules[0], sets, tag, m);
      var f := RuleFlags(rules[0], sets, map[tag := m]);
      if f.Some? {
        OverrideFoldFlags(rules[1..], Merge(flags, f.value), sets, tag, m);
      }
    }
  }

  lemma {:induction false} OverrideValidateRule(rule: Rule, sets: RuleSets, tag: string, m: Metadata)
    ensures ValidateRule(rule, sets, map[tag := m]) == ValidateRule(rule, sets[tag := m], NO_OVERRIDES)
    decreases rule, 1
  {
    match rule
    case DefaultRule(c, _, _) =>
    case LogicalRule(_, _, rules, _, _) => OverrideValidateAll(rules, sets, tag, m);
  }

  lemma {:induction false} OverrideValidateAll(rules: seq<Rule>, sets: RuleSets, tag: string, m: Metadata)
    ensures ValidateAll(rules, sets, map[tag := m]) == ValidateAll(rules, sets[tag := m], NO_OVERRIDES)
    decreases rules, 0
  {
    if rules != [] {
      OverrideValidateRule(rules[0], sets, tag, m);
      OverrideValidateAll(rules[1..], sets, tag, m);
    }
  }

  /** Looking ahead with an override gives the verdict the applied update will have. */
  lemma OverrideIsUpdate(rules: seq<Rule>, sets: RuleSets, tag: string, m: Metadata)
    ensures ResolveMode(rules, sets, map[tag := m]) == ResolveMode(rules, sets[tag := m], NO_OVERRIDES)
    ensures Accepted(rules, sets, map[tag := m]) <==> Accepted(rules, sets[tag := m], NO_OVERRIDES)
  {
    OverrideFoldFlags(rules, NO_FLAGS, sets, tag, m);
    forall i | 0 <= i < |rules|
      ensures AcceptedAt(rules, i, sets, map[tag := m]) == AcceptedAt(rules, i, sets[tag := m], NO_OVERRIDES)
    {
      OverrideValidateRule(rules[i], sets, tag, m);
    }
    var updated := sets[tag := m];
    if Accepted(rules, sets, map[tag := m]) {
      forall i | 0 <= i < |rules|
        ensures AcceptedAt(rules, i, updated, NO_OVERRIDES)
      {
        assert AcceptedAt(rules, i, sets, map[tag := m]);
      }
    }
  }

  /**
   * The router's mode state; `sets` is what the route router answers for each rule set. A start first
   * builds the rules for the mode they call for, without the lock, and publishes both later under it.
   */
  datatype Router = Router(
    rules: seq<Rule>, sets: RuleSets, built: Option<bool>, started: bool, legacy: bool, closing: bool)

  datatype Event = Build | Publish | Update(tag: string, metadata: Metadata) | Close

  /** Whether ValidateRuleSetMetadataUpdate lets an update through. */
  ghost predicate AdmitsUpdate(r: Router, tag: string, m: Metadata) {
    if r.rules == [] || r.closing then true
    else
      var mode := ResolveMode(r.rules, r.sets, map[tag := m]);
      if mode.None? then false
      else if !r.started then mode.value.legacy || Accepted(r.rules, r.sets, map[tag := m])
      else if r.legacy then mode.value.legacy || !mode.value.flags.disabled
      else !mode.value.legacy && Accepted(r.rules, r.sets, map[tag := m])
  }

  /** The rules can be built: their mode resolves, and without legacy mode they validate. */
  ghost predicate Buildable(rules: seq<Rule>, sets: RuleSets) {
    var mode := ResolveMode(rules, sets, NO_OVERRIDES);
    mode.Some? && (mode.value.legacy || Accepted(rules, sets, NO_OVERRIDES))
  }

  /** The built rules go into service. */
  predicate Publishes(r: Router) {
    r.built.Some? && !r.started && !r.closing
  }

  ghost function Apply(r: Router, e: Event): Router {
    match e
    case Build =>
      if r.built.Some? || !Buildable(r.rules, r.sets) then r
      else r.(built := Some(ResolveMode(r.rules, r.sets, NO_OVERRIDES).value.legacy))
    case Publish => if Publishes(r) then r.(started := true, legacy := r.built.value) else r
    case Update(tag, m) => if AdmitsUpdate(r, tag, m) then r.(sets := r.sets[tag := m]) else r
    case Close => r.(closing := true)
  }

  ghost function ApplyAll(r: Router, events: seq<Event>): Router {
    if events == [] then r else Apply(ApplyAll(r, events[..|events| - 1]), events[|events| - 1])
  }

  /** The rules, with the rule sets as they are, fit the mode. */
  ghost predicate Fits(rules: seq<Rule>, sets: RuleSets, legacy: bool) {
    var mode := ResolveMode(rules, sets, NO_OVERRIDES);
    && mode.Some?
    && (if legacy then !mode.value.flags.disabled else !mode.value.legacy && Accepted(rules, sets, NO_OVERRIDES))
  }

  /** A started router, until it closes, has rules that fit the mode it runs in. */
  ghost predicate ModeHolds(r: Router) {
    r.started && !r.closing ==> Fits(r.rules, r.sets, r.legacy)
  }

  /** Rules that are built and not yet published could still be built, be it for the other mode. */
  ghost predicate BuildHolds(r: Router) {
    Publishes(r) ==> Buildable(r.rules, r.sets)
  }

  /**
   * The rules still call for what was built: no rule disables a legacy mode that was built, and no
   * rule set needs a legacy mode that was not.
   */
  ghost predicate StillAsBuilt(r: Router)
    requires r.built.Some?
  {
    var mode := ResolveMode(r.rules, r.sets, NO_OVERRIDES);
    mode.Some? && if r.built.value then !mode.value.flags.disabled else !mode.value.legacy
  }

  lemma UpdateKeepsMode(r: Router, tag: string, m: Metadata)
    requires ModeHolds(r) && BuildHolds(r)
    ensures ModeHolds(Apply(r, Update(tag, m))) && BuildHolds(Apply(r, Update(tag, m)))
  {
    if r.rules != [] {
      OverrideIsUpdate(r.rules, r.sets, tag, m);
    }
  }

  /** Publishing gives a mode that holds exactly when the rules still call for what was built. */
  lemma PublishIsExact(r: Router)
    requires BuildHolds(r) && Publishes(r)
    ensures ModeHolds(Apply(r, Publish)) <==> StillAsBuilt(r)
  {
  }

  /** Every publication in the history came while the rules still called for what was built. */
  ghost predicate PublishedAsBuilt(r: Router, events: seq<Event>) {
    events != [] ==>
      var before := ApplyAll(r, events[..|events| - 1]);
      && PublishedAsBuilt(r, events[..|events| - 1])
      && (events[|events| - 1].Publish? && Publishes(before) ==> StillAsBuilt(before))
  }

  /**
   * Over every history of building, publishing, updates and closing: the running mode never goes
   * stale if it was not stale when it was published.
   */
  lemma {:induction false} ModeNeverGoesStale(r: Router, events: seq<Event>)
    requires !r.started && r.built.None?
    ensures ApplyAll(r, events).rules == r.rules && BuildHolds(ApplyAll(r, events))
    ensures PublishedAsBuilt(r, events) ==> ModeHolds(ApplyAll(r, events))
  {
    if events != [] {
      ModeNeverGoesStale(r, events[..|events| - 1]);
      var before := ApplyAll(r, events[..|events| - 1]);
      match events[|events| - 1]
      case Build =>
      case Publish =>
        if Publishes(before) {
          PublishIsExact(before);
        }
      case Update(tag, m) => BuildUpdate(before, tag, m);
      case Close =>
    }
  }

  lemma BuildUpdate(r: Router, tag: string, m: Metadata)
    requires BuildHolds(r)
    ensures BuildHolds(Apply(r, Update(tag, m)))
    ensures ModeHolds(r) ==> ModeHolds(Apply(r, Update(tag, m)))
  {
    if ModeHolds(r) {
      UpdateKeepsMode(r, tag, m);
    } else if r.rules != [] {
      OverrideIsUpdate(r.rules, r.sets, tag, m);
    }
  }

  /** Without an update in between the rules call for what was built. */
  lemma FreshBuildIsAsBuilt(r: Router)
    requires r.built.None? && Apply(r, Build).built.Some?
    ensures StillAsBuilt(Apply(r, Build))
  {
  }

  // ---- An update that comes in between ----

  /** One route rule on a rule set without addresses. */
  function RouteOnSet(): Router {
    var c := Conditions(Off, false, true, _ => true, false, false, false, false, false, false, ["s"], false, false);
    var rule := DefaultRule(c, false, Route("x", false, PLAIN_OPTIONS));
    Router([rule], map["s" := Metadata(false, true, false)], None, false, false, false)
  }

  lemma RouteOnSetMode(sets: RuleSets)
    requires "s" in sets && !sets["s"].containsQueryType
    ensures var rules := RouteOnSet().rules;
      && ResolveMode(rules, sets, NO_OVERRIDES)
         == Some(Mode(sets["s"].containsIPCIDR, Flags(false, sets["s"].containsIPCIDR, false)))
      && (!PureIPSet(sets["s"]) ==> Accepted(rules, sets, NO_OVERRIDES))
  {
    var rules := RouteOnSet().rules;
    var m := sets["s"];
    assert Lookup(sets, NO_OVERRIDES, "s") == Some(m);
    assert ["s"][1..] == [] && RuleSetFlags([], false, Flags(false, m.containsIPCIDR, false), sets, NO_OVERRIDES).Some?;
    assert RuleSetFlags(["s"], false, NO_FLAGS, sets, NO_OVERRIDES) == Some(Flags(false, m.containsIPCIDR, false));
    assert RuleFlags(rules[0], sets, NO_OVERRIDES) == Some(Flags(false, m.containsIPCIDR, false));
    assert rules[1..] == [];
    assert FoldFlags(rules, NO_FLAGS, sets, NO_OVERRIDES) == Some(Flags(false, m.containsIPCIDR, false));
    if !PureIPSet(m) {
      assert AcceptedAt(rules, 0, sets, NO_OVERRIDES);
    }
  }

  /**
   * The rule set gets addresses after the rules were built without legacy mode and before they are
   * published: the update is admitted, because nothing has started, and the router starts stale.
   */
  lemma UpdateMayOutrunStart()
    ensures var events := [Build, Update("s", Metadata(true, true, false)), Publish];
      ApplyAll(RouteOnSet(), events).started && !ModeHolds(ApplyAll(RouteOnSet(), events))
  {
    var r, m := RouteOnSet(), Metadata(true, true, false);
    var events := [Build, Update("s", m), Publish];
    RouteOnSetMode(r.sets);
    RouteOnSetMode(r.sets["s" := m]);
    OverrideIsUpdate(r.rules, r.sets, "s", m);
    hide ResolveMode, Accepted, RouteOnSet;
    assert ApplyAll(r, []) == r;
    assert events[..1] == [Build] && [Build][..0] == [];
    var built := Apply(r, Build);
    assert ApplyAll(r, [Build]) == built;
    assert events[..2] == [Build, Update("s", m)];
    assert [Build, Update("s", m)][..1] == [Build];
    assert ApplyAll(r, events[..2]) == Apply(built, Update("s", m));
    assert ApplyAll(r, events) == Apply(Apply(built, Update("s", m)), Publish);
  }
}
