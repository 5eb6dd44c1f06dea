/**
 * The static analysis of a DNS rule list: which mode the rules need, whether a list is valid
 * when legacy mode is off, and how rule-set updates are admitted while the router runs.
 */
module DnsMode {
  import opened Options
  import opened DnsRules

  datatype Metadata = Metadata(
    containsIPCIDR: bool,
    containsNonIPCIDR: bool,
    containsQueryType: bool)

  type RuleSets = map<string, Metadata>

  const NO_OVERRIDES: RuleSets := map[]

  /** Overrides shadow the rule sets known to the router. */
  function Lookup(sets: RuleSets, overrides: RuleSets, tag: string): (m: Option<Metadata>)
    ensures m == if tag in sets + overrides then Some((sets + overrides)[tag]) else None
  {
    if tag in overrides then Some(overrides[tag])
    else if tag in sets then Some(sets[tag])
    else None
  }

  // ---- Mode flags ----

  datatype Flags = Flags(disabled: bool, needed: bool, neededFromStrategy: bool)

  const NO_FLAGS := Flags(false, false, false)

  function Merge(f: Flags, g: Flags): Flags {
    Flags(f.disabled || g.disabled, f.needed || g.needed, f.neededFromStrategy || g.neededFromStrategy)
  }

  predicate ActionDisablesLegacy(race: bool, action: Action) {
    race ||
    match action
    case Route(_, speculative, o) => o.disableOptimisticCache || speculative
    case Evaluate(_, _, speculative, o) => o.disableOptimisticCache || speculative
    case SetOptions(o) => o.disableOptimisticCache
    case _ => false
  }

  predicate ActionHasStrategy(action: Action) {
    match action
    case Route(_, _, o) => o.strategy != AsIs
    case Evaluate(_, _, _, o) => o.strategy != AsIs
    case SetOptions(o) => o.strategy != AsIs
    case _ => false
  }

  predicate DefaultDisablesLegacy(c: Conditions, action: Action) {
    c.matchResponse.On? || c.responseFields || action.Evaluate? || action.Respond? || c.ipVersion || c.queryType
  }

  predicate DefaultNeedsLegacy(c: Conditions) {
    c.ruleSetAcceptEmpty || (c.matchResponse.Off? && (c.ipAcceptAny || c.ipCidr || c.ipIsPrivate))
  }

  /** Folds the rule sets a default rule refers to into its flags; None when one is unknown. */
  function RuleSetFlags(tags: seq<string>, matchSource: bool, flags: Flags, sets: RuleSets,
      overrides: RuleSets): Option<Flags> {
    if tags == [] then Some(flags)
    else
      var m := Lookup(sets, overrides, tags[0]);
      if m.None? then None
      else
        var flags' := flags.(
          disabled := flags.disabled || m.value.containsQueryType,
          needed := flags.needed || (!matchSource && m.value.containsIPCIDR));
        RuleSetFlags(tags[1..], matchSource, flags', sets, overrides)
  }

  function RuleFlags(rule: Rule, sets: RuleSets, overrides: RuleSets): Option<Flags>
    decreases rule, 1
  {
    match rule
    case DefaultRule(c, race, action) =>
      var strategy := ActionHasStrategy(action);
      var flags := Flags(
        DefaultDisablesLegacy(c, action) || ActionDisablesLegacy(race, action),
        DefaultNeedsLegacy(c) || strategy,
        strategy);
      RuleSetFlags(c.ruleSet, c.ruleSetMatchSource, flags, sets, overrides)
    case LogicalRule(_, _, rules, race, action) =>
      var strategy := ActionHasStrategy(action);
      var flags := Flags(action.Evaluate? || action.Respond? || ActionDisablesLegacy(race, action), strategy, strategy);
      FoldFlags(rules, flags, sets, overrides)
  }

  /** Merges the flags of a list of rules into `flags`; None at the first rule that fails. */
  function FoldFlags(rules: seq<Rule>, flags: Flags, sets: RuleSets, overrides: RuleSets): Option<Flags>
    decreases rules, 0
  {
    if rules == [] then Some(flags)
    else
      var f := RuleFlags(rules[0], sets, overrides);
      if f.None? then None else FoldFlags(rules[1..], Merge(flags, f.value), sets, overrides)
  }

  datatype Mode = Mode(legacy: bool, flags: Flags)

  /** The mode the rules call for; None when a rule set is missing or the demands conflict. */
  function ResolveMode(rules: seq<Rule>, sets: RuleSets, overrides: RuleSets): (r: Option<Mode>)
    ensures r.Some? && r.value.legacy ==> !r.value.flags.disabled && r.value.flags.needed
    ensures r.Some? && r.value.flags.disabled ==> !r.value.legacy && !r.value.flags.neededFromStrategy
  {
    var flags := FoldFlags(rules, NO_FLAGS, sets, overrides);
    if flags.None? then None
    else if flags.value.disabled && flags.value.neededFromStrategy then None
    else if flags.value.disabled then Some(Mode(false, flags.value))
    else Some(Mode(flags.value.needed, flags.value))
  }

  // ---- Validation of a rule list with legacy mode off ----

  datatype Use = Use(needsAnonymous: bool, tags: seq<string>)

  predicate PureIPSet(m: Metadata) {
    m.containsIPCIDR && !m.containsNonIPCIDR
  }

  predicate RuleSetsUsable(tags: seq<string>, sets: RuleSets, overrides: RuleSets) {
    forall i | 0 <= i < |tags| ::
      var m := Lookup(sets, overrides, tags[i]);
      m.Some? && !PureIPSet(m.value)
  }

  function ValidateRule(rule: Rule, sets: RuleSets, overrides: RuleSets): Option<Use>
    decreases rule, 1
  {
    match rule
    case DefaultRule(c, _, action) =>
      if (c.responseFields || c.ipCidr || c.ipIsPrivate || c.ipAcceptAny) && c.matchResponse.Off? then None
      else if c.matchResponse.Off? && !RuleSetsUsable(c.ruleSet, sets, overrides) then None
      else if c.ruleSetAcceptEmpty then None
      else
        var tag := ResponseTag(rule);
        Some(Use(
          (c.matchResponse.On? && tag == "") || (action.Respond? && tag == ""),
          if c.matchResponse.On? && tag != "" then [tag] else []))
    case LogicalRule(_, _, rules, _, action) =>
      var use := ValidateAll(rules, sets, overrides);
      if use.None? then None
      else if action.Respond? && |use.value.tags| > 0 then None
      else if action.Respond? then Some(use.value.(needsAnonymous := true))
      else use
  }

  function ValidateAll(rules: seq<Rule>, sets: RuleSets, overrides: RuleSets): Option<Use>
    decreases rules, 0
  {
    if rules == [] then Some(Use(false, []))
    else
      var first := ValidateRule(rules[0], sets, overrides);
      var rest := ValidateAll(rules[1..], sets, overrides);
      if first.None? || rest.None? then None
      else Some(Use(first.value.needsAnonymous || rest.value.needsAnonymous, first.value.tags + rest.value.tags))
  }

  predicate DefinesTag(rule: Rule, tag: string) {
    rule.action.Evaluate? && rule.action.tag == tag
  }

  /** Rule i is valid where it stands: what it reads is produced by an earlier evaluate action. */
  ghost predicate AcceptedAt(rules: seq<Rule>, i: nat, sets: RuleSets, overrides: RuleSets)
    requires i < |rules|
  {
    var use := ValidateRule(rules[i], sets, overrides);
    && use.Some?
    && (use.value.needsAnonymous ==> exists j :: 0 <= j < i && DefinesTag(rules[j], ""))
    && (forall t | t in use.value.tags :: exists j :: 0 <= j < i && DefinesTag(rules[j], t) && t != "")
    && (rules[i].action.Evaluate? && rules[i].action.tag != "" ==>
          forall j :: 0 <= j < i ==> !DefinesTag(rules[j], rules[i].action.tag))
  }

  ghost predicate Accepted(rules: seq<Rule>, sets: RuleSets, overrides: RuleSets) {
    forall i | 0 <= i < |rules| :: AcceptedAt(rules, i, sets, overrides)
  }

  /** The list validator: None when the list is accepted, otherwise the first rule at fault. */
  method ValidateRules(rules: seq<Rule>, sets: RuleSets, overrides: RuleSets) returns (fault: Option<nat>)
    ensures fault.None? <==> Accepted(rules, sets, overrides)
    ensures fault.Some? ==> fault.value < |rules| && !AcceptedAt(rules, fault.value, sets, overrides)
    ensures fault.Some? ==> forall i | 0 <= i < fault.value :: AcceptedAt(rules, i, sets, overrides)
  {
    var seenAnonymousEvaluate := false;
    var definedTags: set<string> := {};
    var i := 0;
    while i < |rules|
      invariant 0 <= i <= |rules|
      invariant seenAnonymousEvaluate <==> exists j :: 0 <= j < i && DefinesTag(rules[j], "")
      invariant forall t :: t in definedTags <==> t != "" && exists j :: 0 <= j < i && DefinesTag(rules[j], t)
      invariant forall j | 0 <= j < i :: AcceptedAt(rules, j, sets, overrides)
    {
      var rule := rules[i];
      var use := ValidateRule(rule, sets, overrides);
      if use.None? {
        assert !AcceptedAt(rules, i, sets, overrides);
        return Some(i);
      }
      if use.value.needsAnonymous && !seenAnonymousEvaluate {
        assert !AcceptedAt(rules, i, sets, overrides);
        return Some(i);
      }
      if exists k | 0 <= k < |use.value.tags| :: use.value.tags[k] !in definedTags {
        ghost var k :| 0 <= k < |use.value.tags| && use.value.tags[k] !in definedTags;
        assert use.value.tags[k] in use.value.tags;
        assert !AcceptedAt(rules, i, sets, overrides);
        return Some(i);
      }
      if rule.action.Evaluate? {
        if rule.action.tag == "" {
          seenAnonymousEvaluate := true;
        } else {
          if rule.action.tag in definedTags {
            assert !AcceptedAt(rules, i, sets, overrides);
            return Some(i);
          }
          definedTags := definedTags + {rule.action.tag};
        }
      }
      assert AcceptedAt(rules, i, sets, overrides);
      i := i + 1;
    }
    return None;
  }

  // ---- What acceptance guarantees to the walk ----

  /**
   * What the walk needs of a rule list: every condition on a response is bound, every tag has one
   * producer, a bound tag is produced earlier, and a respond action on a logical rule binds no tag.
   */
  ghost predicate Walkable(rules: seq<Rule>) {
    && (forall i | 0 <= i < |rules| :: WellBound(rules[i]))
    && (forall i, j, t | 0 <= i < j < |rules| && t != "" :: !(DefinesTag(rules[i], t) && DefinesTag(rules[j], t)))
    && (forall i, t | 0 <= i < |rules| && t in Tags(rules[i]) ::
          t != "" && exists j :: 0 <= j < i && DefinesTag(rules[j], t))
    && (forall i | 0 <= i < |rules| && rules[i].action.Respond? && ResponseTag(rules[i]) == "" :: Tags(rules[i]) == [])
  }

  /** The validator sees every tag and every anonymous binding the built rule has. */
  lemma {:induction false} ValidatedBindings(rule: Rule, sets: RuleSets, overrides: RuleSets)
    requires ValidateRule(rule, sets, overrides).Some?
    ensures WellBound(rule)
    ensures forall t :: t in Tags(rule) <==> t in ValidateRule(rule, sets, overrides).value.tags
    ensures BindsAnonymous(rule) ==> ValidateRule(rule, sets, overrides).value.needsAnonymous
    decreases rule, 1
  {
    match rule
    case DefaultRule(c, _, _) =>
    case LogicalRule(_, _, rules, _, _) => ValidatedBindingsOfAll(rules, sets, overrides);
  }

  lemma {:induction false} ValidatedBindingsOfAll(rules: seq<Rule>, sets: RuleSets, overrides: RuleSets)
    requires ValidateAll(rules, sets, overrides).Some?
    ensures forall i | 0 <= i < |rules| :: WellBound(rules[i])
    ensures forall t :: t in TagsOfAll(rules) <==> t in ValidateAll(rules, sets, overrides).value.tags
    ensures (exists i | 0 <= i < |rules| :: BindsAnonymous(rules[i])) ==>
      ValidateAll(rules, sets, overrides).value.needsAnonymous
    decreases rules, 0
  {
    if rules != [] {
      ValidatedBindings(rules[0], sets, overrides);
      ValidatedBindingsOfAll(rules[1..], sets, overrides);
      forall i | 0 <= i < |rules|
        ensures WellBound(rules[i])
        ensures BindsAnonymous(rules[i]) ==> ValidateAll(rules, sets, overrides).value.needsAnonymous
      {
        if i > 0 { assert rules[i] == rules[1..][i - 1]; }
      }
    }
  }

  lemma RespondBindsNoTag(rule: Rule, sets: RuleSets, overrides: RuleSets)
    requires ValidateRule(rule, sets, overrides).Some?
    requires rule.action.Respond? && ResponseTag(rule) == ""
    ensures Tags(rule) == []
  {
    ValidatedBindings(rule, sets, overrides);
    EmptyAlike(Tags(rule), ValidateRule(rule, sets, overrides).value.tags);
  }

  lemma EmptyAlike(a: seq<string>, b: seq<string>)
    requires forall t :: t in a <==> t in b
    ensures a == [] <==> b == []
  {
    assert a != [] ==> a[0] in b;
    assert b != [] ==> b[0] in a;
  }

  /** Soundness of the validator for the walk. */
  lemma AcceptedIsWalkable(rules: seq<Rule>, sets: RuleSets, overrides: RuleSets)
    requires Accepted(rules, sets, overrides)
    ensures Walkable(rules)
  {
    forall i | 0 <= i < |rules|
      ensures WellBound(rules[i])
      ensures rules[i].action.Respond? && ResponseTag(rules[i]) == "" ==> Tags(rules[i]) == []
      ensures forall t | t in Tags(rules[i]) :: t != "" && exists j :: 0 <= j < i && DefinesTag(rules[j], t)
    {
      assert AcceptedAt(rules, i, sets, overrides);
      ValidatedBindings(rules[i], sets, overrides);
      if rules[i].action.Respond? && ResponseTag(rules[i]) == "" {
        RespondBindsNoTag(rules[i], sets, overrides);
      }
    }
    forall i, j, t | 0 <= i < j < |rules| && t != ""
      ensures !(DefinesTag(rules[i], t) && DefinesTag(rules[j], t))
    {
      assert AcceptedAt(rules, j, sets, overrides);
    }
  }

  // ---- Strategies ----

  /** Nothing the fold meets later takes a flag back. */
  ghost predicate Extends(f: Flags, g: Flags) {
    (f.disabled ==> g.disabled) && (f.needed ==> g.needed) && (f.neededFromStrategy ==> g.neededFromStrategy)
  }

  lemma {:induction false} RuleSetFlagsExtend(tags: seq<string>, matchSource: bool, flags: Flags, sets: RuleSets,
      overrides: RuleSets)
    requires RuleSetFlags(tags, matchSource, flags, sets, overrides).Some?
    ensures Extends(flags, RuleSetFlags(tags, matchSource, flags, sets, overrides).value)
  {
    if tags != [] {
      var m := Lookup(sets, overrides, tags[0]).value;
      var flags' := flags.(
        disabled := flags.disabled || m.containsQueryType,
        needed := flags.needed || (!matchSource && m.containsIPCIDR));
      RuleSetFlagsExtend(tags[1..], matchSource, flags', sets, overrides);
    }
  }

  lemma {:induction false} FoldFlagsExtend(rules: seq<Rule>, flags: Flags, sets: RuleSets, overrides: RuleSets)
    requires FoldFlags(rules, flags, sets, overrides).Some?
    ensures Extends(flags, FoldFlags(rules, flags, sets, overrides).value)
  {
    if rules != [] {
      FoldFlagsExtend(rules[1..], Merge(flags, RuleFlags(rules[0], sets, overrides).value), sets, overrides);
    }
  }

  lemma StrategyIsFlagged(rule: Rule, sets: RuleSets, overrides: RuleSets)
    requires RuleFlags(rule, sets, overrides).Some? && ActionHasStrategy(rule.action)
    ensures RuleFlags(rule, sets, overrides).value.needed && RuleFlags(rule, sets, overrides).value.neededFromStrategy
  {
    match rule
    case DefaultRule(c, race, action) =>
      var flags := Flags(DefaultDisablesLegacy(c, action) || ActionDisablesLegacy(race, action), true, true);
      assert RuleFlags(rule, sets, overrides) == RuleSetFlags(c.ruleSet, c.ruleSetMatchSource, flags, sets, overrides);
      RuleSetFlagsExtend(c.ruleSet, c.ruleSetMatchSource, flags, sets, overrides);
    case LogicalRule(_, _, rules, race, action) =>
      var disables := action.Evaluate? || action.Respond? || ActionDisablesLegacy(race, action);
      FoldFlagsExtend(rules, Flags(disables, true, true), sets, overrides);
  }

  lemma {:induction false} FoldMeetsRule(rules: seq<Rule>, flags: Flags, i: nat, sets: RuleSets, overrides: RuleSets)
    requires i < |rules| && FoldFlags(rules, flags, sets, overrides).Some?
    ensures RuleFlags(rules[i], sets, overrides).Some?
    ensures Extends(RuleFlags(rules[i], sets, overrides).value, FoldFlags(rules, flags, sets, overrides).value)
  {
    var flags' := Merge(flags, RuleFlags(rules[0], sets, overrides).value);
    if i == 0 {
      FoldFlagsExtend(rules[1..], flags', sets, overrides);
    } else {
      FoldMeetsRule(rules[1..], flags', i - 1, sets, overrides);
    }
  }

  /**
   * With legacy mode off no top-level action carries a strategy, so the walk loses nothing by
   * skipping the strategy of a route action.
   */
  lemma NonLegacyHasNoStrategy(rules: seq<Rule>, sets: RuleSets, overrides: RuleSets)
    requires ResolveMode(rules, sets, overrides).Some? && !ResolveMode(rules, sets, overrides).value.legacy
    ensures forall i | 0 <= i < |rules| :: !ActionHasStrategy(rules[i].action)
  {
    forall i | 0 <= i < |rules|
      ensures !ActionHasStrategy(rules[i].action)
    {
      FoldMeetsRule(rules, NO_FLAGS, i, sets, overrides);
      if ActionHasStrategy(rules[i].action) {
        StrategyIsFlagged(rules[i], sets, overrides);
      }
    }
  }
}
