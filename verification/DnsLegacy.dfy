/**
 * The legacy exchange: rules are tried from the top, a rule with an address limit may reject the
 * answer its server gave, and the walk then goes on behind that rule with the caller's options.
 */
module DnsLegacy {
  import opened Options
  import opened DnsRules

  /** A rule for one query: the verdict of its conditions on the query is fixed. */
  datatype LegacyRule = LegacyRule(addressLimit: bool, preMatch: bool, action: Action)

  datatype Env = Env(transports: map<string, Transport>, fallback: Transport, addressQuery: bool)

  datatype Reply = Answered(response: Response) | Rejected | Failed

  /** What the client returns for a rule, its transport and the options; the client is left open. */
  type Client = (Option<nat>, Option<Transport>, QueryOptions) -> Reply

  datatype LegacyResult =
    | Refused
    | Dropped
    | Fixed(response: Response)
    | Exchanged(rule: Option<nat>, transport: Option<Transport>, options: QueryOptions, reply: Reply)

  function LegacyApply(o: QueryOptions, r: RouteOptions, fakeIP: bool): QueryOptions {
    var o0 := if r.strategy != AsIs then o.(strategy := r.strategy) else o;
    var o1 := if fakeIP || r.disableCache then o0.(disableCache := true) else o0;
    var o2 := if r.rewriteTTL.Some? then o1.(rewriteTTL := r.rewriteTTL) else o1;
    var o3 := if r.timeout > 0 then o2.(timeout := r.timeout) else o2;
    var o4 := if r.clientSubnet.Some? then o3.(clientSubnet := r.clientSubnet, removeClientSubnet := false) else o3;
    if r.removeClientSubnet then o4.(clientSubnet := None, removeClientSubnet := true) else o4
  }

  /**
   * The two modes apply a rule's options alike, but for three things: the legacy mode takes the
   * strategy, turns the cache off for a fake-IP server and leaves the optimistic cache alone.
   */
  lemma ModesDifferIn(o: QueryOptions, r: RouteOptions, fakeIP: bool)
    ensures LegacyApply(o, r, fakeIP) ==
      ApplyRouteOptions(
        o.(strategy := if r.strategy == AsIs then o.strategy else r.strategy),
        r.(disableCache := r.disableCache || fakeIP, disableOptimisticCache := false))
  {
  }

  predicate Considered(env: Env, r: LegacyRule) {
    (!r.addressLimit || env.addressQuery) && r.preMatch
  }

  function Routed(env: Env, action: Action, allowFakeIP: bool): Option<Transport> {
    if action.Route? && action.server in env.transports && (allowFakeIP || !env.transports[action.server].fakeIP)
    then Some(env.transports[action.server]) else None
  }

  /** A rule that ends the search. */
  predicate Stops(env: Env, r: LegacyRule, allowFakeIP: bool) {
    Considered(env, r) && (Routed(env, r.action, allowFakeIP).Some? || r.action.Reject? || r.action.Predefined?)
  }

  /** The options after the route-options rules of a stretch of the list. */
  function Folded(env: Env, rules: seq<LegacyRule>, from: nat, until: nat, o: QueryOptions): QueryOptions
    requires from <= until <= |rules|
    decreases until
  {
    if from == until then o
    else
      var before := Folded(env, rules, from, until - 1, o);
      if Considered(env, rules[until - 1]) && rules[until - 1].action.SetOptions?
      then LegacyApply(before, rules[until - 1].action.routeOptions, false) else before
  }

  /** The options a rule is left with: a route rule adds its own. */
  function OwnOptions(env: Env, r: LegacyRule, allowFakeIP: bool, o: QueryOptions): QueryOptions {
    var transport := Routed(env, r.action, allowFakeIP);
    if transport.Some? && r.action.Route? then LegacyApply(o, r.action.routeOptions, transport.value.fakeIP) else o
  }

  datatype Choice = Choice(transport: Option<Transport>, rule: Option<nat>, options: QueryOptions)

  /** The search from behind a rule on: the first rule that stops, or the default transport. */
  ghost predicate Chooses(env: Env, rules: seq<LegacyRule>, from: nat, allowFakeIP: bool, o: QueryOptions, c: Choice)
    requires from <= |rules|
  {
    match c.rule
    case None =>
      && (forall j | from <= j < |rules| :: !Stops(env, rules[j], allowFakeIP))
      && c.transport == Some(env.fallback) && c.options == Folded(env, rules, from, |rules|, o)
    case Some(i) =>
      && from <= i < |rules| && Stops(env, rules[i], allowFakeIP)
      && (forall j | from <= j < i :: !Stops(env, rules[j], allowFakeIP))
      && c.transport == Routed(env, rules[i].action, allowFakeIP)
      && c.options == OwnOptions(env, rules[i], allowFakeIP, Folded(env, rules, from, i, o))
  }

  method MatchDNS(env: Env, rules: seq<LegacyRule>, allowFakeIP: bool, ruleIndex: int, options: QueryOptions)
      returns (c: Choice)
    requires -1 <= ruleIndex < |rules|
    ensures Chooses(env, rules, ruleIndex + 1, allowFakeIP, options, c)
  {
    var o := options;
    var current := if ruleIndex == -1 then 0 else ruleIndex + 1;
    while current < |rules|
      invariant ruleIndex + 1 <= current <= |rules|
      invariant forall j | ruleIndex + 1 <= j < current :: !Stops(env, rules[j], allowFakeIP)
      invariant o == Folded(env, rules, ruleIndex + 1, current, options)
    {
      var rule := rules[current];
      if (!rule.addressLimit || env.addressQuery) && rule.preMatch {
        match rule.action {
          case Route(server, _, routeOptions) =>
            if server in env.transports {
              var transport := env.transports[server];
              if allowFakeIP || !transport.fakeIP {
                return Choice(Some(transport), Some(current), LegacyApply(o, routeOptions, transport.fakeIP));
              }
            }
          case SetOptions(routeOptions) => o := LegacyApply(o, routeOptions, false);
          case Reject(_) => return Choice(None, Some(current), o);
          case Predefined(_) => return Choice(None, Some(current), o);
          case _ =>
        }
      }
      current := current + 1;
    }
    return Choice(Some(env.fallback), None, o);
  }

  // ---- What the retries come to ----

  /** Behind the last rule before j that stopped the search. */
  function SinceStop(env: Env, rules: seq<LegacyRule>, j: nat): (i: nat)
    requires j <= |rules|
    ensures i <= j && forall k | i <= k < j :: !Stops(env, rules[k], true)
    ensures i > 0 ==> Stops(env, rules[i - 1], true)
  {
    if j == 0 || Stops(env, rules[j - 1], true) then j else SinceStop(env, rules, j - 1)
  }

  function OptionsAt(env: Env, rules: seq<LegacyRule>, j: nat, base: QueryOptions): QueryOptions
    requires j <= |rules|
  {
    var o := Folded(env, rules, SinceStop(env, rules, j), j, base);
    if j < |rules| then OwnOptions(env, rules[j], true, o) else o
  }

  /** The result if rule j decides; at the end of the list the default transport does. */
  function ResultAt(env: Env, rules: seq<LegacyRule>, j: nat, base: QueryOptions, client: Client): LegacyResult
    requires j <= |rules|
  {
    var options := OptionsAt(env, rules, j, base);
    if j == |rules| then Exchanged(None, Some(env.fallback), options, client(None, Some(env.fallback), options))
    else if rules[j].action == Reject(RejectDefault) then Refused
    else if rules[j].action == Reject(RejectDrop) then Dropped
    else if rules[j].action.Predefined? then Fixed(rules[j].action.response)
    else
      var transport := Routed(env, rules[j].action, true);
      Exchanged(Some(j), transport, options, client(Some(j), transport, options))
  }

  /** A rule whose address limit turned its own server's answer down. */
  ghost predicate TurnedDown(env: Env, rules: seq<LegacyRule>, j: nat, base: QueryOptions, client: Client)
    requires j < |rules|
  {
    var r := ResultAt(env, rules, j, base, client);
    rules[j].addressLimit && r.Exchanged? && r.reply.Rejected?
  }

  /**
   * Rule j (or the default) decides: every earlier rule that stopped the search was turned down,
   * and it was not.
   */
  ghost predicate Decides(env: Env, rules: seq<LegacyRule>, j: nat, base: QueryOptions, client: Client) {
    && j <= |rules|
    && (forall k: nat | k < j && Stops(env, rules[k], true) :: TurnedDown(env, rules, k, base, client))
    && (j < |rules| ==> Stops(env, rules[j], true) && !TurnedDown(env, rules, j, base, client))
  }

  lemma {:induction false} SinceStopIs(env: Env, rules: seq<LegacyRule>, from: nat, j: nat)
    requires from <= j <= |rules| && (from > 0 ==> Stops(env, rules[from - 1], true))
    requires forall k | from <= k < j :: !Stops(env, rules[k], true)
    ensures SinceStop(env, rules, j) == from
  {
    if j > from {
      SinceStopIs(env, rules, from, j - 1);
    }
  }

  /** Where a search that began behind a rule that stopped leads. */
  ghost function Target(rules: seq<LegacyRule>, c: Choice): nat {
    if c.rule.Some? then c.rule.value else |rules|
  }

  lemma ChosenIs(env: Env, rules: seq<LegacyRule>, from: nat, base: QueryOptions, c: Choice)
    requires from <= |rules| && (from > 0 ==> Stops(env, rules[from - 1], true)) &&
      Chooses(env, rules, from, true, base, c)
    ensures from <= Target(rules, c) <= |rules|
    ensures forall k | from <= k < Target(rules, c) :: !Stops(env, rules[k], true)
    ensures c.rule.Some? ==>
      Stops(env, rules[c.rule.value], true) && c.transport == Routed(env, rules[c.rule.value].action, true)
    ensures c.rule.None? ==> c.transport == Some(env.fallback)
    ensures OptionsAt(env, rules, Target(rules, c), base) == c.options
  {
    SinceStopIs(env, rules, from, Target(rules, c));
  }

  /**
   * The retry loop ends on every list and returns what the first rule that is not turned down
   * gives. Each attempt has the options of the route-options rules since the rule before it that
   * was turned down, not those of the whole list.
   */
  method ExchangeLegacy(env: Env, rules: seq<LegacyRule>, base: QueryOptions, client: Client) returns (r: LegacyResult)
    ensures exists j: nat :: Decides(env, rules, j, base, client) && r == ResultAt(env, rules, j, base, client)
  {
    hide Chooses, OptionsAt, Stops, Routed;
    var ruleIndex := -1;
    while true
      invariant -1 <= ruleIndex < |rules|
      invariant ruleIndex >= 0 ==> Stops(env, rules[ruleIndex], true)
      invariant forall k: nat | k <= ruleIndex && Stops(env, rules[k], true) :: TurnedDown(env, rules, k, base, client)
      decreases |rules| - ruleIndex
    {
      var c := MatchDNS(env, rules, true, ruleIndex, base);
      ghost var j := Target(rules, c);
      ChosenIs(env, rules, ruleIndex + 1, base, c);
      assert c.rule.None? || !TurnedDown(env, rules, c.rule.value, base, client) ==>
        Decides(env, rules, j, base, client);
      if c.rule.Some? {
        match rules[c.rule.value].action {
          case Reject(method_) =>
            if method_ == RejectDefault {
              return Refused;
            }
            if method_ == RejectDrop {
              return Dropped;
            }
          case Predefined(response) => return Fixed(response);
          case _ =>
        }
      }
      var reply := client(c.rule, c.transport, c.options);
      if c.rule.Some? && rules[c.rule.value].addressLimit && reply.Rejected? {
        ruleIndex := c.rule.value;
      } else {
        return Exchanged(c.rule, c.transport, c.options, reply);
      }
    }
  }

  /** Only one rule can decide, so the exchange is a function of the list, the query and the client. */
  lemma OneRuleDecides(env: Env, rules: seq<LegacyRule>, i: nat, j: nat, base: QueryOptions, client: Client)
    requires Decides(env, rules, i, base, client) && Decides(env, rules, j, base, client)
    ensures i == j
  {
  }
}
