/** The optional value used where the source has a nil reference or a missing map entry. */
module Options {
  datatype Option<+T> = None | Some(value: T)

  /** Reading a Go map of references: a missing key and a nil reference look the same. */
  function Get<T>(m: map<string, Option<T>>, key: string): (r: Option<T>) {
    if key in m then m[key] else None
  }
}

/** DNS rules: what they bind, when they match and what their actions do to the query options. */
module DnsRules {
  import opened Options

  datatype Response = Response(rcode: nat, records: seq<string>)

  datatype Transport = Transport(tag: string, fakeIP: bool)

  datatype Strategy = AsIs | PreferIPv4 | PreferIPv6 | IPv4Only | IPv6Only

  /** The part of a query's options that rules can change. */
  datatype QueryOptions = QueryOptions(
    strategy: Strategy,
    disableCache: bool,
    disableOptimisticCache: bool,
    rewriteTTL: Option<nat>,
    timeout: nat,
    clientSubnet: Option<string>,
    removeClientSubnet: bool)

  datatype RouteOptions = RouteOptions(
    strategy: Strategy,
    disableCache: bool,
    disableOptimisticCache: bool,
    rewriteTTL: Option<nat>,
    timeout: nat,
    clientSubnet: Option<string>,
    removeClientSubnet: bool)

  /** Route options that change nothing. */
  const PLAIN_OPTIONS := RouteOptions(AsIs, false, false, None, 0, None, false)

  datatype RejectMethod = RejectDefault | RejectDrop | RejectReply

  datatype Action =
    | Route(server: string, speculative: bool, routeOptions: RouteOptions)
    | Evaluate(server: string, tag: string, speculative: bool, routeOptions: RouteOptions)
    | SetOptions(routeOptions: RouteOptions)
    | Respond
    | Reject(rejectMethod: RejectMethod)
    | Predefined(response: Response)

  /** `match_response`: absent, `true` (the empty tag) or the tag of an evaluate action. */
  datatype MatchResponse = Off | On(tag: string)

  /**
   * The conditions of a default rule. `plain` is the verdict of the items that only look at the
   * query, `onResponse` the verdict (inversion included) once a response is bound; both are
   * left uninterpreted. The remaining fields are what the mode analysis looks at.
   */
  datatype Conditions = Conditions(
    matchResponse: MatchResponse,
    invert: bool,
    plain: bool,
    onResponse: Response -> bool,
    responseFields: bool,
    ipCidr: bool,
    ipIsPrivate: bool,
    ipAcceptAny: bool,
    ipVersion: bool,
    queryType: bool,
    ruleSet: seq<string>,
    ruleSetMatchSource: bool,
    ruleSetAcceptEmpty: bool)

  datatype Rule =
    | DefaultRule(conditions: Conditions, race: bool, action: Action)
    | LogicalRule(conjunctive: bool, invert: bool, rules: seq<Rule>, race: bool, action: Action)

  // ---- What a rule binds ----

  /** Keeps the first occurrence of every element. */
  function Unique(s: seq<string>): (r: seq<string>)
    ensures forall t :: t in r <==> t in s
  {
    if s == [] then []
    else
      var rest := Unique(s[..|s| - 1]);
      assert s == s[..|s| - 1] + [s[|s| - 1]];
      if s[|s| - 1] in rest then rest else rest + [s[|s| - 1]]
  }

  /** The evaluate tags whose responses the rule reads. */
  function Tags(rule: Rule): seq<string>
    decreases rule, 1
  {
    match rule
    case DefaultRule(c, _, _) => if c.matchResponse.On? && c.matchResponse.tag != "" then [c.matchResponse.tag] else []
    case LogicalRule(_, _, rules, _, _) => Unique(TagsOfAll(rules))
  }

  function TagsOfAll(rules: seq<Rule>): seq<string>
    decreases rules, 0
  {
    if rules == [] then [] else Tags(rules[0]) + TagsOfAll(rules[1..])
  }

  lemma {:induction false} TagsOfAllContains(rules: seq<Rule>, i: nat, tag: string)
    requires i < |rules| && tag in Tags(rules[i])
    ensures tag in TagsOfAll(rules)
  {
    if i > 0 {
      TagsOfAllContains(rules[1..], i - 1, tag);
    }
  }

  /** Whether the rule reads the response of the latest evaluate action without a tag. */
  predicate BindsAnonymous(rule: Rule) {
    match rule
    case DefaultRule(c, _, _) => c.matchResponse.On? && c.matchResponse.tag == ""
    case LogicalRule(_, _, rules, _, _) => exists i | 0 <= i < |rules| :: BindsAnonymous(rules[i])
  }

  predicate HasBindings(rule: Rule) {
    |Tags(rule)| > 0 || BindsAnonymous(rule)
  }

  /** A rule the walk arms instead of waiting for. */
  predicate Armable(rule: Rule) {
    HasBindings(rule) && rule.race
  }

  /** The tag a respond action answers with; logical rules have none. */
  function ResponseTag(rule: Rule): string {
    match rule
    case DefaultRule(c, _, _) => if c.matchResponse.On? then c.matchResponse.tag else ""
    case LogicalRule(_, _, _, _, _) => ""
  }

  // ---- When a rule matches ----

  predicate Matches(rule: Rule, named: map<string, Option<Response>>, anonymous: Option<Response>) {
    match rule
    case DefaultRule(c, _, _) =>
      if c.matchResponse.On? || c.responseFields then
        var tagged := c.matchResponse.On? && c.matchResponse.tag != "";
        var response := if tagged then Get(named, c.matchResponse.tag) else anonymous;
        if response.None? then c.invert else c.onResponse(response.value)
      else c.plain
    case LogicalRule(conjunctive, invert, rules, _, _) =>
      var matched :=
        if conjunctive then forall i | 0 <= i < |rules| :: Matches(rules[i], named, anonymous)
        else exists i | 0 <= i < |rules| :: Matches(rules[i], named, anonymous);
      matched != invert
  }

  /** No condition on a response is written without `match_response`. */
  ghost predicate WellBound(rule: Rule) {
    match rule
    case DefaultRule(c, _, _) => c.responseFields ==> c.matchResponse.On?
    case LogicalRule(_, _, rules, _, _) => forall i | 0 <= i < |rules| :: WellBound(rules[i])
  }

  /** A well-bound rule's verdict depends on nothing but the responses it binds. */
  lemma {:induction false} MatchFrame(rule: Rule,
    named: map<string, Option<Response>>, anonymous: Option<Response>,
    named': map<string, Option<Response>>, anonymous': Option<Response>)
    requires WellBound(rule)
    requires forall t | t in Tags(rule) :: Get(named, t) == Get(named', t)
    requires BindsAnonymous(rule) ==> anonymous == anonymous'
    ensures Matches(rule, named, anonymous) == Matches(rule, named', anonymous')
  {
    match rule
    case DefaultRule(c, _, _) =>
    case LogicalRule(_, _, rules, _, _) =>
      forall i | 0 <= i < |rules|
        ensures Matches(rules[i], named, anonymous) == Matches(rules[i], named', anonymous')
      {
        forall t | t in Tags(rules[i])
          ensures Get(named, t) == Get(named', t)
        {
          TagsOfAllContains(rules, i, t);
        }
        MatchFrame(rules[i], named, anonymous, named', anonymous');
      }
  }

  // ---- What an action does to the options ----

  function ApplyRouteOptions(o: QueryOptions, r: RouteOptions): (o': QueryOptions)
    ensures o'.strategy == o.strategy
    ensures o'.disableCache == (o.disableCache || r.disableCache)
    ensures o'.disableOptimisticCache == (o.disableOptimisticCache || r.disableOptimisticCache)
    ensures o'.rewriteTTL == if r.rewriteTTL.Some? then r.rewriteTTL else o.rewriteTTL
    ensures o'.timeout == if r.timeout > 0 then r.timeout else o.timeout
    ensures r.removeClientSubnet ==> o'.clientSubnet.None? && o'.removeClientSubnet
    ensures r.clientSubnet.Some? && !r.removeClientSubnet ==>
      o'.clientSubnet == r.clientSubnet && !o'.removeClientSubnet
    ensures r.clientSubnet.None? && !r.removeClientSubnet ==>
      o'.clientSubnet == o.clientSubnet && o'.removeClientSubnet == o.removeClientSubnet
  {
    var o1 := if r.disableCache then o.(disableCache := true) else o;
    var o2 := if r.disableOptimisticCache then o1.(disableOptimisticCache := true) else o1;
    var o3 := if r.rewriteTTL.Some? then o2.(rewriteTTL := r.rewriteTTL) else o2;
    var o4 := if r.timeout > 0 then o3.(timeout := r.timeout) else o3;
    var o5 := if r.clientSubnet.Some? then o4.(clientSubnet := r.clientSubnet, removeClientSubnet := false) else o4;
    if r.removeClientSubnet then o5.(clientSubnet := None, removeClientSubnet := true) else o5
  }
}
