/**
 * The concurrent rule walk. Evaluate actions launch queries and go on; rules that bind a response
 * wait for it; race rules are armed and may commit as soon as what they wait for is there.
 *
 * A rule reads twice what has come back: when futures are settled (`early`) and when readiness is
 * asked (`late`). Queries may come back in between, so the two sets are kept apart.
 */
module DnsWalk {
  import opened Options
  import opened DnsRules
  import opened DnsMode
  import opened DnsSequential

  datatype Future = Future(query: Query, tag: string, terminal: bool)

  /** An armed race rule with the futures it still waited for when it was armed. */
  datatype Armed = Armed(index: nat, waits: seq<nat>, anonymous: Option<nat>, options: QueryOptions)

  /** A final exchange: a query to send, or a future that has been sent ahead. */
  datatype PendingExchange = PendingExchange(query: Query, future: Option<nat>)

  datatype Suspension = Await(future: nat) | Drain | Pending(exchange: PendingExchange)

  /** How one rule of the walk ends. */
  datatype RuleEnd = Continue | Suspend(suspension: Suspension) | Decide(decision: Decision)

  /** The walk's state; futures are named by their position in `futures`. */
  datatype Walk = Walk(
    ruleIndex: nat,
    options: QueryOptions,
    anonymous: Option<nat>,
    namedFutures: map<string, nat>,
    namedResponses: map<string, Option<Response>>,
    namedTransports: map<string, Transport>,
    futures: seq<Future>,
    settled: set<nat>,
    armed: seq<Armed>,
    terminal: Option<nat>,
    terminalIndex: nat,
    wake: Option<bool>)

  ghost predicate Indexed(st: Walk) {
    && (st.anonymous.Some? ==> st.anonymous.value < |st.futures|)
    && (forall t | t in st.namedFutures :: st.namedFutures[t] < |st.futures|)
    && (forall k | 0 <= k < |st.armed| :: st.armed[k].anonymous.Some? ==> st.armed[k].anonymous.value < |st.futures|)
    && (st.terminal.Some? ==> st.terminal.value < |st.futures|)
  }

  /** Every armed rule is a rule of the list. */
  ghost predicate Ranged(w: World, st: Walk) {
    Indexed(st) && forall j | 0 <= j < |st.armed| :: st.armed[j].index < |w.rules|
  }

  function Initial(w: World): Walk {
    Walk(0, w.options, None, map[], map[], map[], [], {}, [], None, 0, None)
  }

  function Next(st: Walk): Walk {
    st.(ruleIndex := st.ruleIndex + 1)
  }

  // ---- Settling ----

  function SettleOne(w: World, st: Walk, k: nat, done: set<nat>): Walk
    requires k < |st.futures|
  {
    if k in st.settled || k !in done then st
    else
      var f := st.futures[k];
      var st' := st.(settled := st.settled + {k});
      if f.tag == "" then st'
      else st'.(
        namedResponses := st.namedResponses[f.tag := ViewOf(w, f.query)],
        namedTransports := st.namedTransports[f.tag := f.query.transport])
  }

  function SettleUpTo(w: World, st: Walk, n: nat, done: set<nat>): (st': Walk)
    requires n <= |st.futures|
    ensures st' ==
      st.(settled := st'.settled, namedResponses := st'.namedResponses, namedTransports := st'.namedTransports)
  {
    if n == 0 then st else SettleOne(w, SettleUpTo(w, st, n - 1, done), n - 1, done)
  }

  /** Records the result of every future that has come back and was not recorded yet. */
  function Settle(w: World, st: Walk, done: set<nat>): (st': Walk)
    ensures st' ==
      st.(settled := st'.settled, namedResponses := st'.namedResponses, namedTransports := st'.namedTransports)
  {
    SettleUpTo(w, st, |st.futures|, done)
  }

  // ---- Reading futures ----

  function FutureView(w: World, st: Walk, k: nat, late: set<nat>): Option<Response>
    requires k < |st.futures|
  {
    if k in late then ViewOf(w, st.futures[k].query) else None
  }

  function AnonymousView(w: World, st: Walk, late: set<nat>): Option<Response>
    requires st.anonymous.Some? ==> st.anonymous.value < |st.futures|
  {
    if st.anonymous.Some? then FutureView(w, st, st.anonymous.value, late) else None
  }

  function PendingTags(tags: seq<string>, st: Walk, late: set<nat>): seq<nat> {
    if tags == [] then []
    else
      var rest := PendingTags(tags[1..], st, late);
      if tags[0] in st.namedFutures && st.namedFutures[tags[0]] !in late
      then [st.namedFutures[tags[0]]] + rest
      else rest
  }

  /** The futures the rule binds that have not come back, in the order they are looked at. */
  function Waits(rule: Rule, st: Walk, late: set<nat>): seq<nat> {
    PendingTags(Tags(rule), st, late) +
    if BindsAnonymous(rule) && st.anonymous.Some? && st.anonymous.value !in late then [st.anonymous.value] else []
  }

  predicate Ready(a: Armed, late: set<nat>) {
    forall k | 0 <= k < |a.waits| :: a.waits[k] in late
  }

  // ---- Sweeping armed rules ----

  /** What an armed rule commits with; None when it misses and is disarmed. */
  function TryArmed(w: World, st: Walk, a: Armed, late: set<nat>): Option<Decision>
    requires Indexed(st) && a.index < |w.rules| && (a.anonymous.Some? ==> a.anonymous.value < |st.futures|)
  {
    var rule := w.rules[a.index];
    var bound := if a.anonymous.Some? then FutureView(w, st, a.anonymous.value, late) else None;
    var anonymous := if BindsAnonymous(rule) then bound else AnonymousView(w, st, late);
    if !Matches(rule, st.namedResponses, anonymous) then None
    else
      match rule.action
      case Respond =>
        var tag := ResponseTag(rule);
        var named := if tag in st.namedTransports then Some(st.namedTransports[tag]) else None;
        var (response, transport) :=
          if tag != "" then (Get(st.namedResponses, tag), named)
          else if a.anonymous.Some? then (bound, Some(st.futures[a.anonymous.value].query.transport))
          else if st.anonymous.Some?
            then (AnonymousView(w, st, late), Some(st.futures[st.anonymous.value].query.transport))
          else (None, None);
        Some(if response.None? then MissingResponse else Answered(response.value, transport))
      case Route(_, _, _) =>
        var q := RouteQuery(w, a.index, rule.action, a.options);
        if q.Some? then Some(Forwarded(q.value)) else None
      case Reject(RejectDefault) => Some(Refused)
      case Reject(RejectDrop) => Some(Dropped)
      case Predefined(response) => Some(Answered(response, None))
      case _ => None
  }

  function WithoutArmed(st: Walk, k: nat): Walk
    requires k < |st.armed|
  {
    st.(armed := st.armed[..k] + st.armed[k + 1..])
  }

  /** Tries every ready armed rule from position k on, stopping at the first that commits. */
  function Sweep(w: World, st: Walk, late: set<nat>, k: nat): (r: (Walk, Option<Decision>))
    requires Ranged(w, st) && k <= |st.armed|
    ensures r.0 == st.(armed := r.0.armed) && Ranged(w, r.0)
    ensures forall j | 0 <= j < |r.0.armed| :: r.0.armed[j] in st.armed
    ensures |r.0.armed| <= |st.armed| && (r.1.Some? ==> |r.0.armed| < |st.armed|)
    decreases |st.armed| - k
  {
    if k == |st.armed| then (st, None)
    else if !Ready(st.armed[k], late) then Sweep(w, st, late, k + 1)
    else
      var st' := WithoutArmed(st, k);
      var commit := TryArmed(w, st', st.armed[k], late);
      if commit.Some? then (st', commit) else Sweep(w, st', late, k)
  }

  // ---- One rule of the walk ----

  function Launch(st: Walk, f: Future): (st': Walk)
    ensures |st'.futures| == |st.futures| + 1 && st'.wake.Some?
  {
    st.(futures := st.futures + [f], wake := if st.wake.None? then Some(false) else st.wake)
  }

  /** The action of a rule that matched. */
  function Act(w: World, st: Walk, late: set<nat>): (Walk, RuleEnd)
    requires Indexed(st) && st.ruleIndex < |w.rules|
  {
    var rule := w.rules[st.ruleIndex];
    match rule.action
    case SetOptions(o) => (Next(st.(options := ApplyRouteOptions(st.options, o))), Continue)
    case Evaluate(_, tag, speculative, _) =>
      var q := EvaluateQuery(w, st.ruleIndex, rule.action, st.options);
      if q.None? then (Next(if tag == "" then st.(anonymous := None) else st), Continue)
      else if !speculative && st.armed != [] then (st, Suspend(Drain))
      else
        var k := |st.futures|;
        var st' := Launch(st, Future(q.value, tag, false));
        (Next(if tag == "" then st'.(anonymous := Some(k)) else st'.(namedFutures := st.namedFutures[tag := k])),
          Continue)
    case Respond =>
      if st.armed != [] then (st, Suspend(Drain))
      else
        var tag := ResponseTag(rule);
        if tag != "" then
          var response := Get(st.namedResponses, tag);
          var transport := if tag in st.namedTransports then Some(st.namedTransports[tag]) else None;
          if response.None? then (st, Decide(MissingResponse)) else (st, Decide(Answered(response.value, transport)))
        else if !HasBindings(rule) && st.anonymous.Some? && st.anonymous.value !in late then
          (st, Suspend(Await(st.anonymous.value)))
        else
          var response := AnonymousView(w, st, late);
          if response.None? then (st, Decide(MissingResponse))
          else (st, Decide(Answered(response.value, Some(st.futures[st.anonymous.value].query.transport))))
    case Route(_, speculative, _) =>
      var q := RouteQuery(w, st.ruleIndex, rule.action, st.options);
      if q.None? then (Next(st), Continue)
      else if st.armed != [] then
        if speculative && st.terminal.None? then
          var st' := Launch(st, Future(q.value, "", true));
          (st'.(terminal := Some(|st.futures|), terminalIndex := st.ruleIndex), Suspend(Drain))
        else (st, Suspend(Drain))
      else if st.terminal.Some? && st.terminalIndex == st.ruleIndex then
        (st, Suspend(Pending(PendingExchange(st.futures[st.terminal.value].query, st.terminal))))
      else (st, Suspend(Pending(PendingExchange(q.value, None))))
    case Reject(rejectMethod) =>
      if st.armed != [] then (st, Suspend(Drain))
      else if rejectMethod.RejectDefault? then (st, Decide(Refused))
      else if rejectMethod.RejectDrop? then (st, Decide(Dropped))
      else (Next(st), Continue)
    case Predefined(response) =>
      if st.armed != [] then (st, Suspend(Drain)) else (st, Decide(Answered(response, None)))
  }

  /** The armed rule for the race rule the walk has reached. */
  function ArmedHere(w: World, st: Walk, late: set<nat>): Armed
    requires st.ruleIndex < |w.rules|
  {
    var rule := w.rules[st.ruleIndex];
    Armed(st.ruleIndex, Waits(rule, st, late), if BindsAnonymous(rule) then st.anonymous else None, st.options)
  }

  /** Arms a race rule and, when it waits for nothing, sweeps at once. */
  function Arm(w: World, st: Walk, late: set<nat>): (Walk, RuleEnd)
    requires Ranged(w, st) && st.ruleIndex < |w.rules|
  {
    var a := ArmedHere(w, st, late);
    var st' := st.(armed := st.armed + [a]);
    if a.waits != [] then (Next(st'), Continue)
    else
      var (st'', commit) := Sweep(w, st', late, 0);
      if commit.None? then (Next(st''), Continue)
      else if commit.value.Forwarded? then
        (st''.(armed := []), Suspend(Pending(PendingExchange(commit.value.query, None))))
      else (st'', Decide(commit.value))
  }

  /** A rule that is not a race rule: waits for what it binds, then matches and acts. */
  function Try(w: World, st: Walk, late: set<nat>): (Walk, RuleEnd)
    requires Indexed(st) && st.ruleIndex < |w.rules|
  {
    var rule := w.rules[st.ruleIndex];
    var waits := Waits(rule, st, late);
    if waits != [] then (st, Suspend(Await(waits[0])))
    else if !Matches(rule, st.namedResponses, AnonymousView(w, st, late)) then (Next(st), Continue)
    else Act(w, st, late)
  }

  /** The first read of a rule: a rule that binds responses settles the futures. */
  function SettleFor(w: World, st: Walk, early: set<nat>): (st': Walk)
    ensures st' ==
      st.(settled := st'.settled, namedResponses := st'.namedResponses, namedTransports := st'.namedTransports)
  {
    if st.ruleIndex < |w.rules| && HasBindings(w.rules[st.ruleIndex]) then Settle(w, st, early) else st
  }

  /** The second read: what the rule waits for, matches and does, or the end of the list. */
  function ReadRule(w: World, st: Walk, late: set<nat>): (Walk, RuleEnd)
    requires Ranged(w, st) && st.ruleIndex <= |w.rules|
  {
    if st.ruleIndex == |w.rules| then
      (st, Suspend(if st.armed != [] then Drain else Pending(PendingExchange(DefaultQuery(w, st.options), None))))
    else if Armable(w.rules[st.ruleIndex]) then Arm(w, st, late)
    else Try(w, st, late)
  }

  /** One rule of the walk, or its end. */
  function WalkRule(w: World, st: Walk, early: set<nat>, late: set<nat>): (Walk, RuleEnd)
    requires Ranged(w, st) && st.ruleIndex <= |w.rules|
  {
    ReadRule(w, SettleFor(w, st, early), late)
  }
}
