/** The walk's loops, updating their state in place, refine the functions of DnsWalk. */
module DnsWalker {
  import opened Options
  import opened DnsRules
  import opened DnsMode
  import opened DnsSequential
  import opened DnsWalk

  // ---- The specification of a whole walk ----

  ghost predicate Advances(w: World, st: Walk, st': Walk, end: RuleEnd) {
    Ranged(w, st') && st'.ruleIndex == st.ruleIndex + if end.Continue? then 1 else 0
  }

  lemma ActRanged(w: World, st: Walk, late: set<nat>)
    requires Ranged(w, st) && st.ruleIndex < |w.rules|
    ensures Advances(w, st, Act(w, st, late).0, Act(w, st, late).1)
  {
    var action := w.rules[st.ruleIndex].action;
    if action.Evaluate? {
      EvaluateRanged(w, st, late);
    } else if action.Route? {
      RouteRanged(w, st, late);
    } else {
      FixedRanged(w, st, late);
    }
    hide Act, Ranged, Advances;
  }

  lemma FixedRanged(w: World, st: Walk, late: set<nat>)
    requires Ranged(w, st) && st.ruleIndex < |w.rules|
    requires !w.rules[st.ruleIndex].action.Evaluate? && !w.rules[st.ruleIndex].action.Route?
    ensures Advances(w, st, Act(w, st, late).0, Act(w, st, late).1)
  {
    hide ApplyRouteOptions, HasBindings, AnonymousView, EvaluateQuery, RouteQuery, Launch;
  }

  lemma EvaluateRanged(w: World, st: Walk, late: set<nat>)
    requires Ranged(w, st) && st.ruleIndex < |w.rules| && w.rules[st.ruleIndex].action.Evaluate?
    ensures Advances(w, st, Act(w, st, late).0, Act(w, st, late).1)
  {
    hide EvaluateQuery;
  }

  lemma RouteRanged(w: World, st: Walk, late: set<nat>)
    requires Ranged(w, st) && st.ruleIndex < |w.rules| && w.rules[st.ruleIndex].action.Route?
    ensures Advances(w, st, Act(w, st, late).0, Act(w, st, late).1)
  {
    hide RouteQuery;
  }

  lemma ArmRanged(w: World, st: Walk, late: set<nat>)
    requires Ranged(w, st) && st.ruleIndex < |w.rules|
    ensures Advances(w, st, Arm(w, st, late).0, Arm(w, st, late).1)
  {
    hide Sweep, Waits, ArmedHere;
    ArmedRanged(w, st, late);
  }

  lemma ArmedRanged(w: World, st: Walk, late: set<nat>)
    requires Ranged(w, st) && st.ruleIndex < |w.rules|
    ensures Ranged(w, st.(armed := st.armed + [ArmedHere(w, st, late)]))
  {
    hide Waits;
  }

  lemma ArmedHereIs(w: World, st: Walk, late: set<nat>)
    requires st.ruleIndex < |w.rules|
    ensures var rule := w.rules[st.ruleIndex];
      ArmedHere(w, st, late)
      == Armed(st.ruleIndex, Waits(rule, st, late), if BindsAnonymous(rule) then st.anonymous else None, st.options)
  {
  }

  lemma ReadRuleRanged(w: World, st: Walk, late: set<nat>)
    requires Ranged(w, st) && st.ruleIndex <= |w.rules|
    ensures Advances(w, st, ReadRule(w, st, late).0, ReadRule(w, st, late).1)
    ensures ReadRule(w, st, late).0.ruleIndex <= |w.rules|
  {
    if st.ruleIndex < |w.rules| {
      hide Act, Arm, Matches, Waits, Ranged, AnonymousView;
      if Armable(w.rules[st.ruleIndex]) {
        ArmRanged(w, st, late);
      } else {
        ActRanged(w, st, late);
        RangedMoves(w, st);
      }
    }
  }

  lemma WalkRuleRanged(w: World, st: Walk, early: set<nat>, late: set<nat>)
    requires Ranged(w, st) && st.ruleIndex <= |w.rules|
    ensures Advances(w, st, WalkRule(w, st, early, late).0, WalkRule(w, st, early, late).1)
    ensures WalkRule(w, st, early, late).0.ruleIndex <= |w.rules|
  {
    hide SettleFor, ReadRule;
    ReadRuleRanged(w, SettleFor(w, st, early), late);
  }

  lemma RangedMoves(w: World, st: Walk)
    requires Ranged(w, st)
    ensures Ranged(w, Next(st))
  {
  }

  /** What has come back at the first and at the second read of a rule. */
  datatype Arrivals = Arrivals(early: set<nat>, late: set<nat>)

  /** Walks on until a rule suspends or decides; `arrivals(i)` is what rule i finds come back. */
  function WalkFrom(w: World, st: Walk, arrivals: nat -> Arrivals): (Walk, RuleEnd)
    requires Ranged(w, st) && st.ruleIndex <= |w.rules|
    decreases |w.rules| - st.ruleIndex
  {
    var here := arrivals(st.ruleIndex);
    WalkRuleRanged(w, st, here.early, here.late);
    var (st', end) := WalkRule(w, st, here.early, here.late);
    if end.Continue? then WalkFrom(w, st', arrivals) else (st', end)
  }

  class RuleWalkState {
    var ruleIndex: nat
    var effectiveOptions: QueryOptions
    var anonymousFuture: Option<nat>
    var namedFutures: map<string, nat>
    var namedResponses: map<string, Option<Response>>
    var namedTransports: map<string, Transport>
    var futures: seq<Future>
    var settled: set<nat>
    var armedRules: seq<Armed>
    var terminalFuture: Option<nat>
    var terminalIndex: nat
    var wake: Option<bool>

    ghost function Value(): Walk
      reads this
    {
      Walk(ruleIndex, effectiveOptions, anonymousFuture, namedFutures, namedResponses, namedTransports,
           futures, settled, armedRules, terminalFuture, terminalIndex, wake)
    }

    constructor (w: World)
      ensures Value() == Initial(w)
    {
      ruleIndex, effectiveOptions, anonymousFuture := 0, w.options, None;
      namedFutures, namedResponses, namedTransports := map[], map[], map[];
      futures, settled, armedRules := [], {}, [];
      terminalFuture, terminalIndex, wake := None, 0, None;
    }

    /** Records every future that has come back, in launch order. */
    method SettleFutures(w: World, done: set<nat>)
      modifies this`settled, this`namedResponses, this`namedTransports
      ensures Value() == Settle(w, old(Value()), done)
    {
      var k := 0;
      while k < |futures|
        invariant 0 <= k <= |futures|
        invariant Value() == SettleUpTo(w, old(Value()), k, done)
      {
        var future := futures[k];
        if k !in settled && k in done {
          settled := settled + {k};
          if future.tag != "" {
            namedResponses := namedResponses[future.tag := ViewOf(w, future.query)];
            namedTransports := namedTransports[future.tag := future.query.transport];
          }
        }
        k := k + 1;
      }
    }

    /** Tries the ready armed rules in order, disarming each, until one commits. */
    method SweepArmedRules(w: World, late: set<nat>) returns (commit: Option<Decision>)
      requires Ranged(w, Value())
      modifies this`armedRules
      ensures (Value(), commit) == Sweep(w, old(Value()), late, 0)
    {
      hide TryArmed;
      ghost var before := Value();
      var index := 0;
      while index < |armedRules|
        invariant 0 <= index <= |armedRules|
        invariant Ranged(w, Value())
        invariant Sweep(w, before, late, 0) == Sweep(w, Value(), late, index)
        decreases |armedRules| - index
      {
        var armed := armedRules[index];
        var ready := forall k | 0 <= k < |armed.waits| :: armed.waits[k] in late;
        if !ready {
          index := index + 1;
        } else {
          label Disarm:
          armedRules := armedRules[..index] + armedRules[index + 1..];
          assert Value() == WithoutArmed(old@Disarm(Value()), index);
          commit := TryArmedRule(w, armed, late);
          if commit.Some? {
            return;
          }
        }
      }
      commit := None;
    }

    /** Matches one armed rule against the responses and gives what it commits with. */
    method TryArmedRule(w: World, armed: Armed, late: set<nat>) returns (commit: Option<Decision>)
      requires Ranged(w, Value()) && armed.index < |w.rules| &&
        (armed.anonymous.Some? ==> armed.anonymous.value < |futures|)
      ensures commit == TryArmed(w, Value(), armed, late)
    {
      var rule := w.rules[armed.index];
      var bound: Option<Response> := None;
      if armed.anonymous.Some? && armed.anonymous.value in late {
        bound := ViewOf(w, futures[armed.anonymous.value].query);
      }
      var latest: Option<Response> := None;
      if anonymousFuture.Some? && anonymousFuture.value in late {
        latest := ViewOf(w, futures[anonymousFuture.value].query);
      }
      if !Matches(rule, namedResponses, if BindsAnonymous(rule) then bound else latest) {
        return None;
      }
      match rule.action {
        case Respond =>
          var response: Option<Response> := None;
          var transport: Option<Transport> := None;
          var tag := ResponseTag(rule);
          if tag != "" {
            response := Get(namedResponses, tag);
            if tag in namedTransports { transport := Some(namedTransports[tag]); }
          } else if armed.anonymous.Some? {
            response, transport := bound, Some(futures[armed.anonymous.value].query.transport);
          } else if anonymousFuture.Some? {
            response, transport := latest, Some(futures[anonymousFuture.value].query.transport);
          }
          if response.None? {
            return Some(MissingResponse);
          }
          return Some(Answered(response.value, transport));
        case Route(_, _, _) =>
          var query := RouteQuery(w, armed.index, rule.action, armed.options);
          if query.None? {
            return None;
          }
          return Some(Forwarded(query.value));
        case Reject(rejectMethod) =>
          if rejectMethod.RejectDefault? {
            return Some(Refused);
          } else if rejectMethod.RejectDrop? {
            return Some(Dropped);
          }
          return None;
        case Predefined(response) => return Some(Answered(response, None));
        case _ => return None;
      }
    }

    method Send(future: Future) returns (k: nat)
      modifies this`futures, this`wake
      ensures Value() == Launch(old(Value()), future) && k == |old(futures)|
    {
      if wake.None? {
        wake := Some(false);
      }
      k := |futures|;
      futures := futures + [future];
    }

    /** Arms the race rule the walk has reached and sweeps when it waits for nothing. */
    method ArmRule(w: World, late: set<nat>) returns (end: RuleEnd)
      requires Ranged(w, Value()) && ruleIndex < |w.rules|
      modifies this`armedRules, this`ruleIndex
      ensures (Value(), end) == Arm(w, old(Value()), late)
    {
      hide Sweep, Waits, ArmedHere, Ranged, BindsAnonymous;
      var rule := w.rules[ruleIndex];
      ghost var a := ArmedHere(w, Value(), late);
      ArmedRanged(w, Value(), late);
      ArmedHereIs(w, Value(), late);
      var pending := PendingFutures(rule, late);
      var anonymous := if BindsAnonymous(rule) then anonymousFuture else None;
      armedRules := armedRules + [Armed(ruleIndex, pending, anonymous, effectiveOptions)];
      if pending == [] {
        var commit := SweepArmedRules(w, late);
        if commit.Some? {
          if commit.value.Forwarded? {
            armedRules := [];
            return Suspend(Pending(PendingExchange(commit.value.query, None)));
          }
          return Decide(commit.value);
        }
      }
      ruleIndex := ruleIndex + 1;
      end := Continue;
    }

    /** The bound futures that have not come back: tags in their order, then the anonymous one. */
    method PendingFutures(rule: Rule, late: set<nat>) returns (pending: seq<nat>)
      ensures pending == Waits(rule, Value(), late)
    {
      pending := [];
      var tags := Tags(rule);
      var i := 0;
      while i < |tags|
        invariant 0 <= i <= |tags|
        invariant pending + PendingTags(tags[i..], Value(), late) == PendingTags(tags, Value(), late)
      {
        if tags[i] in namedFutures && namedFutures[tags[i]] !in late {
          pending := pending + [namedFutures[tags[i]]];
        }
        assert tags[i..][1..] == tags[i + 1..];
        i := i + 1;
      }
      if BindsAnonymous(rule) && anonymousFuture.Some? && anonymousFuture.value !in late {
        pending := pending + [anonymousFuture.value];
      }
    }

    /** The action of the rule the walk has reached, once the rule matches. */
    method ActOnRule(w: World, late: set<nat>) returns (end: RuleEnd)
      requires Ranged(w, Value()) && ruleIndex < |w.rules|
      modifies this
      ensures (Value(), end) == Act(w, old(Value()), late)
    {
      var rule := w.rules[ruleIndex];
      match rule.action {
        case SetOptions(o) =>
          effectiveOptions := ApplyRouteOptions(effectiveOptions, o);
        case Evaluate(_, tag, speculative, _) =>
          var query := EvaluateQuery(w, ruleIndex, rule.action, effectiveOptions);
          if query.None? {
            if tag == "" { anonymousFuture := None; }
          } else {
            if !speculative && armedRules != [] {
              return Suspend(Drain);
            }
            var k := Send(Future(query.value, tag, false));
            if tag == "" {
              anonymousFuture := Some(k);
            } else {
              namedFutures := namedFutures[tag := k];
            }
          }
        case Route(_, speculative, _) =>
          var query := RouteQuery(w, ruleIndex, rule.action, effectiveOptions);
          if query.Some? {
            if armedRules != [] {
              if speculative && terminalFuture.None? {
                var k := Send(Future(query.value, "", true));
                terminalFuture, terminalIndex := Some(k), ruleIndex;
              }
              return Suspend(Drain);
            }
            if terminalFuture.Some? && terminalIndex == ruleIndex {
              return Suspend(Pending(PendingExchange(futures[terminalFuture.value].query, terminalFuture)));
            }
            return Suspend(Pending(PendingExchange(query.value, None)));
          }
        case Respond =>
          if armedRules != [] {
            return Suspend(Drain);
          }
          end := Answer(w, late);
          return;
        case Reject(rejectMethod) =>
          if armedRules != [] {
            return Suspend(Drain);
          }
          if rejectMethod.RejectDefault? {
            return Decide(Refused);
          } else if rejectMethod.RejectDrop? {
            return Decide(Dropped);
          }
        case Predefined(response) =>
          if armedRules != [] {
            return Suspend(Drain);
          }
          return Decide(Answered(response, None));
      }
      ruleIndex := ruleIndex + 1;
      end := Continue;
    }

    /** The respond action with nothing armed. */
    method Answer(w: World, late: set<nat>) returns (end: RuleEnd)
      requires Ranged(w, Value()) && ruleIndex < |w.rules| && w.rules[ruleIndex].action.Respond? && armedRules == []
      ensures (Value(), end) == Act(w, Value(), late)
    {
      var rule := w.rules[ruleIndex];
      var tag := ResponseTag(rule);
      if tag != "" {
        var response := Get(namedResponses, tag);
        if response.None? {
          return Decide(MissingResponse);
        }
        return Decide(Answered(response.value, if tag in namedTransports then Some(namedTransports[tag]) else None));
      }
      if !HasBindings(rule) && anonymousFuture.Some? && anonymousFuture.value !in late {
        return Suspend(Await(anonymousFuture.value));
      }
      var response := AnonymousResponse(w, late);
      if response.None? {
        return Decide(MissingResponse);
      }
      return Decide(Answered(response.value, Some(futures[anonymousFuture.value].query.transport)));
    }

    method AnonymousResponse(w: World, late: set<nat>) returns (response: Option<Response>)
      requires Ranged(w, Value())
      ensures response == AnonymousView(w, Value(), late)
    {
      if anonymousFuture.Some? && anonymousFuture.value in late {
        return ViewOf(w, futures[anonymousFuture.value].query);
      }
      return None;
    }

    /** Walks the rules until one suspends or decides. */
    method WalkRules(w: World, arrivals: nat -> Arrivals) returns (end: RuleEnd)
      requires Ranged(w, Value()) && ruleIndex <= |w.rules|
      modifies this
      ensures (Value(), end) == WalkFrom(w, old(Value()), arrivals)
    {
      ghost var before := Value();
      while ruleIndex < |w.rules|
        invariant Ranged(w, Value()) && ruleIndex <= |w.rules|
        invariant WalkFrom(w, before, arrivals) == WalkFrom(w, Value(), arrivals)
        decreases |w.rules| - ruleIndex
      {
        ghost var here := Value();
        var found := arrivals(ruleIndex);
        WalkRuleRanged(w, here, found.early, found.late);
        end := WalkRule(w, found.early, found.late);
        if !end.Continue? {
          return;
        }
      }
      if armedRules != [] {
        return Suspend(Drain);
      }
      return Suspend(Pending(PendingExchange(DefaultQuery(w, effectiveOptions), None)));
    }

    /** One turn of the loop: settles with what has come back by then, reads with what has come back since. */
    method WalkRule(w: World, early: set<nat>, late: set<nat>) returns (end: RuleEnd)
      requires Ranged(w, Value()) && ruleIndex < |w.rules|
      modifies this
      ensures (Value(), end) == DnsWalk.WalkRule(w, old(Value()), early, late)
    {
      var rule := w.rules[ruleIndex];
      if HasBindings(rule) {
        SettleFutures(w, early);
      }
      assert Ranged(w, Value());
      if Armable(rule) {
        end := ArmRule(w, late);
        return;
      }
      var pending := PendingFutures(rule, late);
      if pending != [] {
        return Suspend(Await(pending[0]));
      }
      var anonymous := AnonymousResponse(w, late);
      if !Matches(rule, namedResponses, anonymous) {
        ruleIndex := ruleIndex + 1;
        return Continue;
      }
      end := ActOnRule(w, late);
    }
  }
}
