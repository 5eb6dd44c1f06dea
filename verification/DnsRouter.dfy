/** A running router: the static analysis that lets it start and stay up is what its exchanges rely on. */
module DnsRouter {
  import opened DnsRules
  import opened DnsMode
  import opened DnsSequential
  import opened DnsExchange
  import opened DnsRuns
  import opened DnsOutcomes
  import U = DnsUpdates

  /**
   * Up in the new mode after some history of building, publishing, rule-set updates and closing, with
   * no update between building and publishing that called for the other mode.
   */
  ghost predicate Serving(r: U.Router, events: seq<U.Event>) {
    && !r.started && r.built.None? && U.PublishedAsBuilt(r, events)
    && (var now := U.ApplyAll(r, events); now.started && !now.legacy && !now.closing)
  }

  /**
   * Whatever rule-set updates a serving router has accepted, every interleaving of an exchange is
   * bounded, and one whose reads are clean decides as allowed, sequentially when no rule races; and no
   * action carries a strategy the walk would drop.
   */
  lemma ServingRouterDecides(r: U.Router, events: seq<U.Event>,
    w: World, cs: seq<Config>, es: seq<Event>, i: nat, d: Decision)
    requires Serving(r, events) && w.rules == r.rules && IsRun(w, cs, es) && i < |cs|
    requires cs[i].phase == Decided(d) && !cs[i].ended
    ensures CleanRun(w, cs, es, i) ==> Allowed(w, d)
    ensures CleanRun(w, cs, es, i) && (forall j | 0 <= j < |w.rules| :: !w.rules[j].race) ==> d == SequentialDecision(w)
    ensures |es| <= 40 * |w.rules| + 47
    ensures forall j | 0 <= j < |w.rules| :: !ActionHasStrategy(w.rules[j].action)
  {
    U.ModeNeverGoesStale(r, events);
    var now := U.ApplyAll(r, events);
    assert U.Fits(now.rules, now.sets, false);
    AcceptedIsWalkable(w.rules, now.sets, NO_OVERRIDES);
    NonLegacyHasNoStrategy(w.rules, now.sets, NO_OVERRIDES);
    RunDecidesAllowed(w, cs, es, i, d);
    EveryRunEnds(w, cs, es);
    if CleanRun(w, cs, es, i) && forall j | 0 <= j < |w.rules| :: !w.rules[j].race {
      OrderDoesNotMatter(w, now.sets, NO_OVERRIDES, cs, es, i, d);
    }
  }

  /**
   * And its exchanges can take exactly the allowed decisions: under some order of callbacks each of
   * them, in clean runs no other, and without a race rule just the sequential one.
   */
  lemma ServingRouterTakes(r: U.Router, events: seq<U.Event>, w: World, asynchronous: bool, d: Decision)
    requires Serving(r, events) && w.rules == r.rules
    ensures Takes(w, asynchronous, d) <==> Allowed(w, d)
    ensures (forall j | 0 <= j < |w.rules| :: !w.rules[j].race) ==>
      (Takes(w, asynchronous, d) <==> d == SequentialDecision(w))
  {
    U.ModeNeverGoesStale(r, events);
    var now := U.ApplyAll(r, events);
    assert U.Fits(now.rules, now.sets, false);
    AcceptedIsWalkable(w.rules, now.sets, NO_OVERRIDES);
    ExactlyAllowed(w, asynchronous, d);
    if forall j | 0 <= j < |w.rules| :: !w.rules[j].race {
      WithoutRacesOneDecision(w, d);
    }
    hide Takes, Allowed, SequentialDecision;
  }
}
