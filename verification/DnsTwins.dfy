/**
 * The synchronous and the asynchronous exchange are twins: whatever one decides under some
 * order of callbacks, the other decides under the same order.
 */
module DnsTwins {
  import opened Options
  import opened DnsRules
  import opened DnsMode
  import opened DnsSequential
  import opened DnsWalk
  import opened DnsWalkInvariant
  import opened DnsWalkSteps
  import opened DnsWalkShape
  import opened DnsExchange

  /** Runs a list of events; None when one of them cannot happen. */
  ghost function Exec(w: World, c: Config, es: seq<Event>): Option<Config>
    decreases |es|
  {
    if es == [] then Some(c)
    else if WellFormed(w, c) && Enabled(c, es[0]) then Exec(w, Step(w, c, es[0]), es[1..])
    else None
  }

  /** The order of callbacks and context events, without the steps of the walking side. */
  function Environment(es: seq<Event>): seq<Event>
    decreases |es|
  {
    if es == [] then [] else (if es[0].Machine? then [] else [es[0]]) + Environment(es[1..])
  }

  ghost predicate SameOutside(a: Config, b: Config) {
    a.done == b.done && a.signalled == b.signalled && a.ended == b.ended && |a.st.futures| == |b.st.futures|
  }

  /** The two walk alike, or both have the same final exchange ahead, or both have decided. */
  ghost predicate Alike(sync: Config, async: Config) {
    || async == sync.(direct := async.direct)
    || (&& SameOutside(sync, async)
        && async.phase.Finishing? && async.phase.exchange.future.None?
        && (|| sync.phase == Resuming(Pending(async.phase.exchange))
            || sync.phase == Sweeping(Pending(async.phase.exchange))
            || sync.phase == Checking(Pending(async.phase.exchange))
            || sync.phase == async.phase))
    || (SameOutside(sync, async) && async.phase.Decided? && sync.phase == async.phase)
  }

  /** An asynchronous exchange that was never suspended is walking or on its way out. */
  ghost predicate DirectOk(sync: Config, async: Config) {
    !sync.direct
    && (async.direct ==>
          !async.phase.Resuming? && !async.phase.Sweeping? && !async.phase.Checking? && !async.phase.Blocked?)
  }

  /** An event of the environment, or a step both take alike. */
  ghost predicate Shared(sync: Config, async: Config, e: Event) {
    !e.Machine? || async == sync.(direct := async.direct) || sync.phase == async.phase
  }

  lemma SharedStep(w: World, sync: Config, async: Config, e: Event)
    requires ConfigShape(w, sync) && ConfigShape(w, async) && Alike(sync, async) && DirectOk(sync, async) &&
      Shared(sync, async, e)
    requires Enabled(sync, e) || Enabled(async, e)
    ensures Enabled(sync, e) && Enabled(async, e)
    ensures Alike(Step(w, sync, e), Step(w, async, e)) && DirectOk(Step(w, sync, e), Step(w, async, e))
  {
    hide Shape, Unsignalled, ReadRule, Sweep, Settle, SettleFor, Ranged, AllFutures;
  }

  /** The steps the synchronous side still has to make up. */
  function Lag(sync: Config): nat {
    match sync.phase
    case Resuming(_) => 3
    case Sweeping(_) => 2
    case Checking(_) => 1
    case _ => 0
  }

  ghost predicate Behind(sync: Config) {
    && (sync.phase.Resuming? || sync.phase.Sweeping? || sync.phase.Checking?)
    && sync.phase.suspension.Pending? && sync.phase.suspension.exchange.future.None?
  }

  /** The synchronous side settles and sweeps once more before its final exchange; nothing comes of it. */
  lemma CatchUp(w: World, sync: Config, async: Config)
    requires ConfigShape(w, sync) && Alike(sync, async) && DirectOk(sync, async) && Behind(sync) &&
      async.phase.Finishing?
    ensures Enabled(sync, Machine)
    ensures Alike(Step(w, sync, Machine), async) && DirectOk(Step(w, sync, Machine), async)
    ensures Lag(Step(w, sync, Machine)) < Lag(sync)
  {
    if sync.phase.Sweeping? {
      SweepingShape(w, sync);
      hide MachineStep;
    }
    hide Shape, Unsignalled, AllFutures, Settle, Sweep, Ranged;
  }

  lemma NotShared(sync: Config, async: Config)
    requires Alike(sync, async) && DirectOk(sync, async) && !Shared(sync, async, Machine)
    ensures Behind(sync) && async.phase.Finishing?
  {
  }

  /** Whatever the asynchronous exchange decides, the synchronous one decides under the same order of callbacks. */
  lemma {:induction false} SyncFollowsAsync(w: World, sync: Config, async: Config, es: seq<Event>)
      returns (es': seq<Event>)
    requires Walkable(w.rules) && ConfigShape(w, sync) && ConfigShape(w, async) && Alike(sync, async) &&
      DirectOk(sync, async)
    requires Exec(w, async, es).Some? && Exec(w, async, es).value.phase.Decided?
    ensures Environment(es') == Environment(es)
    ensures Exec(w, sync, es').Some? && Exec(w, sync, es').value.phase == Exec(w, async, es).value.phase
    decreases |es|, Lag(sync)
  {
    hide ConfigShape, Walkable, Step, Alike, DirectOk, Shared, Behind, Enabled, Lag;
    if es == [] {
      assert sync.phase == async.phase by { BothDecided(sync, async); }
      es' := [];
    } else if Shared(sync, async, es[0]) {
      SharedStep(w, sync, async, es[0]);
      StepKeepsShape(w, sync, es[0]);
      StepKeepsShape(w, async, es[0]);
      ShapeIsWellFormed(w, sync);
      var rest := SyncFollowsAsync(w, Step(w, sync, es[0]), Step(w, async, es[0]), es[1..]);
      es' := [es[0]] + rest;
      assert es'[1..] == rest;
    } else {
      NotSharedIsMachine(sync, async, es[0]);
      NotShared(sync, async);
      CatchUp(w, sync, async);
      StepKeepsShape(w, sync, Machine);
      ShapeIsWellFormed(w, sync);
      var rest := SyncFollowsAsync(w, Step(w, sync, Machine), async, es);
      es' := [Machine] + rest;
      assert es'[1..] == rest;
    }
  }

  lemma BothDecided(sync: Config, async: Config)
    requires Alike(sync, async) && (async.phase.Decided? || sync.phase.Decided?)
    ensures sync.phase == async.phase
  {
  }

  lemma NotSharedIsMachine(sync: Config, async: Config, e: Event)
    requires !Shared(sync, async, e)
    ensures e == Machine
  {
  }

  lemma ShapeIsWellFormed(w: World, c: Config)
    requires ConfigShape(w, c)
    ensures WellFormed(w, c)
  {
  }

  /** Whatever the synchronous exchange decides, the asynchronous one decides under the same order of callbacks. */
  lemma {:induction false} AsyncFollowsSync(w: World, sync: Config, async: Config, es: seq<Event>)
      returns (es': seq<Event>)
    requires Walkable(w.rules) && ConfigShape(w, sync) && ConfigShape(w, async) && Alike(sync, async) &&
      DirectOk(sync, async)
    requires Exec(w, sync, es).Some? && Exec(w, sync, es).value.phase.Decided?
    ensures Environment(es') == Environment(es)
    ensures Exec(w, async, es').Some? && Exec(w, async, es').value.phase == Exec(w, sync, es).value.phase
    decreases |es|
  {
    hide ConfigShape, Walkable, Step, Alike, DirectOk, Shared, Behind, Enabled, Lag;
    if es == [] {
      assert sync.phase == async.phase by { BothDecided(sync, async); }
      es' := [];
    } else if Shared(sync, async, es[0]) {
      SharedStep(w, sync, async, es[0]);
      StepKeepsShape(w, sync, es[0]);
      StepKeepsShape(w, async, es[0]);
      ShapeIsWellFormed(w, async);
      var rest := AsyncFollowsSync(w, Step(w, sync, es[0]), Step(w, async, es[0]), es[1..]);
      es' := [es[0]] + rest;
      assert es'[1..] == rest;
    } else {
      NotSharedIsMachine(sync, async, es[0]);
      NotShared(sync, async);
      CatchUp(w, sync, async);
      StepKeepsShape(w, sync, Machine);
      es' := AsyncFollowsSync(w, Step(w, sync, Machine), async, es[1..]);
    }
  }

  ghost predicate Decides(w: World, asynchronous: bool, es: seq<Event>, d: Decision) {
    var c := Exec(w, Start(w, asynchronous), es);
    c.Some? && c.value.phase == Decided(d)
  }

  /** Under every order of callbacks the synchronous and the asynchronous exchange can decide the same. */
  lemma TwinsDecideAlike(w: World, environment: seq<Event>, d: Decision)
    requires Walkable(w.rules)
    ensures (exists es :: Environment(es) == environment && Decides(w, false, es, d))
        <==> (exists es :: Environment(es) == environment && Decides(w, true, es, d))
  {
    StartShape(w, false);
    StartShape(w, true);
    hide ConfigShape, Walkable;
    if es :| Environment(es) == environment && Decides(w, false, es, d) {
      var es' := AsyncFollowsSync(w, Start(w, false), Start(w, true), es);
      assert Environment(es') == environment && Decides(w, true, es', d);
    }
    if es :| Environment(es) == environment && Decides(w, true, es, d) {
      var es' := SyncFollowsAsync(w, Start(w, false), Start(w, true), es);
      assert Environment(es') == environment && Decides(w, false, es', d);
    }
  }
}
