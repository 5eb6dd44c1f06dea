/**
 * Sessions as a whole: every session has its own pool, whose handler asks the registry whether the
 * session is current and then records the result. The registry's operations and the pools' steps
 * interleave freely.
 */
module UrlTestSessions {
  import opened Counting
  import P = UrlTestPool
  import R = UrlTestRegistry
  import T = UrlTestTargets

  datatype World = World(registry: R.Registry, pools: seq<P.Pool>)

  datatype Move =
    | Begin(group: string, owner: nat, force: bool, tags: seq<string>, concurrency: int, now: int)
    | Cancel(id: nat, now: int)
    | StopInstance(owner: nat, error: string, now: int)
    | Work(id: nat, e: P.Event, cause: R.Cause, now: int)

  predicate IsCurrent(r: R.Registry, id: nat)
    requires id < |r.objects|
  {
    var s := r.objects[id];
    s.group in r.byGroup && r.byGroup[s.group] == id && s.state.Running?
  }

  /** What a pool's step does to the registry. */
  ghost predicate Touches(r: R.Registry, p: P.Pool, m: Move, q: R.Registry)
    requires m.Work? && m.id < |r.objects| && P.Enabled(p, m.e)
  {
    match m.e
    case Handle(_, current, _) => current == IsCurrent(r, m.id) && q == r
    case SweepHandle(current) => current == IsCurrent(r, m.id) && q == r
    case Record(w) =>
      p.workers[w].i < |p.tags| && R.Does(r, R.RecordResult(m.id, R.Result(p.tags[p.workers[w].i], p.workers[w].ok)), q)
    case SweepRecord => p.main.i < |p.tags| && R.Does(r, R.RecordResult(m.id, R.Result(p.tags[p.main.i], false)), q)
    case Finish => (m.cause.Live? <==> !p.ended) && R.Does(r, R.FinishSession(m.id, m.cause, m.now), q)
    case _ => q == r
  }

  ghost predicate Moves(a: World, m: Move, b: World) {
    match m
    case Begin(group, owner, force, tags, concurrency, now) =>
      && T.Distinct(tags)
      && R.Does(a.registry, R.StartSession(group, owner, force, |tags|, now), b.registry)
      && b.pools ==
           if R.Reuses(a.registry, group, owner, force) then a.pools else a.pools + [P.Start(tags, concurrency)]
    case Cancel(id, now) => b.pools == a.pools && R.Does(a.registry, R.CancelSession(id, now), b.registry)
    case StopInstance(owner, error, now) =>
      b.pools == a.pools && R.Does(a.registry, R.CancelForInstance(owner, error, now), b.registry)
    case Work(id, e, _, _) =>
      && id < |a.pools| && id < |a.registry.objects| && P.Enabled(a.pools[id], e)
      && b.pools == a.pools[id := P.Step(a.pools[id], e)]
      && Touches(a.registry, a.pools[id], m, b.registry)
  }

  // ---- A session and its pool ----

  /** A target whose handler found the session current and has not recorded yet. */
  ghost predicate Pending(p: P.Pool, i: nat) {
    || (exists w :: 0 <= w < |p.workers| && p.workers[w].Recording? && p.workers[w].i == i)
    || (p.main.SweepRecording? && p.main.i == i)
  }

  /** The results are those of the targets recorded first. */
  ghost predicate Matches(s: R.Session, p: P.Pool) {
    && |s.results| <= |p.recorded|
    && (forall k | 0 <= k < |s.results| :: p.recorded[k] < |p.tags| && s.results[k].tag == p.tags[p.recorded[k]])
  }

  /** While a session runs nothing its handler was called for is lost. */
  ghost predicate Open(s: R.Session, p: P.Pool) {
    && |s.results| == |p.recorded|
    && !p.main.Done?
    && forall i: nat | i in p.calls :: i in p.recorded || Pending(p, i)
  }

  ghost predicate Agrees(s: R.Session, p: P.Pool) {
    && P.Inv(p)
    && s.total == |p.tags|
    && Matches(s, p)
    && (s.state.Running? ==> Open(s, p))
    && (s.state.Succeeded? || s.state.Unsuccessful? ==> |s.results| == s.total)
    && (s.state.Succeeded? ==> s.succeeded > 0)
  }

  ghost predicate Inv(w: World) {
    && R.Inv(w.registry)
    && |w.pools| == |w.registry.objects|
    && forall id: nat | id < |w.pools| :: Agrees(w.registry.objects[id], w.pools[id])
  }

  // ---- Moves of the registry alone ----

  ghost predicate CancelledAtMost(s: R.Session, t: R.Session) {
    t == s || t == s.(state := R.Cancelled, completedAt := t.completedAt, error := t.error)
  }

  lemma CancelsAtMost(r: R.Registry, op: R.Operation, q: R.Registry)
    requires R.Inv(r) && R.Does(r, op, q) && !op.RecordResult? && !op.FinishSession?
    ensures |r.objects| <= |q.objects|
    ensures forall id: nat | id < |r.objects| :: CancelledAtMost(r.objects[id], q.objects[id])
  {
    hide R.Inv, R.FinishedIn, R.KeepsLatest;
  }

  lemma AgreesCancelled(s: R.Session, t: R.Session, p: P.Pool)
    requires Agrees(s, p) && CancelledAtMost(s, t)
    ensures Agrees(t, p)
  {
  }

  lemma BeginKeeps(a: World, m: Move, b: World)
    requires Inv(a) && m.Begin? && Moves(a, m, b)
    ensures Inv(b)
  {
    hide P.Inv, R.Indexed, R.Counted;
    var op := R.StartSession(m.group, m.owner, m.force, |m.tags|, m.now);
    R.OperationKeeps(a.registry, op, b.registry);
    CancelsAtMost(a.registry, op, b.registry);
    P.StartHolds(m.tags, m.concurrency);
    forall id: nat | id < |a.pools| ensures Agrees(b.registry.objects[id], a.pools[id]) {
      AgreesCancelled(a.registry.objects[id], b.registry.objects[id], a.pools[id]);
    }
    if !R.Reuses(a.registry, m.group, m.owner, m.force) {
      NewAgrees(a, m, b);
    }
    hide Agrees, R.Inv, P.Start, CancelledAtMost;
  }

  lemma NewAgrees(a: World, m: Move, b: World)
    requires Inv(a) && m.Begin? && Moves(a, m, b) && !R.Reuses(a.registry, m.group, m.owner, m.force)
    ensures |b.registry.objects| == |a.registry.objects| + 1
    ensures Agrees(b.registry.objects[|a.pools|], P.Start(m.tags, m.concurrency))
  {
    P.StartHolds(m.tags, m.concurrency);
    var n := |a.registry.objects|;
    assert b.registry.objects == R.Started(a.registry, m.group, m.owner, |m.tags|, m.now).objects;
    assert b.registry.objects[n] == R.Session(m.group, m.owner, R.Running, 0, |m.tags|, 0, 0, 0, [], "");
  }

  lemma CancelKeeps(a: World, m: Move, b: World)
    requires Inv(a) && (m.Cancel? || m.StopInstance?) && Moves(a, m, b)
    ensures Inv(b)
  {
    var op := if m.Cancel? then R.CancelSession(m.id, m.now) else R.CancelForInstance(m.owner, m.error, m.now);
    R.OperationKeeps(a.registry, op, b.registry);
    CancelsAtMost(a.registry, op, b.registry);
    assert |b.registry.objects| == |a.registry.objects|;
    forall id: nat | id < |a.pools| ensures Agrees(b.registry.objects[id], a.pools[id]) {
      AgreesCancelled(a.registry.objects[id], b.registry.objects[id], a.pools[id]);
    }
  }

  // ---- Moves of a pool ----

  /** The session that steps keeps agreeing with its pool. */
  lemma WorkAgrees(a: World, m: Move, b: World)
    requires Inv(a) && m.Work? && Moves(a, m, b)
    ensures |b.registry.objects| == |a.registry.objects|
    ensures Agrees(b.registry.objects[m.id], b.pools[m.id])
  {
    var p, s := a.pools[m.id], a.registry.objects[m.id];
    assert Agrees(s, p) && P.Inv(p) && R.Indexed(a.registry, m.id) && R.Counted(s);
    hide Agrees, R.Counted, P.Inv, P.Step, R.FinishedIn, R.KeepsLatest, R.Recorded, R.Ended, Inv, R.Inv;
    P.StepKeeps(p, m.e);
    if m.e.Handle? || m.e.SweepHandle? {
      HandleAgrees(s, p, m.e);
    } else if m.e.Record? {
      RecordAgrees(s, p, m.e, p.tags[p.workers[m.e.w].i], p.workers[m.e.w].ok);
    } else if m.e.SweepRecord? {
      RecordAgrees(s, p, m.e, p.tags[p.main.i], false);
    } else if m.e.Finish? {
      FinishAgrees(s, p, m.cause, m.now);
    } else {
      QuietAgrees(s, p, m.e);
    }
  }

  /** Other sessions are left alone. */
  lemma WorkIsLocal(a: World, m: Move, b: World)
    requires Inv(a) && m.Work? && Moves(a, m, b)
    ensures forall id: nat | id < |a.pools| && id != m.id ::
      |b.registry.objects| == |a.registry.objects| && b.registry.objects[id] == a.registry.objects[id]
  {
    hide Agrees, P.Inv, P.Step, R.FinishedIn, R.KeepsLatest, R.Recorded, R.Ended, R.Inv;
  }

  lemma QuietAgrees(s: R.Session, p: P.Pool, e: P.Event)
    requires Agrees(s, p) && P.Enabled(p, e) && P.Inv(P.Step(p, e))
    requires !e.Handle? && !e.SweepHandle? && !e.Record? && !e.SweepRecord? && !e.Finish?
    ensures Agrees(s, P.Step(p, e))
  {
    var q := P.Step(p, e);
    assert q.calls == p.calls && q.recorded == p.recorded && q.tags == p.tags;
    forall i: nat | Pending(p, i) ensures Pending(q, i) {
      if w :| 0 <= w < |p.workers| && p.workers[w].Recording? && p.workers[w].i == i {
        assert q.workers[w] == p.workers[w];
      }
    }
  }

  lemma HandleAgrees(s: R.Session, p: P.Pool, e: P.Event)
    requires Agrees(s, p) && P.Enabled(p, e) && (e.Handle? || e.SweepHandle?) && P.Inv(P.Step(p, e))
    requires s.state.Running? ==> e.current
    ensures Agrees(s, P.Step(p, e))
  {
    var q := P.Step(p, e);
    var i := if e.Handle? then p.workers[e.w].i else p.main.rest[0];
    if s.state.Running? {
      assert Pending(q, i) by {
        if e.Handle? {
          assert q.workers[e.w] == P.Recording(i, e.ok);
        }
      }
      forall k: nat | k in q.calls ensures k in q.recorded || Pending(q, k) {
        if k != i && Pending(p, k) {
          StillPending(p, q, k, if e.Handle? then e.w else |p.workers|);
        }
      }
    }
  }

  lemma StillPending(p: P.Pool, q: P.Pool, k: nat, moved: nat)
    requires Pending(p, k) && |q.workers| == |p.workers|
    requires forall w | 0 <= w < |p.workers| && w != moved :: q.workers[w] == p.workers[w]
    requires moved < |p.workers| ==> !p.workers[moved].Recording? || p.workers[moved].i != k
    requires p.main.SweepRecording? && p.main.i == k ==> q.main == p.main
    ensures Pending(q, k)
  {
    if w :| 0 <= w < |p.workers| && p.workers[w].Recording? && p.workers[w].i == k {
      assert q.workers[w] == p.workers[w];
    }
  }

  lemma RecordAgrees(s: R.Session, p: P.Pool, e: P.Event, tag: string, ok: bool)
    requires Agrees(s, p) && R.Counted(s) && P.Enabled(p, e) && (e.Record? || e.SweepRecord?) && P.Inv(P.Step(p, e))
    requires var i := if e.Record? then p.workers[e.w].i else p.main.i; i < |p.tags| && tag == p.tags[i]
    ensures Agrees(R.Recorded(s, R.Result(tag, ok)), P.Step(p, e))
  {
    var q := P.Step(p, e);
    var i := if e.Record? then p.workers[e.w].i else p.main.i;
    var t := R.Recorded(s, R.Result(tag, ok));
    assert q.recorded == p.recorded + [i] && q.tags == p.tags && q.calls == p.calls;
    forall k | 0 <= k < |t.results| ensures q.recorded[k] < |q.tags| && t.results[k].tag == q.tags[q.recorded[k]] {
      if k < |s.results| {
        assert t.results[k] == s.results[k] && q.recorded[k] == p.recorded[k];
      }
    }
    if s.state.Running? {
      forall k: nat | k in q.calls ensures k in q.recorded || Pending(q, k) {
        if k != i && Pending(p, k) {
          StillPending(p, q, k, if e.Record? then e.w else |p.workers|);
        }
      }
    }
  }

  /** A runner that finishes a session still running has recorded a result for every target. */
  lemma FinishAgrees(s: R.Session, p: P.Pool, cause: R.Cause, now: int)
    requires Agrees(s, p) && P.Enabled(p, P.Finish) && P.Inv(P.Step(p, P.Finish))
    ensures Agrees(R.Ended(s, cause, now), P.Step(p, P.Finish))
  {
    if s.state.Running? {
      forall i: nat | i < |p.tags| ensures i in p.recorded {
        assert i in p.calls;
        assert !Pending(p, i);
      }
      OnceIsShort(p.recorded, |p.tags|);
    }
  }

  lemma MoveKeeps(a: World, m: Move, b: World)
    requires Inv(a) && Moves(a, m, b)
    ensures Inv(b)
  {
    match m
    case Begin(_, _, _, _, _, _) => BeginKeeps(a, m, b);
    case Cancel(_, _) => CancelKeeps(a, m, b);
    case StopInstance(_, _, _) => CancelKeeps(a, m, b);
    case Work(id, e, _, _) =>
      WorkAgrees(a, m, b);
      WorkIsLocal(a, m, b);
      WorkKeepsRegistry(a, m, b);
      forall k: nat | k < |b.pools| ensures Agrees(b.registry.objects[k], b.pools[k]) {
        assert Agrees(a.registry.objects[k], a.pools[k]);
      }
  }

  lemma WorkKeepsRegistry(a: World, m: Move, b: World)
    requires Inv(a) && m.Work? && Moves(a, m, b)
    ensures R.Inv(b.registry)
  {
    var p := a.pools[m.id];
    if m.e.Record? {
      var result := R.Result(p.tags[p.workers[m.e.w].i], p.workers[m.e.w].ok);
      R.OperationKeeps(a.registry, R.RecordResult(m.id, result), b.registry);
    } else if m.e.SweepRecord? {
      R.OperationKeeps(a.registry, R.RecordResult(m.id, R.Result(p.tags[p.main.i], false)), b.registry);
    } else if m.e.Finish? {
      R.OperationKeeps(a.registry, R.FinishSession(m.id, m.cause, m.now), b.registry);
    }
  }

  ghost predicate IsHistory(ws: seq<World>, ms: seq<Move>) {
    && |ws| == |ms| + 1 && ws[0] == World(R.EMPTY, [])
    && forall i | 0 <= i < |ms| :: Moves(ws[i], ms[i], ws[i + 1])
  }

  lemma {:induction false} HistoryKeeps(ws: seq<World>, ms: seq<Move>, n: nat)
    requires IsHistory(ws, ms) && n <= |ms|
    ensures Inv(ws[n])
  {
    if n > 0 {
      HistoryKeeps(ws, ms, n - 1);
      MoveKeeps(ws[n - 1], ms[n - 1], ws[n - 1 + 1]);
    }
  }

  /** The results are of targets of the session, none twice. */
  ghost predicate ResultsOncePerTarget(s: R.Session, tags: seq<string>) {
    && (forall k | 0 <= k < |s.results| :: s.results[k].tag in tags)
    && forall j, k | 0 <= j < k < |s.results| :: s.results[j].tag != s.results[k].tag
  }

  /**
   * In every history of starts, cancellations and pool steps, every session counts its results
   * right, never beyond its targets and never two for one target; a session that ended as
   * succeeded or failed has a result for every target.
   */
  lemma SessionsCountRight(ws: seq<World>, ms: seq<Move>, n: nat, id: nat)
    requires IsHistory(ws, ms) && n <= |ms| && id < |ws[n].registry.objects|
    ensures var s := ws[n].registry.objects[id];
      && id < |ws[n].pools|
      && s.completed == s.succeeded + s.failed == |s.results| <= s.total
      && ResultsOncePerTarget(s, ws[n].pools[id].tags)
      && (s.state.Succeeded? || s.state.Unsuccessful? ==> s.completed == s.total)
      && (s.state.Succeeded? ==> s.succeeded > 0)
  {
    HistoryKeeps(ws, ms, n);
    var s, p := ws[n].registry.objects[id], ws[n].pools[id];
    assert Agrees(s, p) && R.Indexed(ws[n].registry, id) && R.Counted(s);
    OnceIsShort(p.recorded, |p.tags|);
    forall j, k | 0 <= j < k < |s.results| ensures s.results[j].tag != s.results[k].tag {
      assert p.recorded[j] != p.recorded[k];
    }
  }
}
