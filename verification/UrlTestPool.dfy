/**
 * The worker pool of a URL-test session as a step system: any number of workers, cancellation at
 * any moment, and the final sweep over the targets nobody measured. Targets are named by their
 * position; the handled table of the source is keyed by tag.
 */
module UrlTestPool {
  import opened Counting
  import opened UrlTestTargets

  datatype Worker =
    | Ready
    | Taken(i: nat)              // took a job, has not looked at the context again
    | Probing(i: nat)
    | Recording(i: nat, ok: bool) // inside the handler, found its session current
    | Marking(i: nat)            // the handler returned, the target is not marked handled yet
    | Gone

  datatype Main = Waiting | Sweeping(rest: seq<nat>) | SweepRecording(i: nat, rest: seq<nat>) | Done

  datatype Pool = Pool(
    tags: seq<string>,
    next: nat,            // jobs taken out of the queue
    ended: bool,          // the session's context
    workers: seq<Worker>,
    handled: set<string>,
    main: Main,
    calls: seq<nat>,      // targets passed to the handler, in order
    recorded: seq<nat>    // targets the handler handed to the registry
  )

  datatype Event =
    | EndContext
    | Leave(w: nat)
    | Take(w: nat)
    | Drain(w: nat)
    | Recheck(w: nat)
    | Handle(w: nat, current: bool, ok: bool)
    | Record(w: nat)
    | Mark(w: nat)
    | Collect
    | SweepHandle(current: bool)
    | SweepRecord
    | Finish

  function WorkerCount(concurrency: int, targets: nat): nat {
    var n := if concurrency <= 0 then 1 else concurrency;
    if n > targets then targets else n
  }

  function Start(tags: seq<string>, concurrency: int): Pool {
    Pool(tags, 0, false, seq(WorkerCount(concurrency, |tags|), _ => Ready), {}, Waiting, [], [])
  }

  function Unmeasured(tags: seq<string>, handled: set<string>, n: nat): seq<nat>
    requires n <= |tags|
  {
    if n == 0 then [] else Unmeasured(tags, handled, n - 1) + (if tags[n - 1] in handled then [] else [n - 1])
  }

  predicate AllGone(workers: seq<Worker>) {
    forall w | 0 <= w < |workers| :: workers[w].Gone?
  }

  predicate Enabled(p: Pool, e: Event) {
    match e
    case EndContext => !p.ended
    case Leave(w) => w < |p.workers| && p.workers[w].Ready? && p.ended
    case Take(w) => w < |p.workers| && p.workers[w].Ready? && p.next < |p.tags|
    case Drain(w) => w < |p.workers| && p.workers[w].Ready? && p.next >= |p.tags|
    case Recheck(w) => w < |p.workers| && p.workers[w].Taken?
    case Handle(w, _, _) => w < |p.workers| && p.workers[w].Probing?
    case Record(w) => w < |p.workers| && p.workers[w].Recording?
    case Mark(w) => w < |p.workers| && p.workers[w].Marking? && p.workers[w].i < |p.tags|
    case Collect => p.main.Waiting? && AllGone(p.workers)
    case SweepHandle(_) => p.main.Sweeping? && p.main.rest != []
    case SweepRecord => p.main.SweepRecording?
    case Finish => p.main.Sweeping? && p.main.rest == []
  }

  function At(p: Pool, w: nat, x: Worker): Pool
    requires w < |p.workers|
  {
    p.(workers := p.workers[w := x])
  }

  function Step(p: Pool, e: Event): Pool
    requires Enabled(p, e)
  {
    match e
    case EndContext => p.(ended := true)
    case Leave(w) => At(p, w, Gone)
    case Take(w) => At(p, w, Taken(p.next)).(next := p.next + 1)
    case Drain(w) => At(p, w, Gone)
    case Recheck(w) => At(p, w, if p.ended then Gone else Probing(p.workers[w].i))
    case Handle(w, current, ok) =>
      var i := p.workers[w].i;
      At(p, w, if current then Recording(i, ok) else Marking(i)).(calls := p.calls + [i])
    case Record(w) =>
      var i := p.workers[w].i;
      At(p, w, Marking(i)).(recorded := p.recorded + [i])
    case Mark(w) => At(p, w, Ready).(handled := p.handled + {p.tags[p.workers[w].i]})
    case Collect => p.(main := Sweeping(Unmeasured(p.tags, p.handled, |p.tags|)))
    case SweepHandle(current) =>
      var i, rest := p.main.rest[0], p.main.rest[1..];
      p.(calls := p.calls + [i], main := if current then SweepRecording(i, rest) else Sweeping(rest))
    case SweepRecord => p.(recorded := p.recorded + [p.main.i], main := Sweeping(p.main.rest))
    case Finish => p.(main := Done)
  }

  predicate IsRun(p: Pool, es: seq<Event>)
    decreases |es|
  {
    es == [] || (Enabled(p, es[0]) && IsRun(Step(p, es[0]), es[1..]))
  }

  function After(p: Pool, es: seq<Event>): Pool
    requires IsRun(p, es)
    decreases |es|
  {
    if es == [] then p else After(Step(p, es[0]), es[1..])
  }

  // ---- What every step keeps ----

  /** A job whose handler call is under way. */
  ghost predicate UnderWay(x: Worker, i: nat) {
    (x.Recording? || x.Marking?) && x.i == i
  }

  ghost predicate WorkerOk(p: Pool, x: Worker) {
    && (x.Taken? || x.Probing? ==> x.i < p.next && x.i !in p.calls)
    && (x.Recording? || x.Marking? ==> x.i < p.next && x.i in p.calls)
    && (x.Recording? ==> x.i !in p.recorded)
  }

  ghost predicate Apart(workers: seq<Worker>) {
    forall v, w | 0 <= v < w < |workers| ::
      workers[v].Gone? || workers[w].Gone? || workers[v].Ready? || workers[w].Ready? || workers[v].i != workers[w].i
  }

  ghost predicate Settled(p: Pool, i: nat)
    requires i < |p.tags|
  {
    p.tags[i] in p.handled || exists w :: 0 <= w < |p.workers| && UnderWay(p.workers[w], i)
  }

  /** Before the sweep a target was passed to the handler iff it is marked or its call is under way. */
  ghost predicate WaitingOk(p: Pool) {
    && (forall i: nat | i < |p.tags| :: i in p.calls <==> Settled(p, i))
    && forall i: nat | i in p.calls :: i < p.next
  }

  /** During the sweep the targets left are exactly those never passed to the handler. */
  ghost predicate SweepOk(p: Pool, rest: seq<nat>) {
    && AllGone(p.workers)
    && Once(rest, |p.tags|)
    && forall i: nat | i < |p.tags| :: i in p.calls <==> i !in rest
  }

  ghost predicate MainOk(p: Pool) {
    match p.main
    case Waiting => WaitingOk(p)
    case Sweeping(rest) => SweepOk(p, rest)
    case SweepRecording(i, rest) => SweepOk(p, rest) && i in p.calls && i !in p.recorded
    case Done => SweepOk(p, [])
  }

  ghost predicate Inv(p: Pool) {
    && Distinct(p.tags)
    && p.next <= |p.tags|
    && Once(p.calls, |p.tags|)
    && Once(p.recorded, |p.tags|)
    && (forall i | i in p.recorded :: i in p.calls)
    && (forall w | 0 <= w < |p.workers| :: WorkerOk(p, p.workers[w]))
    && Apart(p.workers)
    && MainOk(p)
  }

  lemma StartHolds(tags: seq<string>, concurrency: int)
    requires Distinct(tags)
    ensures Inv(Start(tags, concurrency))
  {
    var p := Start(tags, concurrency);
    forall i: nat | i < |tags| ensures !Settled(p, i) {
      assert forall w | 0 <= w < |p.workers| :: !UnderWay(p.workers[w], i);
    }
  }

  /** A worker that is not gone works before the sweep. */
  lemma WorkingIsWaiting(p: Pool, w: nat)
    requires Inv(p) && w < |p.workers| && !p.workers[w].Gone?
    ensures p.main.Waiting?
  {
  }

  /** Whether a target is settled, after one worker moved. */
  lemma SettledAfter(p: Pool, q: Pool, w: nat, i: nat)
    requires w < |p.workers| == |q.workers| && i < |p.tags| && q.tags == p.tags
    requires forall v | 0 <= v < |p.workers| && v != w :: q.workers[v] == p.workers[v]
    ensures Settled(q, i) <==> (q.tags[i] in q.handled || UnderWay(q.workers[w], i) || ElsewhereUnderWay(p, w, i))
    ensures Settled(p, i) <==> (p.tags[i] in p.handled || UnderWay(p.workers[w], i) || ElsewhereUnderWay(p, w, i))
  {
    if v :| 0 <= v < |p.workers| && v != w && UnderWay(p.workers[v], i) {
      assert UnderWay(q.workers[v], i);
    }
  }

  ghost predicate ElsewhereUnderWay(p: Pool, w: nat, i: nat) {
    exists v :: 0 <= v < |p.workers| && v != w && UnderWay(p.workers[v], i)
  }

  lemma QuietKeeps(p: Pool, e: Event)
    requires Inv(p) && Enabled(p, e) && (e.Leave? || e.Drain? || e.Take? || e.Recheck?)
    ensures Inv(Step(p, e))
  {
    WorkingIsWaiting(p, e.w);
    var q := Step(p, e);
    forall i: nat | i < |p.tags| ensures i in q.calls <==> Settled(q, i) {
      SettledAfter(p, q, e.w, i);
    }
    forall v | 0 <= v < |q.workers| ensures WorkerOk(q, q.workers[v]) {
      assert WorkerOk(p, p.workers[v]);
    }
  }

  lemma HandleKeeps(p: Pool, e: Event)
    requires Inv(p) && Enabled(p, e) && e.Handle?
    ensures Inv(Step(p, e))
  {
    WorkingIsWaiting(p, e.w);
    var q := Step(p, e);
    assert WorkerOk(p, p.workers[e.w]);
    forall i: nat | i < |p.tags| ensures i in q.calls <==> Settled(q, i) {
      SettledAfter(p, q, e.w, i);
    }
    forall v | 0 <= v < |q.workers| ensures WorkerOk(q, q.workers[v]) {
      assert WorkerOk(p, p.workers[v]);
    }
  }

  lemma RecordKeeps(p: Pool, e: Event)
    requires Inv(p) && Enabled(p, e) && e.Record?
    ensures Inv(Step(p, e))
  {
    WorkingIsWaiting(p, e.w);
    var q := Step(p, e);
    assert WorkerOk(p, p.workers[e.w]);
    forall i: nat | i < |p.tags| ensures i in q.calls <==> Settled(q, i) {
      SettledAfter(p, q, e.w, i);
    }
    forall v | 0 <= v < |q.workers| ensures WorkerOk(q, q.workers[v]) {
      assert WorkerOk(p, p.workers[v]);
    }
  }

  lemma MarkKeeps(p: Pool, e: Event)
    requires Inv(p) && Enabled(p, e) && e.Mark?
    ensures Inv(Step(p, e))
  {
    WorkingIsWaiting(p, e.w);
    var q := Step(p, e);
    var k := p.workers[e.w].i;
    assert WorkerOk(p, p.workers[e.w]);
    forall i: nat | i < |p.tags| ensures i in q.calls <==> Settled(q, i) {
      SettledAfter(p, q, e.w, i);
      assert i != k ==> p.tags[i] != p.tags[k];
    }
    forall v | 0 <= v < |q.workers| ensures WorkerOk(q, q.workers[v]) {
      assert WorkerOk(p, p.workers[v]);
    }
  }

  lemma {:induction false} UnmeasuredIs(tags: seq<string>, handled: set<string>, n: nat)
    requires n <= |tags|
    ensures var u := Unmeasured(tags, handled, n);
      && Once(u, n) && |u| <= n
      && forall i: nat | i < n :: i in u <==> tags[i] !in handled
  {
    if n > 0 {
      UnmeasuredIs(tags, handled, n - 1);
    }
  }

  lemma CollectKeeps(p: Pool)
    requires Inv(p) && Enabled(p, Collect)
    ensures Inv(Step(p, Collect))
  {
    UnmeasuredIs(p.tags, p.handled, |p.tags|);
    forall i: nat | i < |p.tags| ensures Settled(p, i) <==> p.tags[i] in p.handled {
      assert forall w | 0 <= w < |p.workers| :: !UnderWay(p.workers[w], i);
    }
    var q := Step(p, Collect);
    assert forall w | 0 <= w < |q.workers| :: WorkerOk(p, p.workers[w]);
  }

  lemma SweepKeeps(p: Pool, e: Event)
    requires Inv(p) && Enabled(p, e) && (e.SweepRecord? || e.Finish?)
    ensures Inv(Step(p, e))
  {
    var q := Step(p, e);
    assert AllGone(q.workers);
    if e.SweepRecord? {
      assert p.main.i < |p.tags|;
      OnceMore(p.recorded, p.main.i, |p.tags|);
    }
  }

  lemma SweepHandleKeeps(p: Pool, e: Event)
    requires Inv(p) && Enabled(p, e) && e.SweepHandle?
    ensures Inv(Step(p, e))
  {
    var q := Step(p, e);
    var i, rest := p.main.rest[0], p.main.rest[1..];
    assert p.main.rest == [i] + rest;
    assert i in p.main.rest && i !in rest && i < |p.tags|;
    assert forall k :: k in p.main.rest <==> k == i || k in rest;
    OnceMore(p.calls, i, |p.tags|);
    assert Once(rest, |p.tags|);
    assert forall k :: k in q.calls <==> k in p.calls || k == i;
    assert AllGone(q.workers);
  }

  lemma EndContextKeeps(p: Pool)
    requires Inv(p) && Enabled(p, EndContext)
    ensures Inv(Step(p, EndContext))
  {
    var q := Step(p, EndContext);
    assert q.workers == p.workers;
    forall w | 0 <= w < |q.workers| ensures WorkerOk(q, q.workers[w]) {
      assert WorkerOk(p, p.workers[w]);
    }
    assert forall i: nat | i < |p.tags| :: Settled(p, i) == Settled(q, i);
    assert p.main.Waiting? || AllGone(q.workers);
  }

  lemma StepKeeps(p: Pool, e: Event)
    requires Inv(p) && Enabled(p, e)
    ensures Inv(Step(p, e)) && Step(p, e).tags == p.tags
  {
    match e
    case EndContext => EndContextKeeps(p);
    case Collect => CollectKeeps(p);
    case Handle(_, _, _) => HandleKeeps(p, e);
    case Record(_) => RecordKeeps(p, e);
    case Mark(_) => MarkKeeps(p, e);
    case Leave(_) => QuietKeeps(p, e);
    case Take(_) => QuietKeeps(p, e);
    case Drain(_) => QuietKeeps(p, e);
    case Recheck(_) => QuietKeeps(p, e);
    case SweepHandle(_) => SweepHandleKeeps(p, e);
    case SweepRecord => SweepKeeps(p, e);
    case Finish => SweepKeeps(p, e);
  }

  lemma {:induction false} RunKeeps(p: Pool, es: seq<Event>)
    requires Inv(p) && IsRun(p, es)
    ensures Inv(After(p, es)) && After(p, es).tags == p.tags
    decreases |es|
  {
    if es != [] {
      StepKeeps(p, es[0]);
      RunKeeps(Step(p, es[0]), es[1..]);
    }
  }

  /**
   * In every interleaving of the workers, the sweep and cancellation, the handler is never called
   * twice for a target, and once the pool is done it was called exactly once for each.
   */
  lemma HandledExactlyOnce(tags: seq<string>, concurrency: int, es: seq<Event>)
    requires Distinct(tags) && IsRun(Start(tags, concurrency), es)
    ensures var p := After(Start(tags, concurrency), es);
      && Once(p.calls, |tags|) && |p.calls| <= |tags|
      && (p.main.Done? ==> |p.calls| == |tags| && forall i: nat | i < |tags| :: multiset(p.calls)[i] == 1)
  {
    StartHolds(tags, concurrency);
    RunKeeps(Start(tags, concurrency), es);
    var p := After(Start(tags, concurrency), es);
    OnceIsShort(p.calls, |tags|);
    if p.main.Done? {
      forall i: nat | i < |tags| ensures multiset(p.calls)[i] == 1 {
        assert i in p.calls;
        CountOnce(p.calls, i);
      }
    }
  }

  /** After the end of the context no probe starts: whoever probes was probing that target already. */
  lemma {:induction false} NoProbeAfterTheEnd(p: Pool, es: seq<Event>, w: nat)
    requires p.ended && IsRun(p, es) && w < |p.workers|
    ensures |After(p, es).workers| == |p.workers|
    ensures After(p, es).workers[w].Probing? ==> After(p, es).workers[w] == p.workers[w]
    decreases |es|
  {
    if es != [] {
      NoProbeAfterTheEnd(Step(p, es[0]), es[1..], w);
    }
  }

  // ---- The pool always ends ----

  function Weight(x: Worker): nat {
    match x
    case Gone => 0
    case Ready => 1
    case Marking(_) => 2
    case Recording(_, _) => 3
    case Probing(_) => 4
    case Taken(_) => 5
  }

  function Weights(workers: seq<Worker>): nat {
    if workers == [] then 0 else Weight(workers[0]) + Weights(workers[1..])
  }

  function MainWeight(p: Pool): nat {
    match p.main
    case Waiting => 2 * |p.tags| + 3
    case Sweeping(rest) => 2 * |rest| + 2
    case SweepRecording(_, rest) => 2 * |rest| + 3
    case Done => 0
  }

  function Measure(p: Pool): int {
    6 * (|p.tags| - p.next) + Weights(p.workers) + MainWeight(p) + (if p.ended then 0 else 1)
  }

  lemma {:induction false} WeightsAfter(workers: seq<Worker>, w: nat, x: Worker)
    requires w < |workers|
    ensures Weights(workers[w := x]) == Weights(workers) - Weight(workers[w]) + Weight(x)
  {
    if w > 0 {
      assert workers[w := x][1..] == workers[1..][w - 1 := x];
      WeightsAfter(workers[1..], w - 1, x);
    }
  }

  lemma StepSpends(p: Pool, e: Event)
    requires Enabled(p, e)
    ensures Measure(Step(p, e)) < Measure(p)
  {
    hide Weights, Unmeasured, AllGone;
    if e.Collect? {
      UnmeasuredIs(p.tags, p.handled, |p.tags|);
    } else if !e.EndContext? && !e.SweepHandle? && !e.SweepRecord? && !e.Finish? {
      WeightsAfter(p.workers, e.w, Step(p, e).workers[e.w]);
    }
  }

  /** While the pool is not done, some step other than a cancellation can be taken. */
  lemma NeverStuck(p: Pool) returns (e: Event)
    requires Inv(p) && !p.main.Done?
    ensures Enabled(p, e) && !e.EndContext?
  {
    match p.main
    case SweepRecording(_, _) => e := SweepRecord;
    case Sweeping(rest) => e := if rest == [] then Finish else SweepHandle(true);
    case Waiting =>
      if AllGone(p.workers) {
        e := Collect;
      } else {
        var w: nat :| w < |p.workers| && !p.workers[w].Gone?;
        assert WorkerOk(p, p.workers[w]);
        e := match p.workers[w]
          case Ready => (if p.next < |p.tags| then Take(w) else Drain(w))
          case Taken(_) => Recheck(w)
          case Probing(_) => Handle(w, true, true)
          case Recording(_, _) => Record(w)
          case Marking(_) => Mark(w)
          case Gone => Collect;
      }
  }

  lemma {:induction false} RunSpends(p: Pool, es: seq<Event>)
    requires Inv(p) && IsRun(p, es)
    ensures Measure(After(p, es)) + |es| <= Measure(p)
    ensures Inv(After(p, es)) && Measure(After(p, es)) >= 0
    decreases |es|
  {
    if es != [] {
      StepSpends(p, es[0]);
      StepKeeps(p, es[0]);
      RunSpends(Step(p, es[0]), es[1..]);
    }
  }

  lemma {:induction false} ReadyWeights(n: nat)
    ensures Weights(seq(n, _ => Ready)) == n
  {
    if n > 0 {
      assert seq(n, _ => Ready)[1..] == seq(n - 1, _ => Ready);
      ReadyWeights(n - 1);
    }
  }

  /** Every run is bounded by the number of targets, and only a finished pool has no step left. */
  lemma PoolAlwaysEnds(tags: seq<string>, concurrency: int, es: seq<Event>)
    requires Distinct(tags) && IsRun(Start(tags, concurrency), es)
    ensures |es| <= 9 * |tags| + 4
    ensures var p := After(Start(tags, concurrency), es);
      p.main.Done? || exists e :: Enabled(p, e) && !e.EndContext?
  {
    var p := Start(tags, concurrency);
    StartHolds(tags, concurrency);
    RunSpends(p, es);
    ReadyWeights(WorkerCount(concurrency, |tags|));
    if !After(p, es).main.Done? {
      var e := NeverStuck(After(p, es));
    }
  }
}
