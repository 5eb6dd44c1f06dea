/**
 * Starting, reloading and stopping the managed service. A lifecycle call interrupts a start in
 * progress, queues for the lifecycle lock, and then alternates between critical sections under
 * the service lock and slow work outside it. Any other call may come in between.
 */
module ServiceLifecycle {
  import opened Options

  datatype Status = Idle | Starting | Started | Stopping | Fatal

  /** Where the call that holds the lifecycle lock stands; Free when nobody holds it. */
  datatype Call =
    | Free
    | StartEntered
    | ClosingOld(previous: nat)
    | OldClosed
    | Building
    | BuildFailed
    | Built(id: nat)
    | Running(id: nat)
    | Ran(id: nat, succeeded: bool)
    | Discarding(id: nat)
    | StopEntered
    | ClosingCurrent(current: Option<nat>)
    | StopClosed

  /**
   * `built` counts the instances ever built, `closings` how often each was closed, `waiting` the
   * calls that have interrupted and now queue for the lifecycle lock.
   */
  datatype Service = Service(
    instance: Option<nat>,
    status: Status,
    startInterrupted: bool,
    closed: bool,
    call: Call,
    waiting: nat,
    built: nat,
    closings: multiset<nat>,
    cancelled: set<nat>)

  const NEW_SERVICE := Service(None, Idle, false, false, Free, 0, 0, multiset{}, {})

  /** Arrive: interrupt and queue. Work: the next step of the running call, with the outcome of slow work. */
  datatype Event = Arrive | EnterStart | EnterStop | Work(succeeds: bool) | SetError | Close

  predicate Enabled(s: Service, e: Event) {
    match e
    case EnterStart => s.call.Free? && s.waiting > 0
    case EnterStop => s.call.Free? && s.waiting > 0
    case Work(_) => !s.call.Free?
    case _ => true
  }

  function Interrupt(s: Service): Service {
    if s.status.Starting? && s.instance.Some?
    then s.(startInterrupted := true, cancelled := s.cancelled + {s.instance.value})
    else s
  }

  function CloseInstance(s: Service, id: nat): Service {
    s.(closings := s.closings + multiset{id}, cancelled := s.cancelled + {id})
  }

  /** The critical section that begins a start: refuse when closed, take the old instance away. */
  function BeginStart(s: Service): Service {
    if s.closed then s.(call := Free)
    else if s.instance.Some? then s.(instance := None, status := Stopping, call := ClosingOld(s.instance.value))
    else AnnounceStart(s)
  }

  function AnnounceStart(s: Service): Service {
    s.(startInterrupted := false, status := Starting, call := Building)
  }

  /** The critical section after the new instance has run its start. */
  function ConcludeStart(s: Service, id: nat, succeeded: bool): Service {
    if s.startInterrupted then s.(startInterrupted := false, instance := None, call := Discarding(id))
    else if !succeeded then s.(instance := None, status := Fatal, call := Discarding(id))
    else s.(status := Started, call := Free)
  }

  function BeginStop(s: Service): Service {
    if s.instance.None? && !s.status.Starting? && !s.status.Started? then s.(call := Free)
    else s.(instance := None, status := Stopping, call := ClosingCurrent(s.instance))
  }

  function Step(s: Service, e: Event): Service
    requires Enabled(s, e)
  {
    match e
    case Arrive => Interrupt(s).(waiting := s.waiting + 1)
    case EnterStart => s.(waiting := s.waiting - 1, call := StartEntered)
    case EnterStop => s.(waiting := s.waiting - 1, call := StopEntered)
    case SetError => s.(status := Fatal)
    case Close => s.(closed := true)
    case Work(succeeds) =>
      match s.call
      case Free => s
      case StartEntered => BeginStart(s)
      case ClosingOld(previous) => CloseInstance(s, previous).(call := OldClosed)
      case OldClosed => AnnounceStart(s)
      case Building => if succeeds then s.(built := s.built + 1, call := Built(s.built)) else s.(call := BuildFailed)
      case BuildFailed => s.(status := Fatal, call := Free)
      case Built(id) => s.(instance := Some(id), call := Running(id))
      case Running(id) => s.(call := Ran(id, succeeds))
      case Ran(id, succeeded) => ConcludeStart(s, id, succeeded)
      case Discarding(id) => CloseInstance(s, id).(call := Free)
      case StopEntered => BeginStop(s)
      case ClosingCurrent(current) =>
        (if current.Some? then CloseInstance(s, current.value) else s).(call := StopClosed)
      case StopClosed => s.(status := Idle, call := Free)
  }

  // ---- What every interleaving keeps ----

  /** The instance the running call has in its hands. */
  function Held(c: Call): Option<nat> {
    match c
    case ClosingOld(previous) => Some(previous)
    case Built(id) => Some(id)
    case Running(id) => Some(id)
    case Ran(id, _) => Some(id)
    case Discarding(id) => Some(id)
    case ClosingCurrent(current) => current
    case _ => None
  }

  predicate InService(c: Call) {
    c.Running? || c.Ran?
  }

  /** How often the instance was closed, plus one while it is current or held. */
  ghost function Uses(s: Service, id: nat): nat {
    s.closings[id] + if s.instance == Some(id) || Held(s.call) == Some(id) then 1 else 0
  }

  /** Every instance built is current, held by the running call, or closed exactly once. */
  ghost predicate Accounted(s: Service) {
    forall id: nat :: Uses(s, id) == if id < s.built then 1 else 0
  }

  /** The calls during which the service has no current instance. */
  predicate Vacant(c: Call) {
    !c.Free? && !c.StartEntered? && !c.StopEntered? && !InService(c)
  }

  ghost predicate Consistent(s: Service) {
    && (s.status.Started? ==> s.instance.Some? && !InService(s.call))
    && (InService(s.call) ==> s.instance == Held(s.call))
    && (Vacant(s.call) ==> s.instance.None?)
    && (s.instance.Some? && !InService(s.call) ==> s.status.Started? || s.status.Fatal?)
    && (s.startInterrupted ==> InService(s.call) && s.waiting > 0)
    && (s.status.Stopping? ==> s.call.ClosingOld? || s.call.OldClosed? || s.call.ClosingCurrent? || s.call.StopClosed?)
    && (s.status.Starting? && s.call.Free? ==> s.waiting > 0 || s.closed)
    && (s.status.Starting? && s.call.Discarding? ==> s.waiting > 0)
  }

  lemma StepKeepsConsistent(s: Service, e: Event)
    requires Consistent(s) && Enabled(s, e)
    ensures Consistent(Step(s, e))
  {
    if e.Work? {
      WorkKeepsConsistent(s, e.succeeds);
      hide Step;
    }
  }

  lemma WorkKeepsConsistent(s: Service, succeeds: bool)
    requires Consistent(s) && !s.call.Free?
    ensures Consistent(Step(s, Work(succeeds)))
  {
    if s.call.Ran? || s.call.StopEntered? || s.call.StartEntered? {
      SectionKeepsConsistent(s);
      hide Consistent;
    } else {
      SlowWorkKeepsConsistent(s, succeeds);
      hide Consistent, Step;
    }
  }

  lemma SlowWorkKeepsConsistent(s: Service, succeeds: bool)
    requires Consistent(s) && !s.call.Free? && !s.call.Ran? && !s.call.StopEntered? && !s.call.StartEntered?
    ensures Consistent(Step(s, Work(succeeds)))
  {
    hide ConcludeStart, BeginStop, BeginStart;
  }

  /** The three critical sections that decide something. */
  lemma SectionKeepsConsistent(s: Service)
    requires Consistent(s)
    ensures s.call.Ran? ==> Consistent(ConcludeStart(s, s.call.id, s.call.succeeded))
    ensures s.call.StopEntered? ==> Consistent(BeginStop(s))
    ensures s.call.StartEntered? ==> Consistent(BeginStart(s))
  {
  }

  /** Closing a held instance moves it from held to closed. */
  lemma CloseCounts(s: Service, closing: nat, id: nat)
    ensures CloseInstance(s, closing).closings[id] == s.closings[id] + if id == closing then 1 else 0
  {
  }

  lemma StepKeepsUses(s: Service, e: Event, id: nat)
    requires Consistent(s) && Enabled(s, e) && Uses(s, id) == if id < s.built then 1 else 0
    ensures Uses(Step(s, e), id) == if id < Step(s, e).built then 1 else 0
  {
    assert Vacant(s.call) ==> s.instance.None?;
    assert InService(s.call) ==> s.instance == Held(s.call);
    hide Consistent;
    if e.Work? {
      if s.call.ClosingOld? || s.call.Discarding? || s.call.ClosingCurrent? {
        CloseKeepsUses(s, e.succeeds, id);
      } else {
        SectionKeepsUses(s, e.succeeds, id);
      }
      hide Step, Uses;
    }
  }

  /** The slow work that closes an instance: it moves from held to closed. */
  lemma CloseKeepsUses(s: Service, succeeds: bool, id: nat)
    requires s.call.ClosingOld? || s.call.Discarding? || s.call.ClosingCurrent?
    requires s.instance.None? && Uses(s, id) == if id < s.built then 1 else 0
    ensures var q := Step(s, Work(succeeds)); Uses(q, id) == if id < q.built then 1 else 0
  {
    if Held(s.call).Some? {
      CloseCounts(s, Held(s.call).value, id);
    }
    hide CloseInstance;
  }

  /** Everything else a call does: an instance is built, moves between current and held, or stays. */
  lemma SectionKeepsUses(s: Service, succeeds: bool, id: nat)
    requires !s.call.Free? && !s.call.ClosingOld? && !s.call.Discarding? && !s.call.ClosingCurrent?
    requires (Vacant(s.call) ==> s.instance.None?) && (InService(s.call) ==> s.instance == Held(s.call))
    requires Uses(s, id) == if id < s.built then 1 else 0
    ensures var q := Step(s, Work(succeeds)); Uses(q, id) == if id < q.built then 1 else 0
  {
    hide CloseInstance;
  }

  lemma StepKeepsAccounted(s: Service, e: Event)
    requires Accounted(s) && Consistent(s) && Enabled(s, e)
    ensures Accounted(Step(s, e))
  {
    var s' := Step(s, e);
    hide Step, Consistent, Enabled;
    forall id: nat
      ensures Uses(s', id) == if id < s'.built then 1 else 0
    {
      assert Uses(s, id) == if id < s.built then 1 else 0;
      StepKeepsUses(s, e, id);
    }
  }

  /** An instance is cancelled when it is closed, and before that only while its start is interrupted. */
  ghost predicate CancelledRightly(s: Service, id: nat) {
    && (s.closings[id] > 0 ==> id in s.cancelled)
    && (id in s.cancelled ==>
          s.closings[id] > 0 || (Held(s.call) == Some(id) && (s.startInterrupted || s.call.Discarding?)))
    && (s.startInterrupted && s.instance == Some(id) ==> id in s.cancelled)
  }

  lemma StepKeepsCancelled(s: Service, e: Event, id: nat)
    requires Consistent(s) && Enabled(s, e) && CancelledRightly(s, id)
    ensures CancelledRightly(Step(s, e), id)
  {
    assert Vacant(s.call) ==> s.instance.None?;
    assert InService(s.call) ==> s.instance == Held(s.call);
    assert s.startInterrupted ==> InService(s.call);
    assert s.status.Starting? && s.instance.Some? ==> InService(s.call);
    hide Consistent;
    if e.Work? {
      WorkKeepsCancelled(s, e.succeeds, id);
      hide Step, CancelledRightly;
    }
  }

  lemma WorkKeepsCancelled(s: Service, succeeds: bool, id: nat)
    requires !s.call.Free? && CancelledRightly(s, id) && (s.startInterrupted ==> InService(s.call))
    requires (Vacant(s.call) ==> s.instance.None?) && (InService(s.call) ==> s.instance == Held(s.call))
    ensures CancelledRightly(Step(s, Work(succeeds)), id)
  {
    if s.call.ClosingOld? || s.call.Discarding? || s.call.ClosingCurrent? {
      if Held(s.call).Some? {
        CloseCounts(s, Held(s.call).value, id);
      }
    } else {
      hide CloseInstance;
    }
  }

  /** Every run from a new service: a list of events, those that cannot happen being skipped. */
  function Run(events: seq<Event>): Service
    decreases |events|
  {
    if events == [] then NEW_SERVICE
    else
      var before := Run(events[..|events| - 1]);
      var e := events[|events| - 1];
      if Enabled(before, e) then Step(before, e) else before
  }

  lemma {:induction false} EveryRunKeeps(events: seq<Event>)
    ensures Consistent(Run(events)) && Accounted(Run(events)) && forall id: nat :: CancelledRightly(Run(events), id)
    decreases |events|
  {
    if events == [] {
      forall id: nat ensures Uses(NEW_SERVICE, id) == 0 { }
    } else {
      var before := Run(events[..|events| - 1]);
      var e := events[|events| - 1];
      EveryRunKeeps(events[..|events| - 1]);
      if Enabled(before, e) {
        StepKeepsConsistent(before, e);
        StepKeepsAccounted(before, e);
        forall id: nat ensures CancelledRightly(Step(before, e), id) { StepKeepsCancelled(before, e, id); }
      }
      hide Consistent, Accounted, CancelledRightly, Step, Enabled;
    }
  }

  /**
   * In every interleaving: a started service has an instance whose context was not cancelled; every
   * instance built is current, in the hands of the one running call, or closed exactly once, and
   * never two of these; closing an instance and interrupting its start cancel it; and when no call
   * runs or waits on a service that was not closed, it is idle, started or failed.
   */
  lemma LifecycleIsSafe(events: seq<Event>)
    ensures var s := Run(events);
      && (s.status.Started? ==> s.instance.Some? && s.instance.value !in s.cancelled)
      && (s.startInterrupted ==> s.instance.Some? && s.instance.value in s.cancelled)
      && (forall id: nat | s.closings[id] > 0 :: id in s.cancelled)
      && (forall id: nat | id < s.built ::
            s.closings[id] == if s.instance == Some(id) || Held(s.call) == Some(id) then 0 else 1)
      && (s.call.Free? && s.waiting == 0 && !s.closed ==> s.status.Idle? || s.status.Started? || s.status.Fatal?)
      && (s.call.Free? && s.status.Idle? ==> forall id: nat | id < s.built :: s.closings[id] == 1)
  {
    EveryRunKeeps(events);
    var s := Run(events);
    hide Run;
    assert s.instance.Some? ==> CancelledRightly(s, s.instance.value) && Uses(s, s.instance.value) <= 1;
    forall id: nat | s.closings[id] > 0 ensures id in s.cancelled { assert CancelledRightly(s, id); }
    forall id: nat | id < s.built
      ensures s.closings[id] == if s.instance == Some(id) || Held(s.call) == Some(id) then 0 else 1
    {
      assert Uses(s, id) == 1;
    }
  }

  lemma RunSnoc(events: seq<Event>, e: Event)
    ensures Run(events + [e]) == if Enabled(Run(events), e) then Step(Run(events), e) else Run(events)
  {
    assert (events + [e])[..|events|] == events;
  }

  /** One more event that can happen. */
  lemma Extend(events: seq<Event>, e: Event) returns (longer: seq<Event>)
    requires Enabled(Run(events), e)
    ensures Run(longer) == Step(Run(events), e)
  {
    longer := events + [e];
    RunSnoc(events, e);
  }

  lemma StartInProgress() returns (events: seq<Event>)
    ensures Run(events) == Service(Some(0), Starting, false, false, Running(0), 0, 1, multiset{}, {})
  {
    events := [];
    assert Run(events) == NEW_SERVICE;
    hide Run;
    events := Extend(events, Arrive);
    events := Extend(events, EnterStart);
    events := Extend(events, Work(true));
    events := Extend(events, Work(true));
    events := Extend(events, Work(true));
  }

  lemma StartInterrupted() returns (events: seq<Event>)
    ensures Run(events) == Service(None, Starting, false, false, Free, 1, 1, multiset{0}, {0})
  {
    hide Run;
    events := StartInProgress();
    events := Extend(events, Arrive);
    events := Extend(events, Work(true));
    events := Extend(events, Work(true));
    events := Extend(events, Work(true));
  }

  /** The exception is real: a start interrupted on a service that is then closed stays announced. */
  lemma ClosedServiceMayStayStarting() returns (events: seq<Event>)
    ensures var s := Run(events);
      s.call.Free? && s.waiting == 0 && s.closed && s.status.Starting? && s.instance.None?
  {
    hide Run;
    events := StartInterrupted();
    events := Extend(events, Close);
    events := Extend(events, EnterStart);
    events := Extend(events, Work(true));
  }

  // ---- The critical sections, updating the service in place ----

  class StartedService {
    var instance: Option<nat>
    var serviceStatus: Status
    var startInterrupted: bool
    var closed: bool
    var call: Call
    var waiting: nat
    var built: nat
    var closings: multiset<nat>
    var cancelled: set<nat>

    ghost function Value(): Service
      reads this
    {
      Service(instance, serviceStatus, startInterrupted, closed, call, waiting, built, closings, cancelled)
    }

    constructor ()
      ensures Value() == NEW_SERVICE
    {
      instance, serviceStatus, startInterrupted, closed := None, Idle, false, false;
      call, waiting, built, closings, cancelled := Free, 0, 0, multiset{}, {};
    }

    method InterruptStart()
      modifies this`startInterrupted, this`cancelled
      ensures Value() == Interrupt(old(Value()))
    {
      if serviceStatus == Starting && instance.Some? {
        startInterrupted := true;
        cancelled := cancelled + {instance.value};
      }
    }

    /** A lifecycle call arrives: it interrupts, then queues for the lifecycle lock. */
    method ArriveCall()
      modifies this`startInterrupted, this`cancelled, this`waiting
      ensures Value() == Step(old(Value()), Arrive)
    {
      InterruptStart();
      waiting := waiting + 1;
    }

    /** Begins a start: the work up to the point where a new instance is built, or the refusal. */
    method EnterStartCall()
      requires call == StartEntered
      modifies this
      ensures Value() == Step(old(Value()), Work(true))
    {
      if closed {
        call := Free;
        return;
      }
      var oldInstance := instance;
      if oldInstance.Some? {
        instance := None;
        serviceStatus := Stopping;
        call := ClosingOld(oldInstance.value);
        return;
      }
      startInterrupted := false;
      serviceStatus := Starting;
      call := Building;
    }

    /** Ends a start after the instance has run: interrupted, failed or started. */
    method LeaveStartCall()
      requires call.Ran?
      modifies this`startInterrupted, this`instance, this`serviceStatus, this`call
      ensures Value() == Step(old(Value()), Work(true))
    {
      var id, succeeded := call.id, call.succeeded;
      if startInterrupted {
        startInterrupted := false;
        instance := None;
        call := Discarding(id);
        return;
      }
      if !succeeded {
        instance := None;
        serviceStatus := Fatal;
        call := Discarding(id);
        return;
      }
      serviceStatus := Started;
      call := Free;
    }

    method EnterStopCall()
      requires call == StopEntered
      modifies this`instance, this`serviceStatus, this`call
      ensures Value() == Step(old(Value()), Work(true))
    {
      var current := instance;
      if current.None? && serviceStatus != Starting && serviceStatus != Started {
        call := Free;
        return;
      }
      instance := None;
      serviceStatus := Stopping;
      call := ClosingCurrent(current);
    }

    /** Closes the instance the running call has taken away, outside the service lock. */
    method CloseHeld()
      requires call.ClosingOld? || call.Discarding? || call.ClosingCurrent?
      modifies this`closings, this`cancelled, this`call
      ensures Value() == Step(old(Value()), Work(true))
    {
      var held := Held(call);
      if held.Some? {
        cancelled := cancelled + {held.value};
        closings := closings + multiset{held.value};
      }
      if call.ClosingOld? {
        call := OldClosed;
      } else if call.Discarding? {
        call := Free;
      } else {
        call := StopClosed;
      }
    }
  }
}
