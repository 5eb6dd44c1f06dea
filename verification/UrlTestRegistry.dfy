/**
 * The registry of URL-test sessions. A session is named by its sequence number; `objects` holds
 * every session ever made, because a runner keeps its session after the table has dropped it,
 * and `listed` says which ones the table still has.
 */
module UrlTestRegistry {
  import opened Counting

  const RETAINED := 64

  datatype State = Running | Succeeded | Unsuccessful | Cancelled

  datatype Result = Result(tag: string, ok: bool)

  datatype Session = Session(
    group: string,
    owner: nat,             // the runtime instance
    state: State,
    completedAt: int,
    total: nat,
    completed: nat,
    succeeded: nat,
    failed: nat,
    results: seq<Result>,
    error: string
  )

  datatype Registry = Registry(objects: seq<Session>, listed: set<nat>, byGroup: map<string, nat>)

  /** How a runner's context stands when it finishes. */
  datatype Cause = Live | ContextCancelled | DeadlineExceeded

  datatype Operation =
    | StartSession(group: string, owner: nat, force: bool, total: nat, now: int)
    | RecordResult(id: nat, result: Result)
    | FinishSession(id: nat, cause: Cause, now: int)
    | CancelSession(id: nat, now: int)
    | CancelForInstance(owner: nat, error: string, now: int)

  function Closed(s: Session, state: State, now: int, error: string): Session {
    s.(state := state, completedAt := now, error := error)
  }

  /** An unforced start on the same instance returns the session that runs. */
  predicate Reuses(r: Registry, group: string, owner: nat, force: bool) {
    && group in r.byGroup && r.byGroup[group] in r.listed && r.byGroup[group] < |r.objects|
    && r.objects[r.byGroup[group]].owner == owner && r.objects[r.byGroup[group]].state.Running? && !force
  }

  /** The session of the group that a start replaces, marked so. */
  function Replaced(r: Registry, group: string, now: int): seq<Session> {
    if && group in r.byGroup && r.byGroup[group] in r.listed && r.byGroup[group] < |r.objects|
       && r.objects[r.byGroup[group]].state.Running?
    then r.objects[r.byGroup[group] := Closed(r.objects[r.byGroup[group]], Cancelled, now, "replaced")]
    else r.objects
  }

  function Started(r: Registry, group: string, owner: nat, total: nat, now: int): Registry {
    var id := |r.objects|;
    Registry(
      Replaced(r, group, now) + [Session(group, owner, Running, 0, total, 0, 0, 0, [], "")],
      r.listed + {id},
      r.byGroup[group := id])
  }

  function Recorded(s: Session, x: Result): Session {
    if !s.state.Running? then s
    else s.(
      results := s.results + [x],
      completed := s.completed + 1,
      succeeded := if x.ok then s.succeeded + 1 else s.succeeded,
      failed := if x.ok then s.failed else s.failed + 1)
  }

  function Ended(s: Session, cause: Cause, now: int): Session {
    if !s.state.Running? then s
    else match cause
      case ContextCancelled => Closed(s, Cancelled, now, "cancelled")
      case DeadlineExceeded => Closed(s, Unsuccessful, now, "deadline")
      case Live =>
        if s.succeeded > 0 then Closed(s, Succeeded, now, s.error)
        else Closed(s, Unsuccessful, now, "all_probes_failed")
  }

  function Without(byGroup: map<string, nat>, group: string, id: nat): map<string, nat> {
    if group in byGroup && byGroup[group] == id then byGroup - {group} else byGroup
  }

  function Finished(r: Registry, id: nat, cause: Cause, now: int): Registry
    requires id < |r.objects|
  {
    r.(objects := r.objects[id := Ended(r.objects[id], cause, now)],
      byGroup := Without(r.byGroup, r.objects[id].group, id))
  }

  function CancelledOne(r: Registry, id: nat, now: int, error: string): Registry {
    if id in r.listed && id < |r.objects| && r.objects[id].state.Running?
    then r.(objects := r.objects[id := Closed(r.objects[id], Cancelled, now, error)],
           byGroup := Without(r.byGroup, r.objects[id].group, id))
    else r
  }

  /** A session that the end of an instance cancels. */
  predicate Owned(r: Registry, id: nat, owner: nat) {
    id in r.listed && id < |r.objects| && r.objects[id].owner == owner && r.objects[id].state.Running?
  }

  /** The group's entry names such a session, one of the group's own. */
  predicate OwnedFor(r: Registry, group: string, owner: nat)
    requires group in r.byGroup
  {
    Owned(r, r.byGroup[group], owner) && r.objects[r.byGroup[group]].group == group
  }

  function CancelledAll(r: Registry, owner: nat, now: int, error: string): Registry {
    r.(objects := seq(|r.objects|, id requires 0 <= id < |r.objects| =>
           if Owned(r, id, owner) then Closed(r.objects[id], Cancelled, now, error) else r.objects[id]),
      byGroup := map g | g in r.byGroup && !OwnedFor(r, g, owner) :: r.byGroup[g])
  }

  // ---- Pruning ----

  function FinishedIn(r: Registry): set<nat> {
    set id | id in r.listed && id < |r.objects| && !r.objects[id].state.Running?
  }

  function CompletedAt(objects: seq<Session>, id: nat): int {
    if id < |objects| then objects[id].completedAt else 0
  }

  ghost predicate KeepsLatest(r: Registry, dropped: set<nat>, kept: set<nat>) {
    forall d, k | d in dropped && k in kept :: CompletedAt(r.objects, d) <= CompletedAt(r.objects, k)
  }

  /** What pruning may leave: sort.Slice is not stable, so ties may fall either way. */
  ghost predicate Pruned(r: Registry, q: Registry) {
    var finished := FinishedIn(r);
    && q == r.(listed := q.listed)
    && q.listed <= r.listed && r.listed - q.listed <= finished
    && (if |finished| <= RETAINED then q.listed == r.listed
        else |finished * q.listed| == RETAINED && KeepsLatest(r, r.listed - q.listed, finished * q.listed))
  }

  ghost predicate Does(r: Registry, op: Operation, q: Registry) {
    match op
    case StartSession(group, owner, force, total, now) =>
      if Reuses(r, group, owner, force) then q == r else Pruned(Started(r, group, owner, total, now), q)
    case RecordResult(id, x) => id < |r.objects| && q == r.(objects := r.objects[id := Recorded(r.objects[id], x)])
    case FinishSession(id, cause, now) => id < |r.objects| && Pruned(Finished(r, id, cause, now), q)
    case CancelSession(id, now) => q == CancelledOne(r, id, now, "cancelled")
    case CancelForInstance(owner, error, now) => q == CancelledAll(r, owner, now, error)
  }

  // ---- What every operation keeps ----

  function CountOk(results: seq<Result>): nat {
    if results == [] then 0 else CountOk(results[..|results| - 1]) + (if results[|results| - 1].ok then 1 else 0)
  }

  ghost predicate Counted(s: Session) {
    && s.completed == |s.results| == s.succeeded + s.failed
    && s.succeeded == CountOk(s.results)
  }

  /** The group's entry names this session exactly when the session runs. */
  ghost predicate Indexed(r: Registry, id: nat)
    requires id < |r.objects|
  {
    var s := r.objects[id];
    && (s.state.Running? <==> s.group in r.byGroup && r.byGroup[s.group] == id)
    && (s.state.Running? ==> id in r.listed)
  }

  ghost predicate Inv(r: Registry) {
    && (forall id | id in r.listed :: id < |r.objects|)
    && (forall id: nat | id < |r.objects| :: Indexed(r, id) && Counted(r.objects[id]))
    && forall g | g in r.byGroup :: r.byGroup[g] < |r.objects| && r.objects[r.byGroup[g]].group == g
  }

  /** A finished session never changes again; a running one keeps its identity and only adds results. */
  ghost predicate Later(a: Session, b: Session) {
    && (!a.state.Running? ==> b == a)
    && b.group == a.group && b.owner == a.owner && b.total == a.total && a.results <= b.results
  }

  ghost predicate Frozen(r: Registry, q: Registry) {
    |r.objects| <= |q.objects| && forall id: nat | id < |r.objects| :: Later(r.objects[id], q.objects[id])
  }

  /**
   * What an operation takes off the table has finished, no later than any finished session kept,
   * and as many of those are kept as may be.
   */
  ghost predicate DropsOldest(r: Registry, q: Registry) {
    var gone := r.listed - q.listed;
    gone != {} ==>
      && (forall id | id in gone :: id < |q.objects| && !q.objects[id].state.Running?)
      && |FinishedIn(q)| == RETAINED && KeepsLatest(q, gone, FinishedIn(q))
  }

  const EMPTY := Registry([], {}, map[])

  lemma PruneKeeps(r: Registry, q: Registry)
    requires Inv(r) && Pruned(r, q)
    ensures Inv(q) && q.objects == r.objects
    ensures |FinishedIn(q)| <= RETAINED && DropsOldest(r, q)
  {
    assert FinishedIn(q) == FinishedIn(r) * q.listed;
    forall id: nat | id < |q.objects| ensures Indexed(q, id) && Counted(q.objects[id]) {
      assert Indexed(r, id) && Counted(r.objects[id]);
      assert id in r.listed ==> id in q.listed || id in r.listed - q.listed;
    }
  }

  function Added(r: Registry, group: string, owner: nat, total: nat): Registry {
    Registry(
      r.objects + [Session(group, owner, Running, 0, total, 0, 0, 0, [], "")],
      r.listed + {|r.objects|},
      r.byGroup[group := |r.objects|])
  }

  lemma AddedKeeps(r: Registry, group: string, owner: nat, total: nat)
    requires Inv(r) && group !in r.byGroup
    ensures Inv(Added(r, group, owner, total)) && Frozen(r, Added(r, group, owner, total))
  {
    var q := Added(r, group, owner, total);
    forall id: nat | id < |q.objects| ensures Indexed(q, id) && Counted(q.objects[id]) {
      if id < |r.objects| {
        assert Indexed(r, id) && Counted(r.objects[id]);
      }
    }
  }

  /** A start is a cancellation of the group's running session followed by a new one. */
  lemma StartedKeeps(r: Registry, group: string, owner: nat, total: nat, now: int)
    requires Inv(r)
    ensures Inv(Started(r, group, owner, total, now)) && Frozen(r, Started(r, group, owner, total, now))
  {
    if group in r.byGroup {
      var cleared := CancelledOne(r, r.byGroup[group], now, "replaced");
      StartedIs(r, group, owner, total, now);
      CancelledOneKeeps(r, r.byGroup[group], now, "replaced");
      hide *;
      AddedKeeps(cleared, group, owner, total);
      FrozenTwice(r, cleared, Started(r, group, owner, total, now));
    } else {
      AddedKeeps(r, group, owner, total);
    }
  }

  lemma StartedIs(r: Registry, group: string, owner: nat, total: nat, now: int)
    requires Inv(r) && group in r.byGroup
    ensures var cleared := CancelledOne(r, r.byGroup[group], now, "replaced");
      group !in cleared.byGroup && Started(r, group, owner, total, now) == Added(cleared, group, owner, total)
  {
    assert Indexed(r, r.byGroup[group]);
    assert (r.byGroup - {group})[group := |r.objects|] == r.byGroup[group := |r.objects|];
  }

  lemma RecordedKeeps(r: Registry, id: nat, x: Result)
    requires Inv(r) && id < |r.objects|
    ensures var q := r.(objects := r.objects[id := Recorded(r.objects[id], x)]); Inv(q) && Frozen(r, q)
  {
    var q := r.(objects := r.objects[id := Recorded(r.objects[id], x)]);
    forall k: nat | k < |q.objects| ensures Indexed(q, k) && Counted(q.objects[k]) {
      assert Indexed(r, k) && Counted(r.objects[k]);
      var s := r.objects[k];
      assert (s.results + [x])[..|s.results|] == s.results;
    }
  }

  lemma FinishedKeeps(r: Registry, id: nat, cause: Cause, now: int)
    requires Inv(r) && id < |r.objects|
    ensures Inv(Finished(r, id, cause, now)) && Frozen(r, Finished(r, id, cause, now))
  {
    var q := Finished(r, id, cause, now);
    assert Indexed(r, id);
    forall k: nat | k < |q.objects| ensures Indexed(q, k) && Counted(q.objects[k]) {
      assert Indexed(r, k) && Counted(r.objects[k]);
    }
  }

  lemma CancelledOneKeeps(r: Registry, id: nat, now: int, error: string)
    requires Inv(r)
    ensures Inv(CancelledOne(r, id, now, error)) && Frozen(r, CancelledOne(r, id, now, error))
  {
    var q := CancelledOne(r, id, now, error);
    forall k: nat | k < |q.objects| ensures Indexed(q, k) && Counted(q.objects[k]) {
      assert Indexed(r, k) && Counted(r.objects[k]);
    }
  }

  lemma CancelledAllKeeps(r: Registry, owner: nat, now: int, error: string)
    requires Inv(r)
    ensures Inv(CancelledAll(r, owner, now, error)) && Frozen(r, CancelledAll(r, owner, now, error))
  {
    var q := CancelledAll(r, owner, now, error);
    forall k: nat | k < |q.objects| ensures Indexed(q, k) && Counted(q.objects[k]) {
      assert Indexed(r, k) && Counted(r.objects[k]);
    }
  }

  /** A start that makes a session: its own number is new and runs, so pruning leaves it. */
  lemma NewSessionKeeps(r: Registry, group: string, owner: nat, total: nat, now: int, q: Registry)
    requires Inv(r) && Pruned(Started(r, group, owner, total, now), q)
    ensures Inv(q) && Frozen(r, q) && DropsOldest(r, q) && |FinishedIn(q)| <= RETAINED
  {
    var r' := Started(r, group, owner, total, now);
    StartedKeeps(r, group, owner, total, now);
    PruneKeeps(r', q);
    hide Inv, Pruned, FinishedIn, DropsOldest, Later;
    NewIsListed(r, group, owner, total, now, q);
    DropsWithoutNew(r, r', q, |r.objects|);
  }

  lemma NewIsListed(r: Registry, group: string, owner: nat, total: nat, now: int, q: Registry)
    requires Inv(q) && q.objects == Started(r, group, owner, total, now).objects
    ensures |r.objects| in q.listed
  {
    assert Indexed(q, |r.objects|);
  }

  lemma DropsWithoutNew(r: Registry, r': Registry, q: Registry, id: nat)
    requires DropsOldest(r', q) && r'.listed == r.listed + {id} && id in q.listed
    ensures DropsOldest(r, q)
  {
    hide FinishedIn, KeepsLatest;
    assert r'.listed - q.listed == r.listed - q.listed;
  }

  lemma OperationKeeps(r: Registry, op: Operation, q: Registry)
    requires Inv(r) && Does(r, op, q)
    ensures Inv(q) && Frozen(r, q) && DropsOldest(r, q)
    ensures op.FinishSession? || (op.StartSession? && q != r) ==> |FinishedIn(q)| <= RETAINED
  {
    hide Inv, Pruned, FinishedIn, KeepsLatest;
    match op
    case StartSession(group, owner, force, total, now) =>
      if !Reuses(r, group, owner, force) {
        NewSessionKeeps(r, group, owner, total, now, q);
      }
    case RecordResult(id, x) => RecordedKeeps(r, id, x);
    case FinishSession(id, cause, now) =>
      FinishedKeeps(r, id, cause, now);
      PruneKeeps(Finished(r, id, cause, now), q);
    case CancelSession(id, now) => CancelledOneKeeps(r, id, now, "cancelled");
    case CancelForInstance(owner, error, now) => CancelledAllKeeps(r, owner, now, error);
  }

  /** The registry between operations, from the empty one on. */
  ghost predicate IsHistory(rs: seq<Registry>, ops: seq<Operation>) {
    && |rs| == |ops| + 1 && rs[0] == EMPTY
    && forall i | 0 <= i < |ops| :: Does(rs[i], ops[i], rs[i + 1])
  }

  lemma {:induction false} HistoryKeeps(rs: seq<Registry>, ops: seq<Operation>, n: nat)
    requires IsHistory(rs, ops) && n <= |ops|
    ensures Inv(rs[n])
  {
    if n > 0 {
      HistoryKeeps(rs, ops, n - 1);
      OperationKeeps(rs[n - 1], ops[n - 1], rs[n - 1 + 1]);
    }
  }

  lemma {:induction false} HistoryFreezes(rs: seq<Registry>, ops: seq<Operation>, m: nat, n: nat)
    requires IsHistory(rs, ops) && m <= n <= |ops|
    ensures Frozen(rs[m], rs[n])
    decreases n
  {
    hide Inv, Does;
    if m < n {
      HistoryFreezes(rs, ops, m, n - 1);
      HistoryKeeps(rs, ops, n - 1);
      OperationKeeps(rs[n - 1], ops[n - 1], rs[n - 1 + 1]);
      FrozenTwice(rs[m], rs[n - 1], rs[n]);
    }
  }

  lemma FrozenTwice(a: Registry, b: Registry, c: Registry)
    requires Frozen(a, b) && Frozen(b, c)
    ensures Frozen(a, c)
  {
    forall id: nat | id < |a.objects| ensures Later(a.objects[id], c.objects[id]) {
      assert Later(a.objects[id], b.objects[id]) && Later(b.objects[id], c.objects[id]);
    }
  }

  /**
   * In every history: a group's entry names a session exactly when that session runs for the group,
   * so one at most runs per group; what runs is on the table; what has finished never changes; after
   * a finish or a start that made a session at most the retained number of finished sessions is
   * left; and whatever leaves the table had finished, no later than the finished sessions that stay.
   */
  lemma RegistryIsConsistent(rs: seq<Registry>, ops: seq<Operation>, m: nat, n: nat)
    requires IsHistory(rs, ops) && m <= n <= |ops|
    ensures forall g, id: nat | id < |rs[n].objects| && rs[n].objects[id].group == g ::
      (g in rs[n].byGroup && rs[n].byGroup[g] == id) <==> rs[n].objects[id].state.Running?
    ensures forall id: nat | id < |rs[n].objects| && rs[n].objects[id].state.Running? :: id in rs[n].listed
    ensures Frozen(rs[m], rs[n])
    ensures n > 0 ==> DropsOldest(rs[n - 1], rs[n])
    ensures n > 0 && (ops[n - 1].FinishSession? || (ops[n - 1].StartSession? && rs[n] != rs[n - 1])) ==>
      |FinishedIn(rs[n])| <= RETAINED
  {
    HistoryKeeps(rs, ops, n);
    HistoryFreezes(rs, ops, m, n);
    assert forall id: nat | id < |rs[n].objects| :: Indexed(rs[n], id);
    if n > 0 {
      HistoryKeeps(rs, ops, n - 1);
      OperationKeeps(rs[n - 1], ops[n - 1], rs[n - 1 + 1]);
    }
  }

  // ---- The table of the source ----

  ghost predicate Ordered(objects: seq<Session>, ids: seq<nat>) {
    forall a, b | 0 <= a < b < |ids| :: CompletedAt(objects, ids[a]) <= CompletedAt(objects, ids[b])
  }

  ghost predicate NoneTwice(ids: seq<nat>) {
    forall a, b | 0 <= a < b < |ids| :: ids[a] != ids[b]
  }

  /** Puts an id behind those completed no later. */
  method Insert(objects: seq<Session>, ids: seq<nat>, id: nat) returns (r: seq<nat>)
    requires Ordered(objects, ids) && NoneTwice(ids) && id !in ids
    ensures Ordered(objects, r) && NoneTwice(r)
    ensures forall k :: k in r <==> k in ids || k == id
  {
    var i := |ids|;
    while i > 0 && CompletedAt(objects, ids[i - 1]) > CompletedAt(objects, id)
      invariant 0 <= i <= |ids|
      invariant forall a | i <= a < |ids| :: CompletedAt(objects, id) < CompletedAt(objects, ids[a])
    {
      i := i - 1;
    }
    r := ids[..i] + [id] + ids[i..];
    hide CompletedAt;
    InsertedElements(ids, id, i);
    InsertedOrder(objects, ids, id, i);
  }

  lemma InsertedElements(ids: seq<nat>, id: nat, i: nat)
    requires NoneTwice(ids) && id !in ids && i <= |ids|
    ensures var r := ids[..i] + [id] + ids[i..]; NoneTwice(r) && forall k :: k in r <==> k in ids || k == id
  {
    var r := ids[..i] + [id] + ids[i..];
    assert ids == ids[..i] + ids[i..];
    forall a, b | 0 <= a < b < |r| ensures r[a] != r[b] {
      assert r[a] == if a < i then ids[a] else if a == i then id else ids[a - 1];
      assert r[b] == if b < i then ids[b] else if b == i then id else ids[b - 1];
    }
  }

  lemma InsertedOrder(objects: seq<Session>, ids: seq<nat>, id: nat, i: nat)
    requires Ordered(objects, ids) && i <= |ids|
    requires forall a | i <= a < |ids| :: CompletedAt(objects, id) < CompletedAt(objects, ids[a])
    requires i > 0 ==> CompletedAt(objects, ids[i - 1]) <= CompletedAt(objects, id)
    ensures Ordered(objects, ids[..i] + [id] + ids[i..])
  {
    hide CompletedAt;
    var r := ids[..i] + [id] + ids[i..];
    forall a, b | 0 <= a < b < |r| ensures CompletedAt(objects, r[a]) <= CompletedAt(objects, r[b]) {
      assert r[a] == if a < i then ids[a] else if a == i then id else ids[a - 1];
      assert r[b] == if b < i then ids[b] else if b == i then id else ids[b - 1];
      assert a < i ==> CompletedAt(objects, ids[a]) <= CompletedAt(objects, ids[i - 1]);
    }
  }

  class SessionTable {
    var objects: seq<Session>
    var listed: set<nat>
    var byGroup: map<string, nat>

    constructor ()
      ensures Value() == EMPTY
    {
      objects, listed, byGroup := [], {}, map[];
    }

    function Value(): Registry
      reads this
    {
      Registry(objects, listed, byGroup)
    }

    /** The finished sessions of the table, oldest completion first. */
    method FinishedByAge() returns (ids: seq<nat>)
      requires forall id | id in listed :: id < |objects|
      ensures Ordered(objects, ids) && NoneTwice(ids)
      ensures forall id :: id in ids <==> id in FinishedIn(Value())
    {
      ids := [];
      var todo := listed;
      while todo != {}
        invariant todo <= listed
        invariant Ordered(objects, ids) && NoneTwice(ids)
        invariant forall id :: id in ids <==> id in FinishedIn(Value()) && id !in todo
        decreases todo
      {
        var id :| id in todo;
        todo := todo - {id};
        if !objects[id].state.Running? {
          ids := Insert(objects, ids, id);
        }
      }
    }

    method Prune()
      requires forall id | id in listed :: id < |objects|
      modifies this
      ensures Pruned(old(Value()), Value())
    {
      ghost var r := Value();
      var ids := FinishedByAge();
      AsElements(ids, FinishedIn(r));
      if |ids| <= RETAINED {
        return;
      }
      var n := |ids| - RETAINED;
      var i := 0;
      while i < n
        invariant 0 <= i <= n && Value() == r.(listed := listed)
        invariant forall id :: id in listed <==> id in r.listed && id !in ids[..i]
      {
        assert ids[..i + 1] == ids[..i] + [ids[i]];
        listed := listed - {ids[i]};
        i := i + 1;
      }
      PrunedByAge(r, Value(), ids, n);
    }

    method StartSession(group: string, owner: nat, force: bool, total: nat, now: int) returns (id: nat)
      requires Inv(Value())
      modifies this
      ensures Does(old(Value()), Operation.StartSession(group, owner, force, total, now), Value())
      ensures id < |objects| && objects[id].state.Running? && objects[id].group == group
      ensures Reuses(old(Value()), group, owner, force) ==> id == old(byGroup)[group]
      ensures !Reuses(old(Value()), group, owner, force) ==> id == |old(objects)|
    {
      if group in byGroup && byGroup[group] in listed {
        var existing := byGroup[group];
        if objects[existing].owner == owner && objects[existing].state.Running? && !force {
          assert Indexed(Value(), existing);
          return existing;
        }
        if objects[existing].state.Running? {
          objects := objects[existing := Closed(objects[existing], Cancelled, now, "replaced")];
        }
      }
      id := |objects|;
      objects := objects + [Session(group, owner, Running, 0, total, 0, 0, 0, [], "")];
      listed := listed + {id};
      byGroup := byGroup[group := id];
      assert Value() == Started(old(Value()), group, owner, total, now);
      Prune();
    }

    method RecordResult(id: nat, x: Result) returns (accepted: bool)
      requires id < |objects|
      modifies this
      ensures Does(old(Value()), Operation.RecordResult(id, x), Value())
      ensures accepted == old(objects)[id].state.Running?
    {
      var s := objects[id];
      if !s.state.Running? {
        return false;
      }
      objects := objects[id := s.(results := s.results + [x], completed := s.completed + 1)];
      if x.ok {
        objects := objects[id := objects[id].(succeeded := s.succeeded + 1)];
      } else {
        objects := objects[id := objects[id].(failed := s.failed + 1)];
      }
      return true;
    }

    method FinishSession(id: nat, cause: Cause, now: int)
      requires id < |objects| && forall k | k in listed :: k < |objects|
      modifies this
      ensures Does(old(Value()), Operation.FinishSession(id, cause, now), Value())
    {
      var s := objects[id];
      if s.state.Running? {
        match cause {
          case ContextCancelled => objects := objects[id := Closed(s, Cancelled, now, "cancelled")];
          case DeadlineExceeded => objects := objects[id := Closed(s, Unsuccessful, now, "deadline")];
          case Live =>
            if s.succeeded > 0 {
              objects := objects[id := Closed(s, Succeeded, now, s.error)];
            } else {
              objects := objects[id := Closed(s, Unsuccessful, now, "all_probes_failed")];
            }
        }
      }
      if s.group in byGroup && byGroup[s.group] == id {
        byGroup := byGroup - {s.group};
      }
      assert Value() == Finished(old(Value()), id, cause, now);
      Prune();
    }

    method CancelSession(id: nat, now: int) returns (found: bool)
      requires forall k | k in listed :: k < |objects|
      modifies this
      ensures Does(old(Value()), Operation.CancelSession(id, now), Value())
      ensures found == (id in old(listed))
    {
      if id !in listed {
        return false;
      }
      if objects[id].state.Running? {
        CancelRunning(id, now, "cancelled");
      }
      return true;
    }

    /** Marks a running session of the table cancelled and frees its group's entry. */
    method CancelRunning(id: nat, now: int, error: string)
      requires id < |objects| && id in listed && objects[id].state.Running?
      modifies this
      ensures Value() == CancelledOne(old(Value()), id, now, error)
    {
      var group := objects[id].group;
      objects := objects[id := Closed(objects[id], Cancelled, now, error)];
      if group in byGroup && byGroup[group] == id {
        byGroup := byGroup - {group};
      }
    }

    /** Cancels the running sessions of an instance, in whatever order the table lists them. */
    method CancelForInstance(owner: nat, error: string, now: int)
      requires Inv(Value())
      modifies this
      ensures Does(old(Value()), Operation.CancelForInstance(owner, error, now), Value())
    {
      ghost var r := Value();
      BetweenStart(r, owner, now, error);
      hide Between, CancelledAll, Inv;
      var todo := listed;
      while todo != {}
        invariant todo <= listed == r.listed && |objects| == |r.objects|
        invariant Between(r, Value(), todo, owner, now, error)
        decreases todo
      {
        var id :| id in todo;
        BetweenStep(r, Value(), todo, id, owner, now, error);
        todo := todo - {id};
        if objects[id].owner == owner && objects[id].state.Running? {
          CancelRunning(id, now, error);
        }
      }
      BetweenDone(r, Value(), owner, now, error);
    }
  }

  /** The table while an instance's sessions are being cancelled: the ones not to do yet are done. */
  ghost predicate Between(r: Registry, q: Registry, todo: set<nat>, owner: nat, now: int, error: string)
    requires |q.objects| == |r.objects|
  {
    && (forall id: nat | id < |r.objects| ::
          q.objects[id] ==
            if Owned(r, id, owner) && id !in todo then Closed(r.objects[id], Cancelled, now, error) else r.objects[id])
    && forall g :: (g in q.byGroup <==> g in r.byGroup && (r.byGroup[g] in todo || !Owned(r, r.byGroup[g], owner)))
                && (g in q.byGroup ==> q.byGroup[g] == r.byGroup[g])
  }

  lemma BetweenStart(r: Registry, owner: nat, now: int, error: string)
    requires Inv(r)
    ensures Between(r, r, r.listed, owner, now, error)
  {
  }

  lemma BetweenDone(r: Registry, q: Registry, owner: nat, now: int, error: string)
    requires Inv(r) && |q.objects| == |r.objects| && q.listed == r.listed && Between(r, q, {}, owner, now, error)
    ensures q == CancelledAll(r, owner, now, error)
  {
  }

  lemma BetweenStep(r: Registry, q: Registry, todo: set<nat>, id: nat, owner: nat, now: int, error: string)
    requires Inv(r) && |q.objects| == |r.objects| && q.listed == r.listed
    requires Between(r, q, todo, owner, now, error) && id in todo && id in r.listed
    ensures q.objects[id] == r.objects[id]
    ensures q.objects[id].owner == owner && q.objects[id].state.Running? ==>
      && q.objects[id].group in q.byGroup && q.byGroup[q.objects[id].group] == id
      && Between(r, CancelledOne(q, id, now, error), todo - {id}, owner, now, error)
    ensures !(q.objects[id].owner == owner && q.objects[id].state.Running?) ==>
      Between(r, q, todo - {id}, owner, now, error)
  {
    assert Indexed(r, id);
    forall g | g in r.byGroup && r.byGroup[g] == id ensures g == r.objects[id].group {
    }
  }

  lemma AsElements(ids: seq<nat>, s: set<nat>)
    requires NoneTwice(ids) && forall id :: id in ids <==> id in s
    ensures |ids| == |s|
  {
    ElementsSize(ids);
    assert Elements(ids) == s;
  }

  ghost function Position(ids: seq<nat>, id: nat): (a: nat)
    requires id in ids
    ensures a < |ids| && ids[a] == id
  {
    var a: nat :| a < |ids| && ids[a] == id;
    a
  }

  lemma Halves(ids: seq<nat>, n: nat)
    requires NoneTwice(ids) && n <= |ids|
    ensures NoneTwice(ids[n..]) && forall id :: id in ids[n..] <==> id in ids && id !in ids[..n]
  {
    assert ids == ids[..n] + ids[n..];
    forall b | 0 <= b < |ids[n..]| ensures ids[n..][b] !in ids[..n] {
      assert ids[n..][b] == ids[n + b];
    }
  }

  /** Dropping the oldest finished sessions down to the retained number is what pruning promises. */
  lemma PrunedByAge(r: Registry, q: Registry, ids: seq<nat>, n: nat)
    requires Ordered(r.objects, ids) && NoneTwice(ids) && |ids| == n + RETAINED && n > 0
    requires forall id :: id in ids <==> id in FinishedIn(r)
    requires q == r.(listed := q.listed) && forall id :: id in q.listed <==> id in r.listed && id !in ids[..n]
    ensures Pruned(r, q)
  {
    AsElements(ids, FinishedIn(r));
    hide CompletedAt, FinishedIn;
    var kept := FinishedIn(r) * q.listed;
    assert ids == ids[..n] + ids[n..];
    Halves(ids, n);
    AsElements(ids[n..], kept);
    forall d, k | d in r.listed - q.listed && k in kept ensures CompletedAt(r.objects, d) <= CompletedAt(r.objects, k) {
      var a, b := Position(ids[..n], d), Position(ids[n..], k);
      assert CompletedAt(r.objects, ids[a]) <= CompletedAt(r.objects, ids[n + b]);
    }
  }
}
