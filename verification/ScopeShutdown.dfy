/**
 * Closing a scope runs what its whole subtree has registered: child scopes are closed by their
 * cleanups in the parent, in whatever calls these end up, and each cleanup runs exactly once.
 */
module ScopeShutdown {
  import opened Options
  import opened ScopeTree

  // ---- The cleanup that closes a child scope ----

  /** The entry is listed in a scope, or a call has taken it. */
  ghost predicate Present(t: Tree, x: Entry) {
    || (exists r: nat :: r < |t.scopes| && x in t.scopes[r].cleanups)
    || (exists k: nat :: k < |t.tasks| && x in All(t.tasks[k]))
  }

  /** Scope y has a parent, and the cleanup under its number is the one in the parent that closes it. */
  ghost predicate Bound(t: Tree, y: nat)
    requires y < |t.scopes|
  {
    var sc := t.scopes[y];
    && sc.parent.Some? && sc.parent.value < y && sc.entry < t.issued
    && (forall x | Present(t, x) && x.id == sc.entry :: x == Entry(sc.entry, sc.parent.value, Some(y)))
    && (HasRun(t, sc.entry) ==> Closed(sc))
  }

  /** A closed scope lists no cleanup that closes a child. */
  ghost predicate Childless(sc: Scope) {
    Closed(sc) ==> forall x | x in sc.cleanups :: x.child.None?
  }

  ghost predicate Bonds(t: Tree) {
    && (forall y: nat | 0 < y < |t.scopes| :: Bound(t, y))
    && (forall y: nat | y < |t.scopes| :: Childless(t.scopes[y]))
  }

  /** The cleanup that a step registers. */
  function New(t: Tree, e: Event): Entry
    requires e.Add? || e.Start?
  {
    Entry(t.issued, e.s, if e.Add? then None else Some(|t.scopes|))
  }

  lemma ReversedHas(es: seq<Entry>, x: Entry)
    ensures x in Reversed(es) ==> x in es
  {
  }

  lemma StepScopes(t: Tree, e: Event, r: nat, x: Entry)
    requires Enabled(t, e) && r < |Step(t, e).scopes| && x in Step(t, e).scopes[r].cleanups
    ensures (r < |t.scopes| && x in t.scopes[r].cleanups) || ((e.Add? || e.Start?) && x == New(t, e) && r == e.s)
  {
  }

  lemma StepTasks(t: Tree, e: Event, k: nat, x: Entry)
    requires Enabled(t, e) && k < |Step(t, e).tasks| && x in All(Step(t, e).tasks[k])
    ensures Present(t, x)
  {
    hide Reversed;
    match e
    case Remove(s, _) =>
      if k == |t.tasks| { assert x in t.scopes[s].cleanups; }
    case Close(s) =>
      if k == |t.tasks| { ReversedHas(t.scopes[s].cleanups, x); }
    case Run(j) =>
      if k == j {
        var task := t.tasks[k];
        assert task.pending == [task.pending[0]] + task.pending[1..];
        if task.pending[0].child.Some? {
          ReversedHas(t.scopes[task.pending[0].child.value].cleanups, x);
        }
        assert x in All(task) || (task.pending[0].child.Some? && x in t.scopes[task.pending[0].child.value].cleanups);
      }
    case _ =>
  }

  /** Nothing comes in but what a step registers. */
  lemma StepPresent(t: Tree, e: Event, x: Entry)
    requires Enabled(t, e) && Present(Step(t, e), x)
    ensures Present(t, x) || ((e.Add? || e.Start?) && Step(t, e).issued > t.issued && x == New(t, e))
  {
    hide Step, Enabled, All;
    if r: nat :| r < |Step(t, e).scopes| && x in Step(t, e).scopes[r].cleanups {
      StepScopes(t, e, r, x);
      StepRegisters(t, e, r, x);
    } else {
      var k: nat :| k < |Step(t, e).tasks| && x in All(Step(t, e).tasks[k]);
      StepTasks(t, e, k, x);
    }
  }

  lemma StepRegisters(t: Tree, e: Event, r: nat, x: Entry)
    requires Enabled(t, e) && r < |Step(t, e).scopes| && x in Step(t, e).scopes[r].cleanups
    ensures (r < |t.scopes| && x in t.scopes[r].cleanups) || Step(t, e).issued > t.issued
  {
  }

  lemma PresentIsIssued(t: Tree, x: Entry)
    requires ScopesOk(t) && TasksOk(t) && Present(t, x)
    ensures x.id < t.issued
  {
    if r: nat :| r < |t.scopes| && x in t.scopes[r].cleanups {
      assert ScopeOk(t, r, t.scopes[r]);
    } else {
      var k: nat :| k < |t.tasks| && x in All(t.tasks[k]);
      assert TaskOk(t, t.tasks[k]);
    }
  }

  /** A step that runs a cleanup runs the first one its call has still to run. */
  lemma StepRuns(t: Tree, e: Event, id: nat)
    requires Enabled(t, e) && HasRun(Step(t, e), id) && !HasRun(t, id)
    ensures e.Run? && t.tasks[e.k].pending[0].id == id
  {
    var q := Step(t, e);
    hide Step, Enabled;
    var k: nat, i :| k < |q.tasks| && 0 <= i < |q.tasks[k].done| && q.tasks[k].done[i].id == id;
    StepDone(t, e, k);
  }

  /** What a step adds to what a call has run: the first cleanup it had still to run, or nothing. */
  lemma StepDone(t: Tree, e: Event, k: nat)
    requires Enabled(t, e) && k < |Step(t, e).tasks|
    ensures Step(t, e).tasks[k].done ==
      if k >= |t.tasks| then []
      else if e == Run(k) then t.tasks[k].done + [t.tasks[k].pending[0]]
      else t.tasks[k].done
  {
  }

  lemma StepStillRan(t: Tree, e: Event, id: nat)
    requires Enabled(t, e) && HasRun(t, id)
    ensures HasRun(Step(t, e), id)
  {
    var q := Step(t, e);
    var k: nat, i :| k < |t.tasks| && 0 <= i < |t.tasks[k].done| && t.tasks[k].done[i].id == id;
    assert q.tasks[k].done[i] == t.tasks[k].done[i];
  }

  lemma StepStaysClosed(t: Tree, e: Event, y: nat)
    requires Enabled(t, e) && y < |t.scopes| && Closed(t.scopes[y])
    ensures y < |Step(t, e).scopes| && Closed(Step(t, e).scopes[y])
  {
  }

  lemma PendingIsPresent(t: Tree, k: nat)
    requires k < |t.tasks| && t.tasks[k].pending != []
    ensures Present(t, t.tasks[k].pending[0])
  {
    assert All(t.tasks[k])[|t.tasks[k].done|] == t.tasks[k].pending[0];
  }

  /** The step that runs the cleanup of scope y in its parent closes y. */
  lemma ClosingStep(t: Tree, e: Event, y: nat)
    requires Enabled(t, e) && y < |t.scopes| && Bound(t, y)
    requires HasRun(Step(t, e), t.scopes[y].entry) && !HasRun(t, t.scopes[y].entry)
    ensures Closes(t, e, y)
  {
    hide Step, HasRun, Present;
    StepRuns(t, e, t.scopes[y].entry);
    PendingIsPresent(t, e.k);
  }

  lemma ClosesShuts(t: Tree, e: Event, s: nat)
    requires Enabled(t, e) && Closes(t, e, s)
    ensures s < |t.scopes| && Step(t, e).scopes == t.scopes[s := Shut(t.scopes[s])]
  {
  }

  lemma StepKeepsBound(t: Tree, e: Event, y: nat)
    requires Inv(t) && Enabled(t, e) && y < |t.scopes| && Bound(t, y)
    ensures y < |Step(t, e).scopes| && Bound(Step(t, e), y)
  {
    var q := Step(t, e);
    StepGrows(t, e);
    var c := t.scopes[y].entry;
    hide Step, HasRun, Present;
    forall x | Present(q, x) && x.id == c ensures x == Entry(c, t.scopes[y].parent.value, Some(y)) {
      StepPresent(t, e, x);
    }
    if HasRun(q, c) {
      if HasRun(t, c) {
        StepStaysClosed(t, e, y);
      } else {
        ClosingStep(t, e, y);
        ClosesShuts(t, e, y);
      }
    }
  }

  /** A child scope begins with its cleanup in the parent. */
  lemma StartBinds(t: Tree, e: Event)
    requires Inv(t) && Enabled(t, e) && |Step(t, e).scopes| > |t.scopes|
    ensures |Step(t, e).scopes| == |t.scopes| + 1 && Bound(Step(t, e), |t.scopes|)
  {
    var q := Step(t, e);
    var y := |t.scopes|;
    assert e.Start? && q.scopes[y] == Scope(Some(e.s), t.issued, false, [], Some(map[]));
    assert q.issued == t.issued + 1 && q.tasks == t.tasks;
    StepKeeps(t, e);
    hide Step, Present, HasRun;
    forall x | Present(q, x) && x.id == t.issued ensures x == New(t, e) {
      StepPresent(t, e, x);
      if Present(t, x) { PresentIsIssued(t, x); }
    }
    if HasRun(q, t.issued) {
      RanIsIssued(t, q, t.issued);
    }
  }

  lemma RanIsIssued(t: Tree, q: Tree, id: nat)
    requires TasksOk(t) && q.tasks == t.tasks && HasRun(q, id)
    ensures id < t.issued
  {
    var k: nat, i :| k < |t.tasks| && 0 <= i < |t.tasks[k].done| && t.tasks[k].done[i].id == id;
    assert TaskOk(t, t.tasks[k]) && All(t.tasks[k])[i] == t.tasks[k].done[i];
  }

  lemma StepKeepsChildless(t: Tree, e: Event, y: nat)
    requires Enabled(t, e) && y < |Step(t, e).scopes| && (y < |t.scopes| ==> Childless(t.scopes[y]))
    ensures Childless(Step(t, e).scopes[y])
  {
  }

  lemma StepKeepsBonds(t: Tree, e: Event)
    requires Inv(t) && Bonds(t) && Enabled(t, e)
    ensures Bonds(Step(t, e))
  {
    var q := Step(t, e);
    hide Step, Bound, Childless, Enabled, Inv;
    forall y: nat | 0 < y < |q.scopes| ensures Bound(q, y) {
      if y < |t.scopes| { StepKeepsBound(t, e, y); } else { StartBinds(t, e); }
    }
    forall y: nat | y < |q.scopes| ensures Childless(q.scopes[y]) {
      StepKeepsChildless(t, e, y);
    }
  }

  lemma {:induction false} RunKeepsBonds(t: Tree, es: seq<Event>)
    requires Inv(t) && Bonds(t) && IsRun(t, es)
    ensures Inv(After(t, es)) && Bonds(After(t, es))
    decreases |es|
  {
    hide Inv, Bonds, Step, Enabled;
    if es != [] {
      StepKeeps(t, es[0]);
      StepKeepsBonds(t, es[0]);
      RunKeepsBonds(Step(t, es[0]), es[1..]);
    }
  }

  lemma ReachedHolds(es: seq<Event>)
    requires IsRun(ROOT, es)
    ensures Inv(After(ROOT, es)) && Bonds(After(ROOT, es))
  {
    RootHolds();
    assert Bonds(ROOT);
    hide Inv, Bonds;
    RunKeepsBonds(ROOT, es);
  }

  // ---- Where a cleanup listed in a scope can go ----

  /** No other scope lists the cleanup. */
  ghost predicate OnlyIn(t: Tree, y: nat, id: nat) {
    forall r: nat | r < |t.scopes| && r != y :: Count(t.scopes[r].cleanups, id) == 0
  }

  lemma ListedIsOnlyThere(t: Tree, y: nat, i: nat)
    requires Conserved(t) && y < |t.scopes| && i < |t.scopes[y].cleanups|
    ensures OnlyIn(t, y, t.scopes[y].cleanups[i].id)
    ensures InScopes(t.scopes[y := Shut(t.scopes[y])], t.scopes[y].cleanups[i].id) == 0
  {
    var id := t.scopes[y].cleanups[i].id;
    CountHas(t.scopes[y].cleanups, i);
    InScopesSet(t.scopes, y, Shut(t.scopes[y]), id);
    assert Places(t, id) <= 1;
    var rest := t.scopes[y := Shut(t.scopes[y])];
    forall r: nat | r < |t.scopes| && r != y ensures Count(t.scopes[r].cleanups, id) == 0 {
      InScopesSet(rest, r, rest[r], id);
    }
  }

  lemma CountOfPushed(es: seq<Entry>, x: Entry, id: nat)
    requires x.id != id
    ensures Count(es + [x], id) == Count(es, id)
  {
    CountConcat(es, [x], id);
  }

  /** No scope comes to list a cleanup that was registered before. */
  lemma StepGainsNothing(t: Tree, e: Event, r: nat, id: nat)
    requires Enabled(t, e) && id < t.issued && r < |Step(t, e).scopes|
    ensures Count(Step(t, e).scopes[r].cleanups, id) <= if r < |t.scopes| then Count(t.scopes[r].cleanups, id) else 0
  {
    hide Ended;
    if r < |t.scopes| {
      var es := t.scopes[r].cleanups;
      CountOfPushed(es, Entry(t.issued, r, None), id);
      CountOfPushed(es, Entry(t.issued, r, Some(|t.scopes|)), id);
      if e.Remove? && e.s == r && t.scopes[r].children.Some? && e.component in t.scopes[r].children.value {
        var i := Position(es, t.scopes[r].children.value[e.component].entry);
        if i < |es| { CountWithout(es, i, id); }
      }
    }
  }

  lemma StepKeepsOnlyIn(t: Tree, e: Event, y: nat, id: nat)
    requires Enabled(t, e) && id < t.issued && y < |t.scopes| && OnlyIn(t, y, id)
    ensures OnlyIn(Step(t, e), y, id)
  {
    var q := Step(t, e);
    hide Step, Enabled;
    forall r: nat | r < |q.scopes| && r != y ensures Count(q.scopes[r].cleanups, id) == 0 {
      StepGainsNothing(t, e, r, id);
    }
  }

  lemma {:induction false} NowhereIsZero(scopes: seq<Scope>, id: nat)
    requires forall r: nat | r < |scopes| :: Count(scopes[r].cleanups, id) == 0
    ensures InScopes(scopes, id) == 0
  {
    if scopes != [] {
      assert forall r: nat | r < |scopes[1..]| :: scopes[1..][r] == scopes[r + 1];
      NowhereIsZero(scopes[1..], id);
    }
  }

  /** Once a scope's cleanup in the parent has run, what the scope listed is listed no more. */
  lemma {:induction false} ClosingEmpties(t: Tree, es: seq<Event>, y: nat, id: nat)
    requires Inv(t) && Bonds(t) && IsRun(t, es) && 0 < y < |t.scopes| && id < t.issued && OnlyIn(t, y, id)
    requires !HasRun(t, t.scopes[y].entry) && HasRun(After(t, es), t.scopes[y].entry)
    ensures InScopes(After(t, es).scopes, id) == 0
    decreases |es|
  {
    hide Inv, HasRun, OnlyIn, Enabled, Bound, Childless;
    if es != [] {
      var e, q := es[0], Step(t, es[0]);
      hide Step;
      StepKeeps(t, e);
      StepKeepsBonds(t, e);
      StepGrows(t, e);
      StepKeepsOnlyIn(t, e, y, id);
      if HasRun(q, t.scopes[y].entry) {
        ClosingStep(t, e, y);
        ClosesShuts(t, e, y);
        ShutIsEmpty(q, y, id);
        NeverReturns(q, es[1..], id);
      } else {
        ClosingEmpties(q, es[1..], y, id);
      }
    }
  }

  lemma ShutIsEmpty(t: Tree, y: nat, id: nat)
    requires OnlyIn(t, y, id) && y < |t.scopes| && t.scopes[y].cleanups == []
    ensures InScopes(t.scopes, id) == 0
  {
    forall r: nat | r < |t.scopes| ensures Count(t.scopes[r].cleanups, id) == 0 {
      if r == y { assert Count([], id) == 0; }
    }
    NowhereIsZero(t.scopes, id);
  }

  /** When the calls have run what they took, what no scope lists has run. */
  lemma UnlistedHasRun(t: Tree, id: nat)
    requires Conserved(t) && Drained(t) && id < t.issued && InScopes(t.scopes, id) == 0
    ensures HasRun(t, id)
  {
    assert Places(t, id) == 1;
    var k, i := TakenIsRun(t.tasks, id);
  }

  // ---- The subtree ----

  /** Scope y is s or lies below it. */
  ghost predicate Under(t: Tree, s: nat, y: nat)
    decreases y
  {
    y < |t.scopes| &&
    (y == s || (t.scopes[y].parent.Some? && t.scopes[y].parent.value < y && Under(t, s, t.scopes[y].parent.value)))
  }

  /** Everything that scope y lists in t has run in the end. */
  ghost predicate AllRun(t: Tree, y: nat, end: Tree)
    requires y < |t.scopes|
  {
    forall i | 0 <= i < |t.scopes[y].cleanups| :: HasRun(end, t.scopes[y].cleanups[i].id)
  }

  /** A scope whose cleanup in the parent runs has all it listed run. */
  lemma ClosedHasRun(t: Tree, es: seq<Event>, y: nat)
    requires Inv(t) && Bonds(t) && IsRun(t, es) && 0 < y < |t.scopes| && Drained(After(t, es))
    requires !HasRun(t, t.scopes[y].entry) && HasRun(After(t, es), t.scopes[y].entry)
    ensures AllRun(t, y, After(t, es))
  {
    RunKeeps(t, es);
    var end := After(t, es);
    assert Conserved(t) && Conserved(end) && ScopeOk(t, y, t.scopes[y]);
    hide After, Drained, Bonds, Conserved, HasRun, Inv;
    forall i | 0 <= i < |t.scopes[y].cleanups| ensures HasRun(end, t.scopes[y].cleanups[i].id) {
      var id := t.scopes[y].cleanups[i].id;
      assert EntryOk(t, t.scopes[y].cleanups[i]);
      ListedIsOnlyThere(t, y, i);
      ClosingEmpties(t, es, y, id);
      RunIssued(t, es);
      UnlistedHasRun(end, id);
    }
  }

  lemma {:induction false} RunIssued(t: Tree, es: seq<Event>)
    requires IsRun(t, es)
    ensures t.issued <= After(t, es).issued
    decreases |es|
  {
    hide Step, Enabled;
    if es != [] {
      StepGrows(t, es[0]);
      RunIssued(Step(t, es[0]), es[1..]);
    }
  }

  /** The cleanup that closes y: in a call, or listed in the parent, which is then not closed. */
  lemma WhereClosed(t: Tree, y: nat)
    requires Inv(t) && Bonds(t) && 0 < y < |t.scopes|
    ensures t.scopes[y].parent.Some? && t.scopes[y].parent.value < y
    ensures var c, p := t.scopes[y].entry, t.scopes[y].parent.value;
      || InScopes(t.scopes, c) == 0
      || (exists i :: 0 <= i < |t.scopes[p].cleanups| && t.scopes[p].cleanups[i].id == c && !Closed(t.scopes[p]))
  {
    assert Bound(t, y);
    var c, p := t.scopes[y].entry, t.scopes[y].parent.value;
    if InScopes(t.scopes, c) > 0 {
      var r, i := ListedAt(t.scopes, c);
      var x := t.scopes[r].cleanups[i];
      assert Present(t, x);
      assert ScopeOk(t, r, t.scopes[r]) && x.owner == r;
      assert Childless(t.scopes[p]);
    }
  }

  lemma {:induction false} ListedAt(scopes: seq<Scope>, id: nat) returns (r: nat, i: nat)
    requires InScopes(scopes, id) > 0
    ensures r < |scopes| && i < |scopes[r].cleanups| && scopes[r].cleanups[i].id == id
  {
    if Count(scopes[0].cleanups, id) > 0 {
      r := 0;
      i := CountedAt(scopes[0].cleanups, id);
    } else {
      r, i := ListedAt(scopes[1..], id);
      r := r + 1;
    }
  }

  /** If all that s listed runs, so does all that a scope below it listed that is still to be closed. */
  lemma {:induction false} SubtreeHasRun(t: Tree, es: seq<Event>, s: nat, y: nat)
    requires Inv(t) && Bonds(t) && IsRun(t, es) && Drained(After(t, es)) && s < |t.scopes| && Under(t, s, y)
    requires AllRun(t, s, After(t, es)) && (y == s || !HasRun(t, t.scopes[y].entry))
    ensures AllRun(t, y, After(t, es))
    decreases y
  {
    if y != s {
      var end := After(t, es);
      var c, p := t.scopes[y].entry, t.scopes[y].parent.value;
      RunKeeps(t, es);
      assert Bound(t, y) && Conserved(end);
      assert p > 0 ==> Bound(t, p);
      WhereClosed(t, y);
      hide Inv, Bonds, Drained, Conserved, HasRun, Childless;
      if InScopes(t.scopes, c) == 0 {
        NeverReturns(t, es, c);
        UnlistedHasRun(end, c);
      } else {
        if p != s {
          RootIsTop(t, s, p);
          SubtreeHasRun(t, es, s, p);
        }
        var i :| 0 <= i < |t.scopes[p].cleanups| && t.scopes[p].cleanups[i].id == c;
        assert HasRun(end, t.scopes[p].cleanups[i].id);
      }
      ClosedHasRun(t, es, y);
    }
  }

  lemma RootIsTop(t: Tree, s: nat, y: nat)
    requires Under(t, s, y) && y != s
    ensures y > 0
  {
  }

  // ---- Closing, removing, shutting down ----

  /** The cleanup has run, in one call and once. */
  ghost predicate RunsOnce(t: Tree, id: nat) {
    exists k: nat, i: nat :: RanAt(t, k, i, id) && forall l: nat, j: nat | RanAt(t, l, j, id) :: l == k && j == i
  }

  lemma HasRunOnce(t: Tree, id: nat)
    requires Conserved(t) && HasRun(t, id)
    ensures RunsOnce(t, id)
  {
    var k: nat, i :| k < |t.tasks| && 0 <= i < |t.tasks[k].done| && t.tasks[k].done[i].id == id;
    assert RanAt(t, k, i, id);
    forall l: nat, j: nat | RanAt(t, l, j, id) ensures l == k && j == i {
      RanOnce(t, k, i, l, j);
    }
  }

  /** The state in which a step is taken after a run, and the state after a further run. */
  ghost predicate Around(before: seq<Event>, e: Event, after: seq<Event>) {
    IsRun(ROOT, before) && Enabled(After(ROOT, before), e) && IsRun(Step(After(ROOT, before), e), after)
  }

  ghost function EndOf(before: seq<Event>, e: Event, after: seq<Event>): Tree
    requires Around(before, e, after)
  {
    After(Step(After(ROOT, before), e), after)
  }

  lemma AroundIsRun(before: seq<Event>, e: Event, after: seq<Event>)
    requires Around(before, e, after)
    ensures IsRun(After(ROOT, before), [e] + after)
    ensures After(After(ROOT, before), [e] + after) == EndOf(before, e, after)
  {
    assert ([e] + after)[1..] == after;
  }

  /** Closing a scope, by whichever call, takes what it lists, and the calls run it. */
  lemma CloseHasRun(t: Tree, e: Event, s: nat, after: seq<Event>)
    requires Inv(t) && Enabled(t, e) && Closes(t, e, s) && IsRun(Step(t, e), after)
    requires Drained(After(Step(t, e), after))
    ensures s < |t.scopes| && AllRun(t, s, After(Step(t, e), after))
  {
    var q := Step(t, e);
    ClosesShuts(t, e, s);
    StepKeeps(t, e);
    StepGrows(t, e);
    RunKeeps(q, after);
    RunIssued(q, after);
    var end := After(q, after);
    assert ScopeOk(t, s, t.scopes[s]) && Conserved(t) && Conserved(end);
    hide After, Step, Inv, Conserved, HasRun, Drained;
    forall i | 0 <= i < |t.scopes[s].cleanups| ensures HasRun(end, t.scopes[s].cleanups[i].id) {
      assert EntryOk(t, t.scopes[s].cleanups[i]);
      ListedIsOnlyThere(t, s, i);
      NeverReturns(q, after, t.scopes[s].cleanups[i].id);
      UnlistedHasRun(end, t.scopes[s].cleanups[i].id);
    }
  }

  /**
   * Whatever else happens before and after, once the calls under way have run what they took: when a
   * scope is closed, by its Close or by its cleanup in the parent, every cleanup registered with it
   * or with a scope below it runs exactly once, unless that scope's own closing cleanup had run before.
   */
  lemma CloseRunsEverything(before: seq<Event>, e: Event, after: seq<Event>, s: nat, y: nat, i: nat)
    requires Around(before, e, after) && Closes(After(ROOT, before), e, s) && Drained(EndOf(before, e, after))
    requires Under(After(ROOT, before), s, y) && i < |After(ROOT, before).scopes[y].cleanups|
    requires y == s || !HasRun(After(ROOT, before), After(ROOT, before).scopes[y].entry)
    ensures RunsOnce(EndOf(before, e, after), After(ROOT, before).scopes[y].cleanups[i].id)
  {
    var t := After(ROOT, before);
    ReachedHolds(before);
    CloseHasRun(t, e, s, after);
    AroundIsRun(before, e, after);
    hide Bonds, HasRun, Drained, RunsOnce, Step;
    SubtreeHasRun(t, [e] + after, s, y);
    RunKeeps(t, [e] + after);
    HasRunOnce(EndOf(before, e, after), t.scopes[y].cleanups[i].id);
  }

  /** The same when a component is removed, for its child scope and every scope below. */
  lemma RemoveRunsEverything(before: seq<Event>, after: seq<Event>, s: nat, component: string, child: Child, y: nat,
      i: nat)
    requires Around(before, Remove(s, component), after) && Started(After(ROOT, before), s, component, child)
    requires Drained(EndOf(before, Remove(s, component), after))
    requires Under(After(ROOT, before), child.scope, y) && i < |After(ROOT, before).scopes[y].cleanups|
    requires y == child.scope || !HasRun(After(ROOT, before), After(ROOT, before).scopes[y].entry)
    ensures RunsOnce(EndOf(before, Remove(s, component), after), After(ROOT, before).scopes[y].cleanups[i].id)
  {
    var t, e := After(ROOT, before), Remove(s, component);
    var end := EndOf(before, e, after);
    ReachedHolds(before);
    AroundIsRun(before, e, after);
    RemovedHasRun(t, s, component, child, after);
    hide Bonds, HasRun, Drained, RunsOnce, Step, Started;
    ClosedHasRun(t, [e] + after, child.scope);
    SubtreeHasRun(t, [e] + after, child.scope, y);
    RunKeeps(t, [e] + after);
    HasRunOnce(end, t.scopes[y].cleanups[i].id);
  }

  /** A removed component's closing cleanup is listed until then and runs. */
  lemma RemovedHasRun(t: Tree, s: nat, component: string, child: Child, after: seq<Event>)
    requires Inv(t) && Started(t, s, component, child) && IsRun(Step(t, Remove(s, component)), after)
    requires Drained(After(Step(t, Remove(s, component)), after))
    ensures 0 < child.scope < |t.scopes| && t.scopes[child.scope].entry == child.entry
    ensures !HasRun(t, child.entry) && HasRun(After(Step(t, Remove(s, component)), after), child.entry)
  {
    var q := Step(t, Remove(s, component));
    assert ScopeOk(t, s, t.scopes[s]) && Listed(t.scopes[s].cleanups, child);
    var j :| 0 <= j < |t.scopes[s].cleanups| && t.scopes[s].cleanups[j].id == child.entry
      && t.scopes[s].cleanups[j].child == Some(child.scope);
    assert EntryOk(t, t.scopes[s].cleanups[j]);
    ListedHasNotRun(t, s, t.scopes[s].cleanups[j]);
    RemovedIsUnlisted(t, s, component, child, j);
    StepGrows(t, Remove(s, component));
    StepKeeps(t, Remove(s, component));
    RunKeeps(q, after);
    RunIssued(q, after);
    hide Step, HasRun, Drained, ScopesOk, TasksOk;
    NeverReturns(q, after, child.entry);
    UnlistedHasRun(After(q, after), child.entry);
  }

  lemma RemovedIsUnlisted(t: Tree, s: nat, component: string, child: Child, j: nat)
    requires Conserved(t) && Started(t, s, component, child) && j < |t.scopes[s].cleanups|
    requires t.scopes[s].cleanups[j].id == child.entry
    ensures InScopes(Step(t, Remove(s, component)).scopes, child.entry) == 0
  {
    var sc := t.scopes[s];
    var i := Position(sc.cleanups, child.entry);
    assert i < |sc.cleanups| && sc.cleanups[i].id == child.entry;
    assert Step(t, Remove(s, component)).scopes == t.scopes[s := Dropped(sc, component, i)];
    hide Step, Position;
    InScopesSet(t.scopes, s, Dropped(sc, component, i), child.entry);
    CountWithout(sc.cleanups, i, child.entry);
    CountHas([sc.cleanups[i]], 0);
    assert Places(t, child.entry) <= 1;
  }

  lemma {:induction false} AllUnderRoot(t: Tree, y: nat)
    requires Bonds(t) && y < |t.scopes|
    ensures Under(t, 0, y)
    decreases y
  {
    if y > 0 {
      assert Bound(t, y);
      AllUnderRoot(t, t.scopes[y].parent.value);
    }
  }

  /** Registered with a scope whose closing cleanup had run already. */
  ghost predicate TooLate(t: Tree, id: nat) {
    exists y: nat, i ::
      && 0 < y < |t.scopes| && 0 <= i < |t.scopes[y].cleanups|
      && t.scopes[y].cleanups[i].id == id && HasRun(t, t.scopes[y].entry)
  }

  /**
   * When the root is closed and the calls are through, every cleanup ever registered by then has run
   * exactly once, but for those registered too late with a scope below.
   */
  lemma ShutdownRunsEverything(before: seq<Event>, after: seq<Event>, id: nat)
    requires Around(before, Close(0), after) && Drained(EndOf(before, Close(0), after))
    requires id < After(ROOT, before).issued && !TooLate(After(ROOT, before), id)
    ensures RunsOnce(EndOf(before, Close(0), after), id)
  {
    var t := After(ROOT, before);
    var end := EndOf(before, Close(0), after);
    ReachedHolds(before);
    if InScopes(t.scopes, id) > 0 {
      var y, i := ListedAt(t.scopes, id);
      AllUnderRoot(t, y);
      CloseRunsEverything(before, Close(0), after, 0, y, i);
    } else {
      AroundIsRun(before, Close(0), after);
      RunKeeps(t, [Close(0)] + after);
      hide Bonds, HasRun, RunsOnce, Step;
      NeverReturns(t, [Close(0)] + after, id);
      UnlistedHasRun(end, id);
      HasRunOnce(end, id);
    }
  }

  // ---- The cleanups registered too late ----

  /** The closing cleanup of a scope that has run is not about to run: only a Close closes the scope again. */
  lemma OnlyCloseCloses(t: Tree, e: Event, y: nat)
    requires Inv(t) && Enabled(t, e) && y < |t.scopes| && HasRun(t, t.scopes[y].entry) && Closes(t, e, y)
    ensures e == Close(y)
  {
    if e.Run? {
      var task := t.tasks[e.k];
      assert TaskOk(t, task) && All(task)[|task.done|] == task.pending[0] && EntryOk(t, task.pending[0]);
      PendingHasNotRun(t, e.k);
    }
  }

  lemma PendingHasNotRun(t: Tree, k: nat)
    requires Conserved(t) && k < |t.tasks| && t.tasks[k].pending != []
    ensures !HasRun(t, t.tasks[k].pending[0].id)
  {
    var id := t.tasks[k].pending[0].id;
    assert Places(t, id) <= 1;
    CountHas(t.tasks[k].pending, 0);
    InTasksSet(t.tasks, k, t.tasks[k], id);
    forall l: nat, j | l < |t.tasks| && 0 <= j < |t.tasks[l].done| ensures t.tasks[l].done[j].id != id {
      CountHas(t.tasks[l].done, j);
      if l != k {
        InTwoTasks(t.tasks, if k < l then k else l, if k < l then l else k, id);
      }
    }
  }

  lemma {:induction false} NotClosedAgain(t: Tree, es: seq<Event>, y: nat)
    requires Inv(t) && IsRun(t, es) && y < |t.scopes| && HasRun(t, t.scopes[y].entry) && Close(y) !in es
    ensures Unclosed(t, es, y)
    decreases |es|
  {
    hide Inv, HasRun, Closes, Enabled;
    if es != [] {
      assert es[0] in es;
      if Closes(t, es[0], y) { OnlyCloseCloses(t, es[0], y); }
      hide Step;
      StepKeeps(t, es[0]);
      StepGrows(t, es[0]);
      StepStillRan(t, es[0], t.scopes[y].entry);
      NotClosedAgain(Step(t, es[0]), es[1..], y);
    }
  }

  /** They stay listed and do not run, however the tree is shut down, until a Close of that very scope. */
  lemma TooLateWaits(before: seq<Event>, after: seq<Event>, y: nat, i: nat)
    requires IsRun(ROOT, before) && IsRun(After(ROOT, before), after) && Close(y) !in after
    requires 0 < y < |After(ROOT, before).scopes| && i < |After(ROOT, before).scopes[y].cleanups|
    requires HasRun(After(ROOT, before), After(ROOT, before).scopes[y].entry)
    ensures !HasRun(After(After(ROOT, before), after), After(ROOT, before).scopes[y].cleanups[i].id)
  {
    var t := After(ROOT, before);
    ReachedHolds(before);
    assert Bound(t, y);
    NotClosedAgain(t, after, y);
    RunKeeps(t, after);
    var end := After(t, after);
    hide HasRun, Bonds, ScopesOk, TasksOk, After;
    RunLateStays(t, after, y, t.scopes[y].cleanups[i]);
    ListedHasNotRun(end, y, t.scopes[y].cleanups[i]);
  }
}
