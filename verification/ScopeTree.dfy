/**
 * The tree of scopes that owns what components must release. Add, Start, Remove and Close each
 * hold the scope's lock for one step; cleanups run outside it, one step each, and a cleanup that
 * closes a child scope takes the child's lock in turn. Any number of calls interleave.
 */
module ScopeTree {
  import opened Counting
  import opened Options

  /** A registered cleanup: numbered in order of registration; closes a child scope or calls a component. */
  datatype Entry = Entry(id: nat, owner: nat, child: Option<nat>)

  datatype Child = Child(scope: nat, entry: nat)

  datatype Scope = Scope(
    parent: Option<nat>,
    entry: nat,                          // the cleanup in the parent that closes this scope
    cancelled: bool,
    cleanups: seq<Entry>,
    children: Option<map<string, Child>> // None once closed: a nil map
  )

  /** A call that runs cleanups: Close of the root scope, or Remove of one of its components. */
  datatype Task = Task(root: nat, done: seq<Entry>, pending: seq<Entry>)

  datatype Tree = Tree(scopes: seq<Scope>, outer: bool, issued: nat, tasks: seq<Task>, panicked: bool)

  datatype Event =
    | Add(s: nat)
    | Start(s: nat, component: string)
    | Remove(s: nat, component: string)
    | Close(s: nat)
    | Run(k: nat)
    | EndOuter

  /** A scope's context has ended when it, a scope above it or the outer context has. */
  predicate Ended(t: Tree, s: nat)
    requires s < |t.scopes|
  {
    || t.scopes[s].cancelled
    || match t.scopes[s].parent
       case None => t.outer
       case Some(p) => p < s && Ended(t, p)
  }

  // ---- One scope ----

  function Pushed(sc: Scope, e: Entry): Scope {
    sc.(cleanups := sc.cleanups + [e])
  }

  function Opened(sc: Scope, component: string, e: Entry): Scope
    requires sc.children.Some? && e.child.Some?
  {
    sc.(cleanups := sc.cleanups + [e], children := Some(sc.children.value[component := Child(e.child.value, e.id)]))
  }

  function Position(es: seq<Entry>, id: nat): (i: nat)
    ensures i <= |es| && (i < |es| ==> es[i].id == id) && forall j | 0 <= j < i :: es[j].id != id
  {
    if es == [] || es[0].id == id then 0
    else
      var i := Position(es[1..], id);
      assert forall j | 0 < j < i + 1 :: es[j] == es[1..][j - 1];
      i + 1
  }

  function Dropped(sc: Scope, component: string, i: nat): Scope
    requires sc.children.Some? && i < |sc.cleanups|
  {
    sc.(cleanups := sc.cleanups[..i] + sc.cleanups[i + 1..], children := Some(sc.children.value - {component}))
  }

  function Shut(sc: Scope): Scope {
    sc.(cancelled := true, cleanups := [], children := None)
  }

  function Reversed(es: seq<Entry>): (r: seq<Entry>)
    ensures |r| == |es| && forall i | 0 <= i < |es| :: r[i] == es[|es| - 1 - i]
  {
    if es == [] then [] else [es[|es| - 1]] + Reversed(es[..|es| - 1])
  }

  // ---- Steps ----

  predicate Enabled(t: Tree, e: Event) {
    match e
    case Add(s) => s < |t.scopes|
    case Start(s, _) => s < |t.scopes|
    case Remove(s, _) => s < |t.scopes|
    case Close(s) => s < |t.scopes|
    case Run(k) =>
      && k < |t.tasks| && t.tasks[k].pending != []
      && (t.tasks[k].pending[0].child.Some? ==> t.tasks[k].pending[0].child.value < |t.scopes|)
    case EndOuter => !t.outer
  }

  function StartStep(t: Tree, s: nat, component: string): Tree
    requires s < |t.scopes|
  {
    var sc := t.scopes[s];
    if Ended(t, s) then t
    else if sc.children.None? then t.(panicked := true)
    else if component in sc.children.value then t
    else
      var e := Entry(t.issued, s, Some(|t.scopes|));
      t.(scopes := t.scopes[s := Opened(sc, component, e)] + [Scope(Some(s), t.issued, false, [], Some(map[]))],
        issued := t.issued + 1)
  }

  function RemoveStep(t: Tree, s: nat, component: string): Tree
    requires s < |t.scopes|
  {
    var sc := t.scopes[s];
    if sc.children.None? || component !in sc.children.value then t
    else
      var i := Position(sc.cleanups, sc.children.value[component].entry);
      if i == |sc.cleanups| then t.(panicked := true)
      else t.(scopes := t.scopes[s := Dropped(sc, component, i)], tasks := t.tasks + [Task(s, [], [sc.cleanups[i]])])
  }

  function RunStep(t: Tree, k: nat): Tree
    requires Enabled(t, Run(k))
  {
    var task := t.tasks[k];
    var e, rest := task.pending[0], task.pending[1..];
    match e.child
    case None => t.(tasks := t.tasks[k := task.(done := task.done + [e], pending := rest)])
    case Some(x) =>
      t.(scopes := t.scopes[x := Shut(t.scopes[x])],
        tasks := t.tasks[k := task.(done := task.done + [e], pending := Reversed(t.scopes[x].cleanups) + rest)])
  }

  function Step(t: Tree, e: Event): Tree
    requires Enabled(t, e)
  {
    match e
    case Add(s) => t.(scopes := t.scopes[s := Pushed(t.scopes[s], Entry(t.issued, s, None))], issued := t.issued + 1)
    case Start(s, component) => StartStep(t, s, component)
    case Remove(s, component) => RemoveStep(t, s, component)
    case Close(s) =>
      t.(scopes := t.scopes[s := Shut(t.scopes[s])], tasks := t.tasks + [Task(s, [], Reversed(t.scopes[s].cleanups))])
    case Run(k) => RunStep(t, k)
    case EndOuter => t.(outer := true)
  }

  const ROOT := Tree([Scope(None, 0, false, [], Some(map[]))], false, 0, [], false)

  predicate IsRun(t: Tree, es: seq<Event>)
    decreases |es|
  {
    es == [] || (Enabled(t, es[0]) && IsRun(Step(t, es[0]), es[1..]))
  }

  function After(t: Tree, es: seq<Event>): Tree
    requires IsRun(t, es)
    decreases |es|
  {
    if es == [] then t else After(Step(t, es[0]), es[1..])
  }

  // ---- Where the cleanups are ----

  function Count(es: seq<Entry>, id: nat): nat {
    if es == [] then 0 else (if es[0].id == id then 1 else 0) + Count(es[1..], id)
  }

  function InScopes(scopes: seq<Scope>, id: nat): nat {
    if scopes == [] then 0 else Count(scopes[0].cleanups, id) + InScopes(scopes[1..], id)
  }

  function InTask(task: Task, id: nat): nat {
    Count(task.done, id) + Count(task.pending, id)
  }

  function InTasks(tasks: seq<Task>, id: nat): nat {
    if tasks == [] then 0 else InTask(tasks[0], id) + InTasks(tasks[1..], id)
  }

  function Places(t: Tree, id: nat): nat {
    InScopes(t.scopes, id) + InTasks(t.tasks, id)
  }

  /** Every registered cleanup is at exactly one place: waiting in a scope, taken by a call, or run. */
  ghost predicate Conserved(t: Tree) {
    forall id: nat :: Places(t, id) == if id < t.issued then 1 else 0
  }

  lemma {:induction false} CountConcat(a: seq<Entry>, b: seq<Entry>, id: nat)
    ensures Count(a + b, id) == Count(a, id) + Count(b, id)
  {
    if a == [] {
      assert a + b == b;
    } else {
      assert (a + b)[1..] == a[1..] + b;
      CountConcat(a[1..], b, id);
    }
  }

  lemma {:induction false} CountReversed(es: seq<Entry>, id: nat)
    ensures Count(Reversed(es), id) == Count(es, id)
  {
    if es != [] {
      var n := |es| - 1;
      CountReversed(es[..n], id);
      CountConcat([es[n]], Reversed(es[..n]), id);
      CountConcat(es[..n], [es[n]], id);
      assert es == es[..n] + [es[n]];
    }
  }

  lemma {:induction false} CountHas(es: seq<Entry>, i: nat)
    requires i < |es|
    ensures Count(es, es[i].id) >= 1
  {
    if i > 0 {
      CountHas(es[1..], i - 1);
    }
  }

  lemma CountWithout(es: seq<Entry>, i: nat, id: nat)
    requires i < |es|
    ensures Count(es[..i] + es[i + 1..], id) + Count([es[i]], id) == Count(es, id)
  {
    CountConcat(es[..i], es[i + 1..], id);
    CountConcat(es[..i] + [es[i]], es[i + 1..], id);
    CountConcat(es[..i], [es[i]], id);
    assert es == es[..i] + [es[i]] + es[i + 1..];
  }

  lemma {:induction false} InScopesSet(scopes: seq<Scope>, s: nat, sc: Scope, id: nat)
    requires s < |scopes|
    ensures InScopes(scopes[s := sc], id) ==
      InScopes(scopes, id) - Count(scopes[s].cleanups, id) + Count(sc.cleanups, id)
    ensures Count(scopes[s].cleanups, id) <= InScopes(scopes, id)
  {
    if s > 0 {
      assert scopes[s := sc][1..] == scopes[1..][s - 1 := sc];
      InScopesSet(scopes[1..], s - 1, sc, id);
    }
  }

  lemma {:induction false} InScopesAdd(scopes: seq<Scope>, sc: Scope, id: nat)
    ensures InScopes(scopes + [sc], id) == InScopes(scopes, id) + Count(sc.cleanups, id)
  {
    if scopes != [] {
      assert (scopes + [sc])[1..] == scopes[1..] + [sc];
      InScopesAdd(scopes[1..], sc, id);
    }
  }

  lemma {:induction false} InTasksSet(tasks: seq<Task>, k: nat, task: Task, id: nat)
    requires k < |tasks|
    ensures InTasks(tasks[k := task], id) == InTasks(tasks, id) - InTask(tasks[k], id) + InTask(task, id)
    ensures InTask(tasks[k], id) <= InTasks(tasks, id)
  {
    if k > 0 {
      assert tasks[k := task][1..] == tasks[1..][k - 1 := task];
      InTasksSet(tasks[1..], k - 1, task, id);
    }
  }

  lemma {:induction false} InTasksAdd(tasks: seq<Task>, task: Task, id: nat)
    ensures InTasks(tasks + [task], id) == InTasks(tasks, id) + InTask(task, id)
  {
    if tasks != [] {
      assert (tasks + [task])[1..] == tasks[1..] + [task];
      InTasksAdd(tasks[1..], task, id);
    }
  }

  // ---- No cleanup is lost or doubled ----

  /** The cleanup that a step registers, if it registers one. */
  function Registered(t: Tree, q: Tree, id: nat): nat {
    if q.issued > t.issued && id == t.issued then 1 else 0
  }

  lemma AddPlaces(t: Tree, s: nat, id: nat)
    requires s < |t.scopes|
    ensures Places(Step(t, Add(s)), id) == Places(t, id) + (if id == t.issued then 1 else 0)
  {
    var e := Entry(t.issued, s, None);
    InScopesSet(t.scopes, s, Pushed(t.scopes[s], e), id);
    CountConcat(t.scopes[s].cleanups, [e], id);
  }

  lemma StartPlaces(t: Tree, s: nat, component: string, id: nat)
    requires s < |t.scopes|
    ensures var q := StartStep(t, s, component); Places(q, id) == Places(t, id) + Registered(t, q, id)
  {
    var q := StartStep(t, s, component);
    if q.issued != t.issued {
      var e := Entry(t.issued, s, Some(|t.scopes|));
      var sc := Opened(t.scopes[s], component, e);
      InScopesSet(t.scopes, s, sc, id);
      InScopesAdd(t.scopes[s := sc], Scope(Some(s), t.issued, false, [], Some(map[])), id);
      CountConcat(t.scopes[s].cleanups, [e], id);
    }
  }

  lemma RemovePlaces(t: Tree, s: nat, component: string, id: nat)
    requires s < |t.scopes|
    ensures Places(RemoveStep(t, s, component), id) == Places(t, id)
  {
    var sc := t.scopes[s];
    if sc.children.Some? && component in sc.children.value {
      var i := Position(sc.cleanups, sc.children.value[component].entry);
      if i < |sc.cleanups| {
        InScopesSet(t.scopes, s, Dropped(sc, component, i), id);
        CountWithout(sc.cleanups, i, id);
        InTasksAdd(t.tasks, Task(s, [], [sc.cleanups[i]]), id);
      }
    }
  }

  lemma ClosePlaces(t: Tree, s: nat, id: nat)
    requires s < |t.scopes|
    ensures Places(Step(t, Close(s)), id) == Places(t, id)
  {
    InScopesSet(t.scopes, s, Shut(t.scopes[s]), id);
    CountReversed(t.scopes[s].cleanups, id);
    InTasksAdd(t.tasks, Task(s, [], Reversed(t.scopes[s].cleanups)), id);
  }

  lemma RunPlaces(t: Tree, k: nat, id: nat)
    requires Enabled(t, Run(k))
    ensures Places(Step(t, Run(k)), id) == Places(t, id)
  {
    hide Reversed;
    var task := t.tasks[k];
    var e, rest := task.pending[0], task.pending[1..];
    CountConcat(task.done, [e], id);
    var q := RunStep(t, k);
    InTasksSet(t.tasks, k, q.tasks[k], id);
    if e.child.Some? {
      var x := e.child.value;
      InScopesSet(t.scopes, x, Shut(t.scopes[x]), id);
      CountReversed(t.scopes[x].cleanups, id);
      CountConcat(Reversed(t.scopes[x].cleanups), rest, id);
    }
  }

  lemma StepPlaces(t: Tree, e: Event, id: nat)
    requires Enabled(t, e)
    ensures Places(Step(t, e), id) == Places(t, id) + Registered(t, Step(t, e), id)
    ensures t.issued <= Step(t, e).issued <= t.issued + 1
  {
    match e
    case Add(s) => AddPlaces(t, s, id);
    case Start(s, c) => StartPlaces(t, s, c, id);
    case Remove(s, c) => RemovePlaces(t, s, c, id);
    case Close(s) => ClosePlaces(t, s, id);
    case Run(k) => RunPlaces(t, k, id);
    case EndOuter =>
  }

  lemma StepConserves(t: Tree, e: Event)
    requires Conserved(t) && Enabled(t, e)
    ensures Conserved(Step(t, e))
  {
    hide Places, Step;
    forall id: nat ensures Places(Step(t, e), id) == if id < Step(t, e).issued then 1 else 0 {
      StepPlaces(t, e, id);
    }
  }

  // ---- The shape of the tree ----

  ghost predicate EntryOk(t: Tree, e: Entry) {
    && e.id < t.issued && e.owner < |t.scopes|
    && (e.child.Some? ==>
          && e.owner < e.child.value < |t.scopes|
          && t.scopes[e.child.value].entry == e.id && t.scopes[e.child.value].parent == Some(e.owner))
  }

  ghost predicate Ascending(es: seq<Entry>) {
    forall i, j | 0 <= i < j < |es| :: es[i].id < es[j].id
  }

  /** A component's child scope has its cleanup in the list. */
  ghost predicate Listed(es: seq<Entry>, child: Child) {
    exists i :: 0 <= i < |es| && es[i].id == child.entry && es[i].child == Some(child.scope)
  }

  ghost predicate ChildrenOk(sc: Scope) {
    match sc.children
    case None => sc.cancelled
    case Some(m) =>
      && (forall c | c in m :: Listed(sc.cleanups, m[c]))
      && forall c, d | c in m && d in m && c != d :: m[c].entry != m[d].entry
  }

  ghost predicate ScopeOk(t: Tree, s: nat, sc: Scope) {
    && (sc.parent.Some? ==> sc.parent.value < s)
    && (forall i | 0 <= i < |sc.cleanups| :: EntryOk(t, sc.cleanups[i]) && sc.cleanups[i].owner == s)
    && Ascending(sc.cleanups)
    && ChildrenOk(sc)
  }

  function All(task: Task): seq<Entry> {
    task.done + task.pending
  }

  /** Cleanups of one scope run latest first. */
  ghost predicate LatestFirst(es: seq<Entry>) {
    forall i, j | 0 <= i < j < |es| && es[i].owner == es[j].owner :: es[i].id > es[j].id
  }

  /** A cleanup of another scope came in when that scope was closed in this call. */
  ghost predicate CameIn(task: Task, e: Entry) {
    e.owner == task.root || exists i :: 0 <= i < |task.done| && task.done[i].child == Some(e.owner)
  }

  ghost predicate TaskOk(t: Tree, task: Task) {
    && (forall i | 0 <= i < |All(task)| ::
          EntryOk(t, All(task)[i]) && All(task)[i].owner >= task.root && CameIn(task, All(task)[i]))
    && LatestFirst(All(task))
  }

  ghost predicate ScopesOk(t: Tree) {
    forall s: nat | s < |t.scopes| :: ScopeOk(t, s, t.scopes[s])
  }

  ghost predicate TasksOk(t: Tree) {
    forall k: nat | k < |t.tasks| :: TaskOk(t, t.tasks[k])
  }

  ghost predicate Inv(t: Tree) {
    !t.panicked && Conserved(t) && ScopesOk(t) && TasksOk(t)
  }

  /** What a step may do to the scopes' identities. */
  ghost predicate Grows(t: Tree, q: Tree) {
    && t.issued <= q.issued && |t.scopes| <= |q.scopes|
    && forall s: nat | s < |t.scopes| ::
         q.scopes[s].entry == t.scopes[s].entry && q.scopes[s].parent == t.scopes[s].parent
  }

  lemma StepGrows(t: Tree, e: Event)
    requires Enabled(t, e)
    ensures Grows(t, Step(t, e))
  {
  }

  lemma ScopeStays(t: Tree, q: Tree, s: nat, sc: Scope)
    requires Grows(t, q) && ScopeOk(t, s, sc)
    ensures ScopeOk(q, s, sc)
  {
    assert forall i | 0 <= i < |sc.cleanups| :: EntryOk(t, sc.cleanups[i]);
  }

  lemma TaskStays(t: Tree, q: Tree, task: Task)
    requires Grows(t, q) && TaskOk(t, task)
    ensures TaskOk(q, task)
  {
    assert forall i | 0 <= i < |All(task)| :: EntryOk(t, All(task)[i]);
  }

  lemma ListedMore(es: seq<Entry>, e: Entry, child: Child)
    requires Listed(es, child)
    ensures Listed(es + [e], child)
  {
    var i :| 0 <= i < |es| && es[i].id == child.entry && es[i].child == Some(child.scope);
    assert (es + [e])[i] == es[i];
  }

  lemma PushedOk(t: Tree, q: Tree, s: nat, e: Entry)
    requires Grows(t, q) && s < |t.scopes| && ScopeOk(t, s, t.scopes[s])
    requires e.id == t.issued && e.owner == s && EntryOk(q, e)
    ensures ScopeOk(q, s, Pushed(t.scopes[s], e))
  {
    var sc, pushed := t.scopes[s], Pushed(t.scopes[s], e);
    ScopeStays(t, q, s, sc);
    if sc.children.Some? {
      forall c | c in sc.children.value ensures Listed(pushed.cleanups, sc.children.value[c]) {
        ListedMore(sc.cleanups, e, sc.children.value[c]);
      }
    }
  }

  lemma OpenedOk(t: Tree, q: Tree, s: nat, component: string, e: Entry)
    requires Grows(t, q) && s < |t.scopes| && ScopeOk(t, s, t.scopes[s]) && t.scopes[s].children.Some?
    requires component !in t.scopes[s].children.value && e.child.Some?
    requires e.id == t.issued && e.owner == s && EntryOk(q, e)
    ensures ScopeOk(q, s, Opened(t.scopes[s], component, e))
  {
    var sc, wider := t.scopes[s], Opened(t.scopes[s], component, e);
    PushedOk(t, q, s, e);
    assert wider.cleanups == Pushed(sc, e).cleanups;
    assert wider.cleanups[|sc.cleanups|] == e;
    assert Listed(wider.cleanups, Child(e.child.value, e.id));
    forall c | c in sc.children.value ensures sc.children.value[c].entry < e.id {
      assert Listed(sc.cleanups, sc.children.value[c]);
    }
    hide Listed, EntryOk;
  }

  lemma DroppedOk(t: Tree, s: nat, component: string, i: nat)
    requires s < |t.scopes| && ScopeOk(t, s, t.scopes[s]) && t.scopes[s].children.Some?
    requires component in t.scopes[s].children.value && i < |t.scopes[s].cleanups|
    requires t.scopes[s].cleanups[i].id == t.scopes[s].children.value[component].entry
    ensures ScopeOk(t, s, Dropped(t.scopes[s], component, i))
  {
    hide EntryOk, ChildrenOk, Ascending;
    var sc, dropped := t.scopes[s], Dropped(t.scopes[s], component, i);
    assert forall j | 0 <= j < |dropped.cleanups| :: dropped.cleanups[j] == sc.cleanups[if j < i then j else j + 1];
    AscendingWithout(sc.cleanups, i);
    ChildrenWithout(sc, component, i);
  }

  lemma AscendingWithout(es: seq<Entry>, i: nat)
    requires i < |es| && Ascending(es)
    ensures Ascending(es[..i] + es[i + 1..])
  {
    var rest := es[..i] + es[i + 1..];
    assert forall j | 0 <= j < |rest| :: rest[j] == es[if j < i then j else j + 1];
  }

  lemma ChildrenWithout(sc: Scope, component: string, i: nat)
    requires ChildrenOk(sc) && sc.children.Some? && component in sc.children.value && i < |sc.cleanups|
    requires sc.cleanups[i].id == sc.children.value[component].entry
    ensures ChildrenOk(Dropped(sc, component, i))
  {
    hide Listed;
    var m := sc.children.value;
    forall c | c in m && c != component ensures Listed(Dropped(sc, component, i).cleanups, m[c]) {
      ListedStill(sc.cleanups, i, m[c]);
    }
  }

  lemma ListedStill(es: seq<Entry>, i: nat, child: Child)
    requires i < |es| && es[i].id != child.entry && Listed(es, child)
    ensures Listed(es[..i] + es[i + 1..], child)
  {
    var j :| 0 <= j < |es| && es[j].id == child.entry && es[j].child == Some(child.scope);
    var rest := es[..i] + es[i + 1..];
    assert rest[if j < i then j else j - 1] == es[j];
  }

  lemma ShutOk(t: Tree, s: nat)
    requires s < |t.scopes| && ScopeOk(t, s, t.scopes[s])
    ensures ScopeOk(t, s, Shut(t.scopes[s]))
  {
  }

  /** The cleanups of a closed scope, as a call takes them. */
  lemma ReversedOk(t: Tree, s: nat)
    requires s < |t.scopes| && ScopeOk(t, s, t.scopes[s])
    ensures var r := Reversed(t.scopes[s].cleanups);
      && (forall i | 0 <= i < |r| :: EntryOk(t, r[i]) && r[i].owner == s)
      && LatestFirst(r)
  {
  }

  // ---- Every step keeps the shape ----

  lemma OthersStay(t: Tree, q: Tree, s: nat)
    requires Grows(t, q) && ScopesOk(t) && |q.scopes| >= |t.scopes|
    requires forall r: nat | r < |t.scopes| && r != s :: q.scopes[r] == t.scopes[r]
    ensures forall r: nat | r < |t.scopes| && r != s :: ScopeOk(q, r, q.scopes[r])
  {
    forall r: nat | r < |t.scopes| && r != s ensures ScopeOk(q, r, q.scopes[r]) {
      ScopeStays(t, q, r, t.scopes[r]);
    }
  }

  lemma TasksStay(t: Tree, q: Tree)
    requires Grows(t, q) && TasksOk(t)
    ensures forall k: nat | k < |t.tasks| :: TaskOk(q, t.tasks[k])
  {
    forall k: nat | k < |t.tasks| ensures TaskOk(q, t.tasks[k]) {
      TaskStays(t, q, t.tasks[k]);
    }
  }

  lemma AddShape(t: Tree, s: nat)
    requires ScopesOk(t) && TasksOk(t) && s < |t.scopes|
    ensures ScopesOk(Step(t, Add(s))) && TasksOk(Step(t, Add(s)))
  {
    var q := Step(t, Add(s));
    OthersStay(t, q, s);
    TasksStay(t, q);
    PushedOk(t, q, s, Entry(t.issued, s, None));
  }

  lemma StartShape(t: Tree, s: nat, component: string)
    requires ScopesOk(t) && TasksOk(t) && s < |t.scopes|
    ensures ScopesOk(StartStep(t, s, component)) && TasksOk(StartStep(t, s, component))
    ensures StartStep(t, s, component).panicked == t.panicked
  {
    var q := StartStep(t, s, component);
    assert ScopeOk(t, s, t.scopes[s]);
    if q.issued != t.issued {
      var e := Entry(t.issued, s, Some(|t.scopes|));
      assert q.scopes[|t.scopes|] == Scope(Some(s), t.issued, false, [], Some(map[]));
      assert Grows(t, q);
      OthersStay(t, q, s);
      TasksStay(t, q);
      assert EntryOk(q, e);
      OpenedOk(t, q, s, component, e);
    }
  }

  lemma OneTaskOk(t: Tree, s: nat, e: Entry)
    requires EntryOk(t, e) && e.owner == s
    ensures TaskOk(t, Task(s, [], [e]))
  {
    assert All(Task(s, [], [e])) == [e];
  }

  lemma RemoveShape(t: Tree, s: nat, component: string)
    requires ScopesOk(t) && TasksOk(t) && s < |t.scopes|
    ensures ScopesOk(RemoveStep(t, s, component)) && TasksOk(RemoveStep(t, s, component))
    ensures RemoveStep(t, s, component).panicked == t.panicked
  {
    var sc := t.scopes[s];
    assert ScopeOk(t, s, sc);
    if sc.children.Some? && component in sc.children.value {
      assert Listed(sc.cleanups, sc.children.value[component]);
      var i := Position(sc.cleanups, sc.children.value[component].entry);
      assert EntryOk(t, sc.cleanups[i]) && sc.cleanups[i].owner == s;
      hide ScopeOk, TaskOk, EntryOk, All, Listed;
      DroppedOk(t, s, component, i);
      var task := Task(s, [], [sc.cleanups[i]]);
      OneTaskOk(t, s, sc.cleanups[i]);
      var q := RemoveStep(t, s, component);
      OthersStay(t, q, s);
      TasksStay(t, q);
      ScopeStays(t, q, s, Dropped(sc, component, i));
      TaskStays(t, q, task);
    }
  }

  lemma CloseShape(t: Tree, s: nat)
    requires ScopesOk(t) && TasksOk(t) && s < |t.scopes|
    ensures ScopesOk(Step(t, Close(s))) && TasksOk(Step(t, Close(s)))
  {
    ShutOk(t, s);
    ReversedOk(t, s);
    var task := Task(s, [], Reversed(t.scopes[s].cleanups));
    assert All(task) == task.pending;
    assert TaskOk(t, task);
    hide ScopeOk, TaskOk, EntryOk, All, Reversed;
    var q := Step(t, Close(s));
    OthersStay(t, q, s);
    TasksStay(t, q);
    ScopeStays(t, q, s, Shut(t.scopes[s]));
    TaskStays(t, q, task);
  }

  lemma TakenTwice(task: Task, j: nat)
    requires j < |task.done| && task.pending != []
    ensures task.done[j].id == task.pending[0].id ==> InTask(task, task.done[j].id) >= 2
  {
    CountHas(task.done, j);
    CountHas(task.pending, 0);
  }

  /** A cleanup that is still to run has not run. */
  lemma NotRunYet(t: Tree, k: nat, j: nat)
    requires Conserved(t) && k < |t.tasks| && t.tasks[k].pending != [] && j < |t.tasks[k].done|
    ensures t.tasks[k].done[j].id != t.tasks[k].pending[0].id
  {
    TakenTwice(t.tasks[k], j);
    var id := t.tasks[k].pending[0].id;
    InTasksSet(t.tasks, k, t.tasks[k], id);
    assert Places(t, id) <= 1;
  }

  /** The scope that a cleanup closes has no cleanup in that call yet. */
  lemma NoneOfIts(t: Tree, k: nat, x: nat)
    requires Conserved(t) && TasksOk(t) && Enabled(t, Run(k)) && t.tasks[k].pending[0].child == Some(x)
    ensures forall i | 0 <= i < |All(t.tasks[k])| :: All(t.tasks[k])[i].owner != x
  {
    var task := t.tasks[k];
    var e := task.pending[0];
    assert TaskOk(t, task) && All(task)[|task.done|] == e;
    forall j | 0 <= j < |task.done| ensures task.done[j].child != Some(x) {
      NotRunYet(t, k, j);
      assert All(task)[j] == task.done[j];
    }
    assert forall i | 0 <= i < |All(task)| :: CameIn(task, All(task)[i]);
  }

  lemma RunTaskOk(t: Tree, k: nat)
    requires Conserved(t) && ScopesOk(t) && TasksOk(t) && Enabled(t, Run(k))
    ensures TaskOk(t, RunStep(t, k).tasks[k])
  {
    hide ScopeOk, Reversed, EntryOk, LatestFirst, CameIn, Conserved, Step;
    assert TaskOk(t, t.tasks[k]);
    if t.tasks[k].pending[0].child.None? {
      RunCallOk(t, t.tasks[k], RunStep(t, k).tasks[k]);
    } else {
      RunCloseOk(t, k, t.tasks[k].pending[0].child.value);
    }
  }

  lemma RunCallOk(t: Tree, task: Task, after: Task)
    requires TaskOk(t, task) && task.pending != []
    requires after == task.(done := task.done + [task.pending[0]], pending := task.pending[1..])
    ensures TaskOk(t, after)
  {
    assert All(after) == All(task);
    forall i | 0 <= i < |All(task)| ensures CameIn(after, All(task)[i]) {
      CameInStill(task, after, task.pending[0], All(task)[i]);
    }
  }

  lemma RunCloseOk(t: Tree, k: nat, x: nat)
    requires Conserved(t) && ScopesOk(t) && TasksOk(t) && Enabled(t, Run(k)) && t.tasks[k].pending[0].child == Some(x)
    ensures TaskOk(t, RunStep(t, k).tasks[k])
  {
    hide Reversed, LatestFirst, Conserved, Step, ScopeOk;
    var task, after := t.tasks[k], RunStep(t, k).tasks[k];
    var e, rest := task.pending[0], task.pending[1..];
    assert task.pending == [e] + rest;
    assert TaskOk(t, task) && All(task)[|task.done|] == e && EntryOk(t, e) && e.owner >= task.root;
    NoneOfIts(t, k, x);
    hide EntryOk, TaskOk, TasksOk;
    assert ScopeOk(t, x, t.scopes[x]);
    ReversedOk(t, x);
    var batch := Reversed(t.scopes[x].cleanups);
    forall f | CameIn(task, f) ensures CameIn(after, f) {
      CameInStill(task, after, e, f);
    }
    hide CameIn, ScopesOk;
    assert after.done[|task.done|].child == Some(x);
    assert All(after) == task.done + [e] + batch + rest;
    assert All(task) == task.done + [e] + rest;
    BatchOk(t, task, after, task.done + [e], batch, rest, x);
  }

  lemma CameInStill(task: Task, after: Task, e: Entry, f: Entry)
    requires after.root == task.root && after.done == task.done + [e] && CameIn(task, f)
    ensures CameIn(after, f)
  {
    if i :| 0 <= i < |task.done| && task.done[i].child == Some(f.owner) {
      assert after.done[i] == task.done[i];
    }
  }

  lemma BatchOk(t: Tree, task: Task, after: Task, a: seq<Entry>, batch: seq<Entry>, b: seq<Entry>, x: nat)
    requires TaskOk(t, task) && All(task) == a + b && All(after) == a + batch + b
    requires after.root == task.root < x && (forall f | CameIn(task, f) :: CameIn(after, f))
    requires exists i :: 0 <= i < |after.done| && after.done[i].child == Some(x)
    requires (forall i | 0 <= i < |batch| :: EntryOk(t, batch[i]) && batch[i].owner == x) && LatestFirst(batch)
    requires forall i | 0 <= i < |All(task)| :: All(task)[i].owner != x
    ensures TaskOk(t, after)
  {
    var was, now := All(task), All(after);
    forall i | 0 <= i < |now| ensures EntryOk(t, now[i]) && now[i].owner >= after.root && CameIn(after, now[i]) {
      if |a| <= i < |a| + |batch| {
        assert now[i] == batch[i - |a|];
      } else {
        assert now[i] == was[if i < |a| then i else i - |batch|];
        assert CameIn(task, now[i]);
      }
    }
    forall i, j | 0 <= i < j < |now| ensures now[i].owner == now[j].owner ==> now[i].id > now[j].id {
      assert |a| <= i < |a| + |batch| ==> now[i] == batch[i - |a|];
      assert i < |a| ==> now[i] == was[i];
      assert i >= |a| + |batch| ==> now[i] == was[i - |batch|];
      assert |a| <= j < |a| + |batch| ==> now[j] == batch[j - |a|];
      assert j < |a| ==> now[j] == was[j];
      assert j >= |a| + |batch| ==> now[j] == was[j - |batch|];
    }
  }

  lemma RunShape(t: Tree, k: nat)
    requires Conserved(t) && ScopesOk(t) && TasksOk(t) && Enabled(t, Run(k))
    ensures ScopesOk(RunStep(t, k)) && TasksOk(RunStep(t, k))
  {
    var q := RunStep(t, k);
    StepGrows(t, Run(k));
    var e := t.tasks[k].pending[0];
    var x := if e.child.Some? then e.child.value else |t.scopes|;
    OthersStay(t, q, x);
    TasksStay(t, q);
    RunTaskOk(t, k);
    TaskStays(t, q, q.tasks[k]);
    if x < |t.scopes| {
      ShutOk(t, x);
      ScopeStays(t, q, x, Shut(t.scopes[x]));
    }
  }

  lemma StepKeeps(t: Tree, e: Event)
    requires Inv(t) && Enabled(t, e)
    ensures Inv(Step(t, e))
  {
    StepConserves(t, e);
    hide Conserved, ScopeOk, TaskOk;
    match e
    case Add(s) => AddShape(t, s);
    case Start(s, c) => StartShape(t, s, c);
    case Remove(s, c) => RemoveShape(t, s, c);
    case Close(s) => CloseShape(t, s);
    case Run(k) => RunShape(t, k);
    case EndOuter =>
      OthersStay(t, Step(t, e), |t.scopes|);
      TasksStay(t, Step(t, e));
  }

  lemma RootHolds()
    ensures Inv(ROOT)
  {
    forall id: nat ensures Places(ROOT, id) == 0 {
      assert ROOT.scopes[1..] == [];
      assert InScopes(ROOT.scopes, id) == Count([], id) + InScopes([], id);
    }
  }

  lemma {:induction false} RunKeeps(t: Tree, es: seq<Event>)
    requires Inv(t) && IsRun(t, es)
    ensures Inv(After(t, es))
    decreases |es|
  {
    if es != [] {
      StepKeeps(t, es[0]);
      RunKeeps(Step(t, es[0]), es[1..]);
    }
  }

  // ---- What follows for every interleaving ----

  ghost predicate Drained(t: Tree) {
    forall k: nat | k < |t.tasks| :: t.tasks[k].pending == []
  }

  ghost predicate HasRun(t: Tree, id: nat) {
    exists k: nat, i :: k < |t.tasks| && 0 <= i < |t.tasks[k].done| && t.tasks[k].done[i].id == id
  }

  /** The i-th cleanup that call k ran. */
  ghost predicate RanAt(t: Tree, k: nat, i: nat, id: nat) {
    k < |t.tasks| && i < |t.tasks[k].done| && t.tasks[k].done[i].id == id
  }

  /** No cleanup runs twice, in one call or in two, in any run. */
  lemma RunsAtMostOnce(es: seq<Event>, id: nat, k: nat, i: nat, l: nat, j: nat)
    requires IsRun(ROOT, es) && RanAt(After(ROOT, es), k, i, id) && RanAt(After(ROOT, es), l, j, id)
    ensures k == l && i == j
  {
    RootHolds();
    RunKeeps(ROOT, es);
    hide After, ScopesOk, TasksOk;
    RanOnce(After(ROOT, es), k, i, l, j);
  }

  lemma RanOnce(t: Tree, k: nat, i: nat, l: nat, j: nat)
    requires Conserved(t) && k < |t.tasks| && l < |t.tasks| && i < |t.tasks[k].done| && j < |t.tasks[l].done|
    requires t.tasks[k].done[i].id == t.tasks[l].done[j].id
    ensures k == l && i == j
  {
    var id := t.tasks[k].done[i].id;
    assert Places(t, id) <= 1;
    InTasksSet(t.tasks, k, t.tasks[k], id);
    CountHas(t.tasks[k].done, i);
    CountHas(t.tasks[l].done, j);
    if k == l {
      CountTwice(t.tasks[k].done, if i < j then i else j, if i < j then j else i);
    } else {
      InTwoTasks(t.tasks, if k < l then k else l, if k < l then l else k, id);
    }
  }

  lemma {:induction false} CountTwice(es: seq<Entry>, i: nat, j: nat)
    requires i <= j < |es| && es[i].id == es[j].id
    ensures i < j ==> Count(es, es[i].id) >= 2
  {
    if i == 0 && j > 0 {
      CountHas(es[1..], j - 1);
    } else if i > 0 {
      CountTwice(es[1..], i - 1, j - 1);
    }
  }

  lemma {:induction false} InTwoTasks(tasks: seq<Task>, k: nat, l: nat, id: nat)
    requires k < l < |tasks|
    ensures InTask(tasks[k], id) + InTask(tasks[l], id) <= InTasks(tasks, id)
  {
    if k == 0 {
      InTasksSet(tasks[1..], l - 1, tasks[l], id);
    } else {
      InTwoTasks(tasks[1..], k - 1, l - 1, id);
    }
  }

  /** A cleanup that has left its scope never comes back into one. */
  lemma StepNeverReturns(t: Tree, e: Event, id: nat)
    requires Enabled(t, e) && id < t.issued && InScopes(t.scopes, id) == 0
    ensures InScopes(Step(t, e).scopes, id) == 0
  {
    match e
    case Add(s) =>
      var x := Entry(t.issued, s, None);
      InScopesSet(t.scopes, s, Pushed(t.scopes[s], x), id);
      CountConcat(t.scopes[s].cleanups, [x], id);
    case Start(s, c) =>
      if StartStep(t, s, c).issued != t.issued {
        var x := Entry(t.issued, s, Some(|t.scopes|));
        var sc := Opened(t.scopes[s], c, x);
        InScopesSet(t.scopes, s, sc, id);
        InScopesAdd(t.scopes[s := sc], Scope(Some(s), t.issued, false, [], Some(map[])), id);
        CountConcat(t.scopes[s].cleanups, [x], id);
      }
    case Remove(s, c) =>
      var sc := t.scopes[s];
      if sc.children.Some? && c in sc.children.value {
        var i := Position(sc.cleanups, sc.children.value[c].entry);
        if i < |sc.cleanups| {
          InScopesSet(t.scopes, s, Dropped(sc, c, i), id);
          CountWithout(sc.cleanups, i, id);
        }
      }
    case Close(s) => InScopesSet(t.scopes, s, Shut(t.scopes[s]), id);
    case Run(k) =>
      var x := t.tasks[k].pending[0].child;
      if x.Some? {
        InScopesSet(t.scopes, x.value, Shut(t.scopes[x.value]), id);
      }
    case EndOuter =>
  }

  lemma {:induction false} NeverReturns(t: Tree, es: seq<Event>, id: nat)
    requires IsRun(t, es) && id < t.issued && InScopes(t.scopes, id) == 0
    ensures InScopes(After(t, es).scopes, id) == 0 && id < After(t, es).issued
    decreases |es|
  {
    if es != [] {
      StepNeverReturns(t, es[0], id);
      StepPlaces(t, es[0], id);
      NeverReturns(Step(t, es[0]), es[1..], id);
    }
  }

  lemma {:induction false} TakenIsRun(tasks: seq<Task>, id: nat) returns (k: nat, i: nat)
    requires InTasks(tasks, id) > 0 && forall j: nat | j < |tasks| :: tasks[j].pending == []
    ensures k < |tasks| && i < |tasks[k].done| && tasks[k].done[i].id == id
  {
    if Count(tasks[0].done, id) > 0 {
      k := 0;
      i := CountedAt(tasks[0].done, id);
    } else {
      k, i := TakenIsRun(tasks[1..], id);
      k := k + 1;
    }
  }

  lemma {:induction false} CountedAt(es: seq<Entry>, id: nat) returns (i: nat)
    requires Count(es, id) > 0
    ensures i < |es| && es[i].id == id
  {
    if es[0].id == id {
      i := 0;
    } else {
      i := CountedAt(es[1..], id);
      i := i + 1;
    }
  }

  /** In every reachable state each call runs the cleanups of a scope latest registration first, and nothing panics. */
  lemma OrderAndSafety(es: seq<Event>, k: nat, i: nat, j: nat)
    requires IsRun(ROOT, es)
    ensures var t := After(ROOT, es);
      && !t.panicked
      && (k < |t.tasks| && i < j < |t.tasks[k].done| && t.tasks[k].done[i].owner == t.tasks[k].done[j].owner ==>
            t.tasks[k].done[i].id > t.tasks[k].done[j].id)
  {
    RootHolds();
    RunKeeps(ROOT, es);
    var t := After(ROOT, es);
    if k < |t.tasks| && i < j < |t.tasks[k].done| {
      assert TaskOk(t, t.tasks[k]);
      assert All(t.tasks[k])[i] == t.tasks[k].done[i] && All(t.tasks[k])[j] == t.tasks[k].done[j];
    }
  }

  /** A closed scope starts nothing and stays closed. */
  lemma ClosedStartsNothing(t: Tree, s: nat, es: seq<Event>, component: string)
    requires s < |t.scopes| && t.scopes[s].cancelled && IsRun(t, es)
    ensures s < |After(t, es).scopes| && StartStep(After(t, es), s, component) == After(t, es)
    decreases |es|
  {
    if es != [] {
      ClosedStartsNothing(Step(t, es[0]), s, es[1..], component);
    }
  }

  predicate Closed(sc: Scope) {
    sc.cancelled && sc.children.None?
  }

  /** Closes the scope, again perhaps: its Close, or the cleanup in its parent. */
  predicate Closes(t: Tree, e: Event, s: nat) {
    || e == Close(s)
    || (e.Run? && e.k < |t.tasks| && t.tasks[e.k].pending != [] && t.tasks[e.k].pending[0].child == Some(s))
  }

  predicate Unclosed(t: Tree, es: seq<Event>, s: nat)
    requires IsRun(t, es)
    decreases |es|
  {
    es == [] || (!Closes(t, es[0], s) && Unclosed(Step(t, es[0]), es[1..], s))
  }

  lemma LateStays(t: Tree, e: Event, s: nat, x: Entry)
    requires Enabled(t, e) && s < |t.scopes| && Closed(t.scopes[s]) && x in t.scopes[s].cleanups && !Closes(t, e, s)
    ensures s < |Step(t, e).scopes| && Closed(Step(t, e).scopes[s]) && x in Step(t, e).scopes[s].cleanups
  {
  }

  lemma {:induction false} RunLateStays(t: Tree, es: seq<Event>, s: nat, x: Entry)
    requires IsRun(t, es) && s < |t.scopes| && Closed(t.scopes[s]) && x in t.scopes[s].cleanups && Unclosed(t, es, s)
    ensures s < |After(t, es).scopes| && x in After(t, es).scopes[s].cleanups
    decreases |es|
  {
    hide Closed, Closes;
    if es != [] {
      LateStays(t, es[0], s, x);
      hide Step, Enabled;
      RunLateStays(Step(t, es[0]), es[1..], s, x);
    }
  }

  /**
   * A cleanup added to a closed scope: until the scope is closed once more, by whichever call, it
   * stays listed there and does not run.
   */
  lemma LateCleanupWaits(before: seq<Event>, s: nat, after: seq<Event>)
    requires IsRun(ROOT, before) && s < |After(ROOT, before).scopes| && Closed(After(ROOT, before).scopes[s])
    requires IsRun(Step(After(ROOT, before), Add(s)), after) && Unclosed(Step(After(ROOT, before), Add(s)), after, s)
    ensures var id, end := After(ROOT, before).issued, After(Step(After(ROOT, before), Add(s)), after);
      s < |end.scopes| && Entry(id, s, None) in end.scopes[s].cleanups && !HasRun(end, id)
  {
    var t := After(ROOT, before);
    var x := Entry(t.issued, s, None);
    var q := Step(t, Add(s));
    RootHolds();
    RunKeeps(ROOT, before);
    StepKeeps(t, Add(s));
    RunKeeps(q, after);
    assert q.scopes[s].cleanups == t.scopes[s].cleanups + [x];
    RunLateStays(q, after, s, x);
    var end := After(q, after);
    hide After, Step, Unclosed, ScopesOk, TasksOk;
    ListedHasNotRun(end, s, x);
  }

  /** What is listed in a scope has not run: it is at one place. */
  lemma ListedHasNotRun(t: Tree, s: nat, x: Entry)
    requires Conserved(t) && s < |t.scopes| && x in t.scopes[s].cleanups
    ensures !HasRun(t, x.id)
  {
    var i :| 0 <= i < |t.scopes[s].cleanups| && t.scopes[s].cleanups[i] == x;
    CountHas(t.scopes[s].cleanups, i);
    InScopesSet(t.scopes, s, t.scopes[s], x.id);
    assert Places(t, x.id) <= 1;
    forall k: nat, j | k < |t.tasks| && 0 <= j < |t.tasks[k].done| ensures t.tasks[k].done[j].id != x.id {
      CountHas(t.tasks[k].done, j);
      InTasksSet(t.tasks, k, t.tasks[k], t.tasks[k].done[j].id);
    }
  }

  ghost predicate Started(t: Tree, s: nat, component: string, child: Child) {
    && s < |t.scopes| && t.scopes[s].children.Some?
    && component in t.scopes[s].children.value && t.scopes[s].children.value[component] == child
  }

  /** Ends the component's stay in the scope: its removal, or a close of the scope by any call. */
  predicate Ends(t: Tree, e: Event, s: nat, component: string) {
    e == Remove(s, component) || Closes(t, e, s)
  }

  /** A run in which nothing ends the component's stay. */
  predicate Undisturbed(t: Tree, es: seq<Event>, s: nat, component: string)
    requires IsRun(t, es)
    decreases |es|
  {
    es == [] || (!Ends(t, es[0], s, component) && Undisturbed(Step(t, es[0]), es[1..], s, component))
  }

  /**
   * In every run a component keeps one child scope through all its stages: until it is removed or
   * the scope is closed, its child stays the same, the cleanup that closes the child stays
   * registered, and further starts change nothing.
   */
  lemma OneChildPerComponent(before: seq<Event>, after: seq<Event>, s: nat, component: string, child: Child)
    requires IsRun(ROOT, before) && IsRun(After(ROOT, before), after)
    requires Started(After(ROOT, before), s, component, child)
    requires Undisturbed(After(ROOT, before), after, s, component)
    ensures var end := After(After(ROOT, before), after);
      && Started(end, s, component, child)
      && StartStep(end, s, component) == end
      && Listed(end.scopes[s].cleanups, child)
  {
    var t := After(ROOT, before);
    RootHolds();
    RunKeeps(ROOT, before);
    RunKeeps(t, after);
    RunStaysStarted(t, after, s, component, child);
    hide After, Conserved, TasksOk, EntryOk;
    var end := After(t, after);
    assert ScopeOk(end, s, end.scopes[s]);
  }

  lemma {:induction false} RunStaysStarted(t: Tree, es: seq<Event>, s: nat, component: string, child: Child)
    requires IsRun(t, es) && Started(t, s, component, child) && Undisturbed(t, es, s, component)
    ensures Started(After(t, es), s, component, child)
    decreases |es|
  {
    hide Started, Ends;
    if es != [] {
      StaysStarted(t, es[0], s, component, child);
      hide Step, Enabled;
      RunStaysStarted(Step(t, es[0]), es[1..], s, component, child);
    }
  }

  lemma StaysStarted(t: Tree, e: Event, s: nat, component: string, child: Child)
    requires Enabled(t, e) && Started(t, s, component, child) && !Ends(t, e, s, component)
    ensures Started(Step(t, e), s, component, child)
  {
  }

  /** The cleanups that have run, call by call. */
  function RunIds(tasks: seq<Task>): seq<nat> {
    if tasks == [] then [] else IdsOf(tasks[0].done) + RunIds(tasks[1..])
  }

  function IdsOf(es: seq<Entry>): (r: seq<nat>)
    ensures |r| == |es|
  {
    if es == [] then [] else [es[0].id] + IdsOf(es[1..])
  }

  lemma {:induction false} IdsOfCount(es: seq<Entry>, id: nat)
    ensures multiset(IdsOf(es))[id] == Count(es, id)
  {
    if es != [] {
      IdsOfCount(es[1..], id);
    }
  }

  lemma {:induction false} RunIdsCount(tasks: seq<Task>, id: nat)
    ensures multiset(RunIds(tasks))[id] <= InTasks(tasks, id)
  {
    if tasks != [] {
      RunIdsCount(tasks[1..], id);
      IdsOfCount(tasks[0].done, id);
    }
  }

  lemma {:induction false} RunIdsSet(tasks: seq<Task>, k: nat, task: Task)
    requires k < |tasks|
    ensures |RunIds(tasks[k := task])| == |RunIds(tasks)| - |tasks[k].done| + |task.done|
  {
    if k > 0 {
      assert tasks[k := task][1..] == tasks[1..][k - 1 := task];
      RunIdsSet(tasks[1..], k - 1, task);
    }
  }

  lemma {:induction false} RunIdsSnoc(tasks: seq<Task>, task: Task)
    requires task.done == []
    ensures |RunIds(tasks + [task])| == |RunIds(tasks)|
  {
    if tasks == [] {
      assert [task][1..] == [];
      assert RunIds([task]) == IdsOf(task.done) + RunIds([]);
    } else {
      assert (tasks + [task])[1..] == tasks[1..] + [task];
      RunIdsSnoc(tasks[1..], task);
    }
  }

  /** How many cleanup steps a run takes, and how many of its steps may register a cleanup. */
  function RunSteps(es: seq<Event>): nat {
    if es == [] then 0 else (if es[0].Run? then 1 else 0) + RunSteps(es[1..])
  }

  function Registrations(es: seq<Event>): nat {
    if es == [] then 0 else (if es[0].Add? || es[0].Start? then 1 else 0) + Registrations(es[1..])
  }

  lemma StepCounts(t: Tree, e: Event)
    requires Enabled(t, e)
    ensures |RunIds(Step(t, e).tasks)| == |RunIds(t.tasks)| + if e.Run? then 1 else 0
    ensures Step(t, e).issued <= t.issued + if e.Add? || e.Start? then 1 else 0
  {
    hide RunIds, Ended, Opened, Dropped, Shut, Pushed;
    var q := Step(t, e);
    if e.Run? {
      RunIdsSet(t.tasks, e.k, q.tasks[e.k]);
    } else if q.tasks != t.tasks {
      RunIdsSnoc(t.tasks, q.tasks[|t.tasks|]);
    }
  }

  lemma {:induction false} RunCounts(t: Tree, es: seq<Event>)
    requires IsRun(t, es)
    ensures |RunIds(After(t, es).tasks)| == |RunIds(t.tasks)| + RunSteps(es)
    ensures After(t, es).issued <= t.issued + Registrations(es)
    decreases |es|
  {
    hide RunIds;
    if es != [] {
      StepCounts(t, es[0]);
      hide Step, Enabled;
      RunCounts(Step(t, es[0]), es[1..]);
    }
  }

  /**
   * Every run takes at most as many cleanup steps as it registered cleanups: calls end when nothing
   * new is registered.
   */
  lemma RunsAreBounded(es: seq<Event>)
    requires IsRun(ROOT, es)
    ensures RunSteps(es) == |RunIds(After(ROOT, es).tasks)| <= After(ROOT, es).issued <= Registrations(es)
  {
    RootHolds();
    RunKeeps(ROOT, es);
    RunCounts(ROOT, es);
    var q := After(ROOT, es);
    assert |RunIds(ROOT.tasks)| == 0 && ROOT.issued == 0;
    hide After, ScopesOk, TasksOk;
    forall id: nat ensures multiset(RunIds(q.tasks))[id] <= if id < q.issued then 1 else 0 {
      RunIdsCount(q.tasks, id);
      assert Places(q, id) == if id < q.issued then 1 else 0;
    }
    CountsOnce(RunIds(q.tasks), q.issued);
    OnceIsShort(RunIds(q.tasks), q.issued);
  }

  // ---- The locked sections of the source ----

  class LockedScope {
    const parent: Option<nat>
    const entry: nat
    var cancelled: bool
    var cleanups: seq<Entry>
    var children: Option<map<string, Child>>

    function Value(): Scope
      reads this
    {
      Scope(parent, entry, cancelled, cleanups, children)
    }

    constructor (parent: Option<nat>, entry: nat)
      ensures Value() == Scope(parent, entry, false, [], Some(map[]))
    {
      this.parent, this.entry := parent, entry;
      cancelled, cleanups, children := false, [], Some(map[]);
    }

    method Add(e: Entry)
      modifies this
      ensures Value() == Pushed(old(Value()), e)
    {
      cleanups := cleanups + [e];
    }

    /** Finds or makes the component's child; the caller starts the component afterwards. */
    method Start(component: string, ended: bool, e: Entry) returns (child: Option<Child>)
      requires e.child.Some? && ChildrenOk(Value()) && (cancelled ==> ended)
      modifies this
      ensures ended ==> child == None && Value() == old(Value())
      ensures !ended && old(children).Some? && component in old(children).value ==>
        child == Some(old(children).value[component]) && Value() == old(Value())
      ensures !ended && old(children).Some? && component !in old(children).value ==>
        child == Some(Child(e.child.value, e.id)) && Value() == Opened(old(Value()), component, e)
    {
      if ended {
        return None;
      }
      if component !in children.value {
        cleanups := cleanups + [e];
        children := Some(children.value[component := Child(e.child.value, e.id)]);
      }
      return Some(children.value[component]);
    }

    /** Takes the component's cleanup out of the list; the caller runs it. */
    method Remove(component: string) returns (e: Option<Entry>)
      requires ChildrenOk(Value())
      modifies this
      ensures old(children).None? || component !in old(children).value ==> e == None && Value() == old(Value())
      ensures old(children).Some? && component in old(children).value ==>
        var i := Position(old(cleanups), old(children).value[component].entry);
        i < |old(cleanups)| && e == Some(old(cleanups)[i]) && Value() == Dropped(old(Value()), component, i)
    {
      if children.None? || component !in children.value {
        return None;
      }
      var child := children.value[component];
      assert Listed(cleanups, child);
      children := Some(children.value - {component});
      var i := 0;
      while cleanups[i].id != child.entry
        invariant 0 <= i < |cleanups| && i <= Position(cleanups, child.entry)
        invariant cleanups == old(cleanups) && Value() == old(Value()).(children := children)
        invariant children == Some(old(children).value - {component})
        invariant Position(cleanups, child.entry) < |cleanups|
        decreases |cleanups| - i
      {
        i := i + 1;
      }
      e := Some(cleanups[i]);
      cleanups := cleanups[..i] + cleanups[i + 1..];
    }

    /** Ends the scope and takes its cleanups, latest first; the caller runs them in that order. */
    method Close() returns (taken: seq<Entry>)
      modifies this
      ensures Value() == Shut(old(Value())) && taken == Reversed(old(cleanups))
    {
      cancelled := true;
      taken := [];
      var i := |cleanups|;
      while i > 0
        invariant 0 <= i <= |cleanups| && cleanups == old(cleanups) && cancelled
        invariant |taken| == |cleanups| - i
        invariant forall j | 0 <= j < |taken| :: taken[j] == cleanups[|cleanups| - 1 - j]
      {
        i := i - 1;
        taken := taken + [cleanups[i]];
      }
      cleanups := [];
      children := None;
    }
  }
}
