/**
 * Which outbounds a URL test measures: a depth-first walk over a graph of outbound groups that may
 * be cyclic or dangling, then exclusion, a single target, or moving one target to the front.
 */
module UrlTestTargets {
  import opened Options

  /** A group names its members and its selected member; a concrete outbound has its own tag. */
  datatype Outbound = Group(all: seq<string>, now: string) | Concrete(tag: string)

  type Graph = map<string, Outbound>

  datatype Fault = Missing(tag: string) | Cyclic(tag: string) | Unselected | NotAGroup | NotAMember | Nothing

  datatype Outcome = Found(tags: seq<string>) | Failed(fault: Fault)

  // ---- The reference: every leaf of the unfolded graph, with repetitions ----

  function Leaves(g: Graph, tag: string, visiting: set<string>): Outcome
    decreases g.Keys - visiting, 0
  {
    if tag !in g then Failed(Missing(tag))
    else match g[tag]
      case Concrete(t) => Found([t])
      case Group(all, _) => if tag in visiting then Failed(Cyclic(tag)) else LeavesOf(g, all, visiting + {tag})
  }

  function LeavesOf(g: Graph, tags: seq<string>, visiting: set<string>): Outcome
    decreases g.Keys - visiting, 1, |tags|
  {
    if tags == [] then Found([])
    else
      var first := Leaves(g, tags[0], visiting);
      if first.Failed? then first
      else
        var rest := LeavesOf(g, tags[1..], visiting);
        if rest.Failed? then rest else Found(first.tags + rest.tags)
  }

  // ---- Paths ----

  ghost predicate Edge(g: Graph, a: string, b: string) {
    a in g && g[a].Group? && b in g[a].all
  }

  ghost predicate Path(g: Graph, p: seq<string>) {
    p != [] && forall i | 0 <= i < |p| - 1 :: Edge(g, p[i], p[i + 1])
  }

  /** The path ends at a tag that is missing, or at a group it (or the walk so far) went through. */
  ghost predicate Faulty(g: Graph, p: seq<string>, visiting: set<string>)
    requires p != []
  {
    var last := p[|p| - 1];
    last !in g || (g[last].Group? && (last in visiting || last in p[..|p| - 1]))
  }

  ghost predicate FaultyFrom(g: Graph, p: seq<string>, tags: seq<string>, visiting: set<string>) {
    Path(g, p) && p[0] in tags && Faulty(g, p, visiting)
  }

  ghost predicate LeafFrom(g: Graph, p: seq<string>, tags: seq<string>, t: string) {
    Path(g, p) && p[0] in tags && p[|p| - 1] in g && g[p[|p| - 1]] == Concrete(t)
  }

  /** A path without its first node is a path. */
  lemma TailPath(g: Graph, p: seq<string>)
    requires Path(g, p) && |p| > 1
    ensures Path(g, p[1..]) && Edge(g, p[0], p[1]) && p[1..][|p| - 2] == p[|p| - 1]
  {
    forall i | 0 <= i < |p[1..]| - 1 ensures Edge(g, p[1..][i], p[1..][i + 1]) {
      assert Edge(g, p[i + 1], p[i + 2]);
    }
    assert Edge(g, p[0], p[0 + 1]);
  }

  lemma ExtendPath(g: Graph, a: string, p: seq<string>)
    requires Path(g, p) && Edge(g, a, p[0])
    ensures Path(g, [a] + p)
  {
    var q := [a] + p;
    forall i | 0 <= i < |q| - 1 ensures Edge(g, q[i], q[i + 1]) {
      if i > 0 {
        assert Edge(g, p[i - 1], p[i]);
      }
    }
  }

  /** The walk fails when one of its members does. */
  lemma {:induction false} MemberFails(g: Graph, tags: seq<string>, visiting: set<string>, tag: string)
    requires tag in tags && Leaves(g, tag, visiting).Failed?
    ensures LeavesOf(g, tags, visiting).Failed?
  {
    if tag != tags[0] {
      MemberFails(g, tags[1..], visiting, tag);
    }
  }

  lemma {:induction false} FaultyPathFails(g: Graph, p: seq<string>, tags: seq<string>, visiting: set<string>)
    requires FaultyFrom(g, p, tags, visiting)
    ensures LeavesOf(g, tags, visiting).Failed?
    decreases |p|
  {
    if |p| > 1 && p[0] !in visiting {
      TailPath(g, p);
      var v := visiting + {p[0]};
      assert p[1..][..|p| - 2] == p[1..|p| - 1];
      assert p[..|p| - 1] == [p[0]] + p[1..|p| - 1];
      FaultyPathFails(g, p[1..], g[p[0]].all, v);
    } else if |p| > 1 {
      assert Edge(g, p[0], p[0 + 1]);
    }
    MemberFails(g, tags, visiting, p[0]);
  }

  lemma {:induction false} FailureHasPath(g: Graph, tags: seq<string>, visiting: set<string>) returns (p: seq<string>)
    requires LeavesOf(g, tags, visiting).Failed?
    ensures FaultyFrom(g, p, tags, visiting)
    decreases g.Keys - visiting, |tags|
  {
    var first := tags[0];
    if Leaves(g, first, visiting).Found? {
      p := FailureHasPath(g, tags[1..], visiting);
    } else if first !in g || first in visiting {
      p := [first];
    } else {
      var v := visiting + {first};
      var q := FailureHasPath(g, g[first].all, v);
      ExtendPath(g, first, q);
      p := [first] + q;
      assert p[..|p| - 1] == [first] + q[..|q| - 1];
    }
  }

  /** The walk succeeds exactly when no reachable tag is missing and no reachable group leads back to itself. */
  lemma SucceedsIffSound(g: Graph, tags: seq<string>)
    ensures LeavesOf(g, tags, {}).Found? <==> !exists p :: FaultyFrom(g, p, tags, {})
  {
    if LeavesOf(g, tags, {}).Failed? {
      var p := FailureHasPath(g, tags, {});
    }
    forall p | FaultyFrom(g, p, tags, {}) ensures LeavesOf(g, tags, {}).Failed? {
      FaultyPathFails(g, p, tags, {});
    }
  }

  lemma {:induction false} MemberLeaf(g: Graph, tags: seq<string>, visiting: set<string>, tag: string, t: string)
    requires LeavesOf(g, tags, visiting).Found? && tag in tags
    ensures Leaves(g, tag, visiting).Found?
    ensures t in Leaves(g, tag, visiting).tags ==> t in LeavesOf(g, tags, visiting).tags
  {
    if tag != tags[0] {
      MemberLeaf(g, tags[1..], visiting, tag, t);
    }
  }

  lemma {:induction false} PathReachesLeaf(g: Graph, p: seq<string>, tags: seq<string>, visiting: set<string>,
      t: string)
    requires LeavesOf(g, tags, visiting).Found? && LeafFrom(g, p, tags, t)
    ensures t in LeavesOf(g, tags, visiting).tags
    decreases |p|
  {
    MemberLeaf(g, tags, visiting, p[0], t);
    if |p| > 1 {
      TailPath(g, p);
      PathReachesLeaf(g, p[1..], g[p[0]].all, visiting + {p[0]}, t);
    }
  }

  lemma {:induction false} LeafHasPath(g: Graph, tags: seq<string>, visiting: set<string>, t: string)
      returns (p: seq<string>)
    requires LeavesOf(g, tags, visiting).Found? && t in LeavesOf(g, tags, visiting).tags
    ensures LeafFrom(g, p, tags, t)
    decreases g.Keys - visiting, |tags|
  {
    var first := tags[0];
    if t !in Leaves(g, first, visiting).tags {
      p := LeafHasPath(g, tags[1..], visiting, t);
    } else if g[first].Concrete? {
      p := [first];
    } else {
      var q := LeafHasPath(g, g[first].all, visiting + {first}, t);
      ExtendPath(g, first, q);
      p := [first] + q;
    }
  }

  /** A successful walk meets exactly the concrete outbounds some path reaches. */
  lemma LeavesAreReachable(g: Graph, tags: seq<string>, t: string)
    requires LeavesOf(g, tags, {}).Found?
    ensures t in LeavesOf(g, tags, {}).tags <==> exists p :: LeafFrom(g, p, tags, t)
  {
    if t in LeavesOf(g, tags, {}).tags {
      var p := LeafHasPath(g, tags, {}, t);
    }
    forall p | LeafFrom(g, p, tags, t) ensures t in LeavesOf(g, tags, {}).tags {
      PathReachesLeaf(g, p, tags, {}, t);
    }
  }

  // ---- First visits ----

  /** What the targets become when the tags are visited in turn. */
  function Merge(seen: seq<string>, tags: seq<string>): seq<string>
    decreases |tags|
  {
    if tags == [] then seen
    else Merge(if tags[0] in seen then seen else seen + [tags[0]], tags[1..])
  }

  ghost predicate Distinct(s: seq<string>) {
    forall i, j | 0 <= i < j < |s| :: s[i] != s[j]
  }

  function FirstIndex(s: seq<string>, x: string): (i: nat)
    requires x in s
    ensures i < |s| && s[i] == x && x !in s[..i]
  {
    if s[0] == x then 0
    else
      var i := FirstIndex(s[1..], x);
      assert s[..i + 1] == [s[0]] + s[1..][..i];
      i + 1
  }

  lemma {:induction false} MergeAppend(seen: seq<string>, a: seq<string>, b: seq<string>)
    ensures Merge(Merge(seen, a), b) == Merge(seen, a + b)
    decreases |a|
  {
    if a == [] {
      assert a + b == b;
    } else {
      assert (a + b)[1..] == a[1..] + b;
      MergeAppend(if a[0] in seen then seen else seen + [a[0]], a[1..], b);
    }
  }

  lemma {:induction false} MergeElements(seen: seq<string>, tags: seq<string>)
    requires Distinct(seen)
    ensures Distinct(Merge(seen, tags)) && seen <= Merge(seen, tags)
    ensures forall t :: t in Merge(seen, tags) <==> t in seen || t in tags
    decreases |tags|
  {
    if tags != [] {
      MergeElements(if tags[0] in seen then seen else seen + [tags[0]], tags[1..]);
    }
  }

  /** The position of the first visit decides the order. */
  ghost predicate InVisitOrder(r: seq<string>, visits: seq<string>) {
    && (forall t :: t in r <==> t in visits)
    && forall i, j | 0 <= i < j < |r| :: FirstIndex(visits, r[i]) < FirstIndex(visits, r[j])
  }

  lemma {:induction false} VisitedOnceInOrder(visits: seq<string>)
    ensures InVisitOrder(Merge([], visits), visits)
  {
    MergeElements([], visits);
    if visits != [] {
      var n := |visits| - 1;
      var before, x := visits[..n], visits[n];
      VisitedOnceInOrder(before);
      assert visits == before + [x];
      MergeAppend([], before, [x]);
      MergeElements([], before);
      OneMoreVisit(Merge([], before), before, x);
      assert Merge(Merge([], before), [x]) == Merged(Merge([], before), x);
    }
  }

  function Merged(r: seq<string>, x: string): seq<string> {
    if x in r then r else r + [x]
  }

  lemma OneMoreVisit(r: seq<string>, before: seq<string>, x: string)
    requires InVisitOrder(r, before)
    ensures InVisitOrder(Merged(r, x), before + [x])
  {
    hide FirstIndex;
    var visits := before + [x];
    assert forall t :: t in visits <==> t in before || t == x;
    forall t | t in before ensures FirstIndex(visits, t) == FirstIndex(before, t) {
      assert visits[..FirstIndex(before, t)] == before[..FirstIndex(before, t)];
      FirstIndexIs(visits, t, FirstIndex(before, t));
    }
    if x !in before {
      assert visits[..|before|] == before;
      FirstIndexIs(visits, x, |before|);
    }
    var s := Merged(r, x);
    forall i, j | 0 <= i < j < |s| ensures FirstIndex(visits, s[i]) < FirstIndex(visits, s[j]) {
      assert s[i] == r[i] && (j < |r| ==> s[j] == r[j]);
    }
  }

  lemma FirstIndexIs(s: seq<string>, x: string, i: nat)
    requires i < |s| && s[i] == x && x !in s[..i]
    ensures x in s && FirstIndex(s, x) == i
  {
    var k := FirstIndex(s, x);
    assert forall j | 0 <= j < i :: s[..i][j] == s[j];
    assert forall j | 0 <= j < k :: s[..k][j] == s[j];
  }

  // ---- The walk of the source ----

  /** The captured variables of the recursive walk. */
  class Collector {
    const graph: Graph
    var seen: set<string>
    var visiting: set<string>
    var targets: seq<string>

    ghost predicate Valid()
      reads this
    {
      forall t :: t in seen <==> t in targets
    }

    constructor (graph: Graph)
      ensures Valid() && this.graph == graph && targets == [] && visiting == {}
    {
      this.graph := graph;
      seen, visiting, targets := {}, {}, [];
    }

    /** One visit adds the leaves below the tag that were not met before, or stops at the first fault. */
    method Visit(tag: string) returns (fault: Outcome)
      requires Valid()
      modifies this
      decreases graph.Keys - visiting, 0
      ensures Valid()
      ensures Leaves(graph, tag, old(visiting)).Failed? ==> fault == Leaves(graph, tag, old(visiting))
      ensures Leaves(graph, tag, old(visiting)).Found? ==>
        && fault == Found([]) && visiting == old(visiting)
        && targets == Merge(old(targets), Leaves(graph, tag, old(visiting)).tags)
    {
      if tag !in graph {
        return Failed(Missing(tag));
      }
      match graph[tag] {
        case Concrete(t) =>
          if t !in seen {
            seen := seen + {t};
            targets := targets + [t];
          }
          return Found([]);
        case Group(all, _) =>
          if tag in visiting {
            return Failed(Cyclic(tag));
          }
          visiting := visiting + {tag};
          fault := VisitAll(all);
          visiting := visiting - {tag};
      }
    }

    method VisitAll(tags: seq<string>) returns (fault: Outcome)
      requires Valid()
      modifies this
      decreases graph.Keys - visiting, 1
      ensures Valid()
      ensures LeavesOf(graph, tags, old(visiting)).Failed? ==> fault == LeavesOf(graph, tags, old(visiting))
      ensures LeavesOf(graph, tags, old(visiting)).Found? ==>
        && fault == Found([]) && visiting == old(visiting)
        && targets == Merge(old(targets), LeavesOf(graph, tags, old(visiting)).tags)
    {
      ghost var done: seq<string> := [];
      var i := 0;
      while i < |tags|
        invariant 0 <= i <= |tags| && Valid() && visiting == old(visiting)
        invariant targets == Merge(old(targets), done)
        invariant LeavesOf(graph, tags, visiting) == Prefixed(done, LeavesOf(graph, tags[i..], visiting))
      {
        ghost var here := Leaves(graph, tags[i], visiting);
        assert tags[i..][1..] == tags[i + 1..];
        fault := Visit(tags[i]);
        if fault.Failed? {
          return;
        }
        MergeAppend(old(targets), done, here.tags);
        PrefixedAppend(done, here.tags, LeavesOf(graph, tags[i + 1..], visiting));
        done := done + here.tags;
        i := i + 1;
      }
      assert tags[i..] == [] && done + [] == done;
      fault := Found([]);
    }
  }

  function Prefixed(before: seq<string>, rest: Outcome): Outcome {
    if rest.Failed? then rest else Found(before + rest.tags)
  }

  lemma PrefixedAppend(a: seq<string>, b: seq<string>, rest: Outcome)
    ensures Prefixed(a, Prefixed(b, rest)) == Prefixed(a + b, rest)
  {
    if rest.Found? {
      assert a + (b + rest.tags) == (a + b) + rest.tags;
    }
  }

  /** What the walk returns: the leaves without repetition, in the order of their first visits. */
  function Collected(g: Graph, tags: seq<string>): Outcome {
    var leaves := LeavesOf(g, tags, {});
    if leaves.Failed? then leaves else Found(Merge([], leaves.tags))
  }

  method CollectConcreteTargets(g: Graph, tags: seq<string>) returns (r: Outcome)
    ensures r == Collected(g, tags)
  {
    var c := new Collector(g);
    var fault := c.VisitAll(tags);
    r := if fault.Failed? then fault else Found(c.targets);
  }

  /** The walk on every graph: when it succeeds, and exactly what it returns. */
  lemma CollectedExactly(g: Graph, tags: seq<string>)
    ensures Collected(g, tags).Found? <==> !exists p :: FaultyFrom(g, p, tags, {})
    ensures Collected(g, tags).Found? ==> Distinct(Collected(g, tags).tags)
    ensures Collected(g, tags).Found? ==>
      forall t :: t in Collected(g, tags).tags <==> exists p :: LeafFrom(g, p, tags, t)
    ensures Collected(g, tags).Found? ==> InVisitOrder(Collected(g, tags).tags, LeavesOf(g, tags, {}).tags)
  {
    SucceedsIffSound(g, tags);
    if Collected(g, tags).Found? {
      var visits := LeavesOf(g, tags, {}).tags;
      MergeElements([], visits);
      VisitedOnceInOrder(visits);
      forall t ensures t in Collected(g, tags).tags <==> exists p :: LeafFrom(g, p, tags, t) {
        LeavesAreReachable(g, tags, t);
      }
    }
  }

  // ---- Following the selected members ----

  /** The white space of Unicode. */
  predicate IsSpace(c: char) {
    var n := c as int;
    || 0x9 <= n <= 0xD || n == 0x20 || n == 0x85 || n == 0xA0 || n == 0x1680 || 0x2000 <= n <= 0x200A
    || n == 0x2028 || n == 0x2029 || n == 0x202F || n == 0x205F || n == 0x3000
  }

  function TrimSpace(s: string): (r: string)
    ensures r != "" ==> !IsSpace(r[0]) && !IsSpace(r[|r| - 1])
    ensures r == "" <==> forall i | 0 <= i < |s| :: IsSpace(s[i])
    decreases |s|
  {
    if s != "" && IsSpace(s[0]) then
      assert forall i | 0 < i < |s| :: s[i] == s[1..][i - 1];
      TrimSpace(s[1..])
    else if s != "" && IsSpace(s[|s| - 1]) then TrimSpace(s[..|s| - 1])
    else s
  }

  /** The member a group has selected; empty when it has none. */
  function Choice(o: Outbound): string
    requires o.Group?
  {
    TrimSpace(o.now)
  }

  function Selected(g: Graph, tag: string, visited: set<string>): Outcome
    decreases g.Keys - visited
  {
    if tag !in g then Failed(Missing(tag))
    else match g[tag]
      case Concrete(t) => Found([t])
      case Group(_, _) =>
        if tag in visited then Failed(Cyclic(tag))
        else if Choice(g[tag]) == "" then Failed(Unselected)
        else Selected(g, Choice(g[tag]), visited + {tag})
  }

  ghost predicate Hop(g: Graph, a: string, b: string) {
    a in g && g[a].Group? && Choice(g[a]) == b != ""
  }

  /** A chain of selections: each group but the last names the next tag, and none comes twice. */
  ghost predicate Chain(g: Graph, p: seq<string>) {
    && p != []
    && (forall i | 0 <= i < |p| - 1 :: Hop(g, p[i], p[i + 1]))
    && Distinct(p[..|p| - 1])
  }

  /** What the last tag of a chain means for the result. */
  ghost predicate Ends(g: Graph, p: seq<string>, r: Outcome)
    requires p != []
  {
    var last := p[|p| - 1];
    if last !in g then r == Failed(Missing(last))
    else match g[last]
      case Concrete(t) => r == Found([t])
      case Group(_, _) =>
        if last in p[..|p| - 1] then r == Failed(Cyclic(last)) else Choice(g[last]) == "" && r == Failed(Unselected)
  }

  method ResolveSelectedOutbound(g: Graph, start: string) returns (r: Outcome)
    ensures r == Selected(g, start, {})
    ensures exists p :: Chain(g, p) && p[0] == start && Ends(g, p, r)
  {
    var tag := start;
    var visited: set<string> := {};
    ghost var p := [start];
    while true
      invariant Selected(g, start, {}) == Selected(g, tag, visited)
      invariant Chain(g, p) && p[0] == start && p[|p| - 1] == tag
      invariant forall t :: t in visited <==> t in p[..|p| - 1]
      decreases g.Keys - visited
    {
      if tag !in g {
        assert Ends(g, p, Failed(Missing(tag)));
        return Failed(Missing(tag));
      }
      if g[tag].Concrete? {
        assert Ends(g, p, Found([g[tag].tag]));
        return Found([g[tag].tag]);
      }
      if tag in visited {
        assert Ends(g, p, Failed(Cyclic(tag)));
        return Failed(Cyclic(tag));
      }
      var next := TrimSpace(g[tag].now);
      if next == "" {
        assert Ends(g, p, Failed(Unselected));
        return Failed(Unselected);
      }
      visited := visited + {tag};
      ghost var q := p + [next];
      assert q[..|q| - 1] == p && p == p[..|p| - 1] + [tag];
      p := q;
      tag := next;
    }
  }

  /** Only one result can come of a start, so the chain decides it. */
  lemma ChainDecides(g: Graph, p: seq<string>, r: Outcome, q: seq<string>, s: Outcome)
    requires Chain(g, p) && Chain(g, q) && p[0] == q[0] && Ends(g, p, r) && Ends(g, q, s) && |p| <= |q|
    ensures r == s && p == q
  {
    SamePrefix(g, p, q, |p|);
    assert p == q[..|p|];
    if |p| < |q| {
      ChainGoesOn(g, q, |p| - 1, r);
    }
  }

  lemma ChainGoesOn(g: Graph, q: seq<string>, n: nat, r: Outcome)
    requires Chain(g, q) && n < |q| - 1
    ensures !Ends(g, q[..n + 1], r)
  {
    assert Hop(g, q[n], q[n + 1]);
    var p := q[..n + 1];
    assert p[..n] == q[..n];
    forall i | 0 <= i < n ensures q[i] != q[n] {
      assert q[..|q| - 1][i] == q[i] && q[..|q| - 1][n] == q[n];
    }
  }

  lemma {:induction false} SamePrefix(g: Graph, p: seq<string>, q: seq<string>, n: nat)
    requires Chain(g, p) && Chain(g, q) && p[0] == q[0] && 1 <= n <= |p| <= |q|
    ensures forall i | 0 <= i < n :: p[i] == q[i]
  {
    if n > 1 {
      SamePrefix(g, p, q, n - 1);
      assert Hop(g, p[n - 2], p[n - 2 + 1]) && Hop(g, q[n - 2], q[n - 2 + 1]);
    }
  }

  // ---- Exclusion and priority, in place ----

  function Excluding(s: seq<string>, excluded: set<string>): seq<string> {
    if s == [] then [] else (if s[0] in excluded then [] else [s[0]]) + Excluding(s[1..], excluded)
  }

  lemma {:induction false} ExcludingElements(s: seq<string>, excluded: set<string>)
    ensures forall t :: t in Excluding(s, excluded) <==> t in s && t !in excluded
    ensures Distinct(s) ==> Distinct(Excluding(s, excluded))
  {
    if s != [] {
      ExcludingElements(s[1..], excluded);
      assert Distinct(s) ==> Distinct(s[1..]);
      assert forall t :: t in s <==> t == s[0] || t in s[1..];
    }
  }

  lemma {:induction false} ExcludingAppend(a: seq<string>, b: seq<string>, excluded: set<string>)
    ensures Excluding(a + b, excluded) == Excluding(a, excluded) + Excluding(b, excluded)
  {
    if a == [] {
      assert a + b == b;
    } else {
      assert (a + b)[1..] == a[1..] + b;
      ExcludingAppend(a[1..], b, excluded);
    }
  }

  /** Overwrites the slots from the start with the targets that stay. */
  method ExcludeInPlace(targets: array<string>, excluded: set<string>) returns (n: nat)
    modifies targets
    ensures n <= targets.Length && targets[..n] == Excluding(old(targets[..]), excluded)
  {
    ghost var all := targets[..];
    n := 0;
    var i := 0;
    while i < targets.Length
      invariant n <= i <= targets.Length
      invariant targets[..n] == Excluding(all[..i], excluded)
      invariant targets[i..] == all[i..]
    {
      assert targets[i] == targets[i..][0] == all[i];
      assert all[..i + 1] == all[..i] + [all[i]];
      ExcludingAppend(all[..i], [all[i]], excluded);
      if targets[i] !in excluded {
        targets[n] := targets[i];
        n := n + 1;
      }
      i := i + 1;
    }
    assert all[..i] == all;
  }

  function MovedToFront(s: seq<string>, i: nat): seq<string>
    requires i < |s|
  {
    [s[i]] + s[..i] + s[i + 1..]
  }

  /** Shifts the targets before the priority one by a slot and puts it first. */
  method MoveToFront(targets: array<string>, index: nat)
    requires index < targets.Length
    modifies targets
    ensures targets[..] == MovedToFront(old(targets[..]), index)
  {
    ghost var all := targets[..];
    var priority := targets[index];
    var i := index;
    while i > 0
      invariant 0 <= i <= index
      invariant forall k | 0 <= k < i :: targets[k] == all[k]
      invariant forall k | i < k <= index :: targets[k] == all[k - 1]
      invariant forall k | index < k < targets.Length :: targets[k] == all[k]
    {
      targets[i] := targets[i - 1];
      i := i - 1;
    }
    targets[0] := priority;
  }

  lemma ExcludingParts(a: seq<string>, b: seq<string>, c: seq<string>, excluded: set<string>)
    ensures Excluding(a + b + c, excluded) == Excluding(a, excluded) + Excluding(b, excluded) + Excluding(c, excluded)
  {
    ExcludingAppend(a + b, c, excluded);
    ExcludingAppend(a, b, excluded);
  }

  lemma ExcludingSelf(x: string)
    ensures Excluding([x], {x}) == []
  {
  }

  /** The move is a permutation that leaves every other target in its order. */
  lemma PriorityMoveKeepsOrder(s: seq<string>, i: nat)
    requires i < |s|
    ensures multiset(MovedToFront(s, i)) == multiset(s)
    ensures MovedToFront(s, i)[0] == s[i]
    ensures Excluding(MovedToFront(s, i), {s[i]}) == Excluding(s, {s[i]})
  {
    hide Excluding;
    SplitAt(s, i);
    MovedMultiset(s[..i], s[i], s[i + 1..]);
    MovedExcluding(s[..i], s[i], s[i + 1..]);
  }

  lemma SplitAt(s: seq<string>, i: nat)
    requires i < |s|
    ensures s == s[..i] + [s[i]] + s[i + 1..]
  {
  }

  lemma MovedExcluding(a: seq<string>, x: string, b: seq<string>)
    ensures Excluding([x] + a + b, {x}) == Excluding(a + [x] + b, {x})
  {
    ExcludingSelf(x);
    hide Excluding;
    ExcludingParts(a, [x], b, {x});
    ExcludingParts([x], a, b, {x});
    assert Excluding(a, {x}) + [] == [] + Excluding(a, {x});
  }

  lemma MovedMultiset(a: seq<string>, x: string, b: seq<string>)
    ensures multiset([x] + a + b) == multiset(a + [x] + b)
  {
  }

  // ---- The targets of a session ----

  function ExcludedTags(g: Graph, excludeTag: string): Outcome {
    if excludeTag == "" || excludeTag !in g then Found([])
    else match g[excludeTag]
      case Concrete(t) => Found([t])
      case Group(all, _) => Collected(g, all)
  }

  /** The group's testable members, before a target or a priority is applied. */
  function Members(g: Graph, groupTag: string, excludeTag: string): Outcome {
    if groupTag !in g then Failed(Missing(groupTag))
    else if g[groupTag].Concrete? then Failed(NotAGroup)
    else
      var all := Collected(g, g[groupTag].all);
      var out := ExcludedTags(g, excludeTag);
      if all.Failed? then all
      else if out.Failed? then out
      else Found(Excluding(all.tags, set t | t in out.tags))
  }

  function Prioritised(g: Graph, members: seq<string>, priorityTag: string): seq<string> {
    var sel := Selected(g, priorityTag, {});
    if priorityTag != "" && sel.Found? && sel.tags != [] && sel.tags[0] in members
    then MovedToFront(members, FirstIndex(members, sel.tags[0]))
    else members
  }

  function Resolved(g: Graph, groupTag: string, targetTag: string, priorityTag: string, excludeTag: string): Outcome {
    var members := Members(g, groupTag, excludeTag);
    if members.Failed? then members
    else if targetTag != "" then
      var sel := Selected(g, targetTag, {});
      if sel.Failed? then sel
      else if sel.tags == [] || sel.tags[0] !in members.tags then Failed(NotAMember)
      else Found([sel.tags[0]])
    else if members.tags == [] then Failed(Nothing)
    else Found(Prioritised(g, members.tags, priorityTag))
  }

  /** `resultTag` is the name a single target is reported under when it was asked for by another. */
  method ResolveTargets(g: Graph, groupTag: string, targetTag: string, priorityTag: string, excludeTag: string)
    returns (r: Outcome, resultTag: Option<string>)
    ensures r == Resolved(g, groupTag, targetTag, priorityTag, excludeTag)
    ensures resultTag == if r.Found? && targetTag != "" && [targetTag] != r.tags then Some(targetTag) else None
  {
    hide Selected, Collected, Excluding;
    resultTag := None;
    if groupTag !in g {
      return Failed(Missing(groupTag)), None;
    }
    if g[groupTag].Concrete? {
      return Failed(NotAGroup), None;
    }
    var collected := CollectConcreteTargets(g, g[groupTag].all);
    if collected.Failed? {
      return collected, None;
    }
    var targets := new string[|collected.tags|](i requires 0 <= i < |collected.tags| => collected.tags[i]);
    assert targets[..] == collected.tags;
    var out := Found([]);
    if excludeTag != "" && excludeTag in g {
      if g[excludeTag].Group? {
        out := CollectConcreteTargets(g, g[excludeTag].all);
        if out.Failed? {
          return out, None;
        }
      } else {
        out := Found([g[excludeTag].tag]);
      }
    }
    var n := ExcludeInPlace(targets, set t | t in out.tags);
    var members := targets[..n];
    if targetTag != "" {
      var sel := ResolveSelectedOutbound(g, targetTag);
      if sel.Failed? {
        return sel, None;
      }
      if sel.tags == [] || sel.tags[0] !in members {
        return Failed(NotAMember), None;
      }
      if targetTag != sel.tags[0] {
        resultTag := Some(targetTag);
      }
      return Found([sel.tags[0]]), resultTag;
    }
    if n == 0 {
      return Failed(Nothing), None;
    }
    var sel := ResolveSelectedOutbound(g, priorityTag);
    if priorityTag != "" && sel.Found? && sel.tags != [] && sel.tags[0] in members {
      var slice := new string[n](i requires 0 <= i < |members| => members[i]);
      assert slice[..] == members;
      MoveToFront(slice, FirstIndex(members, sel.tags[0]));
      return Found(slice[..]), None;
    }
    return Found(members), None;
  }

  ghost predicate ReachedFrom(g: Graph, tag: string, t: string) {
    tag in g && match g[tag]
    case Concrete(c) => c == t
    case Group(all, _) => exists p :: LeafFrom(g, p, all, t)
  }

  /** A testable member: reachable from the group and not from the excluded outbound. */
  ghost predicate Eligible(g: Graph, groupTag: string, excludeTag: string, t: string) {
    ReachedFrom(g, groupTag, t) && (excludeTag == "" || !ReachedFrom(g, excludeTag, t))
  }

  /**
   * A session's targets are distinct, at least one, and eligible; without a single target they are
   * all the eligible ones.
   */
  lemma ResolvedExactly(g: Graph, groupTag: string, targetTag: string, priorityTag: string, excludeTag: string)
    requires Resolved(g, groupTag, targetTag, priorityTag, excludeTag).Found?
    ensures var r := Resolved(g, groupTag, targetTag, priorityTag, excludeTag).tags;
      && r != [] && Distinct(r)
      && (forall t | t in r :: Eligible(g, groupTag, excludeTag, t))
      && (targetTag == "" ==> forall t | Eligible(g, groupTag, excludeTag, t) :: t in r)
  {
    MembersExactly(g, groupTag, excludeTag);
    var members := Members(g, groupTag, excludeTag).tags;
    hide Members, Eligible;
    if targetTag == "" {
      PrioritisedExactly(g, members, priorityTag);
    }
  }

  lemma PrioritisedExactly(g: Graph, members: seq<string>, priorityTag: string)
    requires Distinct(members)
    ensures Distinct(Prioritised(g, members, priorityTag))
    ensures forall t :: t in Prioritised(g, members, priorityTag) <==> t in members
  {
    hide FirstIndex, Selected;
    if Prioritised(g, members, priorityTag) != members {
      MovedIsDistinct(members, FirstIndex(members, Selected(g, priorityTag, {}).tags[0]));
    }
  }

  lemma MovedIsDistinct(s: seq<string>, i: nat)
    requires Distinct(s) && i < |s|
    ensures Distinct(MovedToFront(s, i))
    ensures forall t :: t in MovedToFront(s, i) <==> t in s
  {
    var r := MovedToFront(s, i);
    assert s == s[..i] + [s[i]] + s[i + 1..];
    forall j, k | 0 <= j < k < |r| ensures r[j] != r[k] {
      assert r[k] == s[if k <= i then k - 1 else k];
      assert j > 0 ==> r[j] == s[if j <= i then j - 1 else j];
    }
  }

  lemma MembersExactly(g: Graph, groupTag: string, excludeTag: string)
    requires Members(g, groupTag, excludeTag).Found?
    ensures Distinct(Members(g, groupTag, excludeTag).tags)
    ensures forall t :: t in Members(g, groupTag, excludeTag).tags <==> Eligible(g, groupTag, excludeTag, t)
  {
    var out := ExcludedTags(g, excludeTag);
    CollectedExactly(g, g[groupTag].all);
    ExcludingElements(Collected(g, g[groupTag].all).tags, set t | t in out.tags);
    if excludeTag in g && g[excludeTag].Group? {
      CollectedExactly(g, g[excludeTag].all);
    }
    hide Collected, FaultyFrom, LeafFrom, InVisitOrder, Distinct;
  }
}
