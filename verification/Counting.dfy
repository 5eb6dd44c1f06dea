/** Lists of positions without repetition. */
module Counting {
  ghost predicate Once(s: seq<nat>, bound: nat) {
    && (forall a, b | 0 <= a < b < |s| :: s[a] != s[b])
    && forall a | 0 <= a < |s| :: s[a] < bound
  }

  lemma OnceMore(s: seq<nat>, i: nat, bound: nat)
    requires Once(s, bound) && i !in s && i < bound
    ensures Once(s + [i], bound)
  {
  }

  /** A list without repetition below a bound is no longer than the bound, and fills it when it has every position. */
  lemma OnceIsShort(s: seq<nat>, bound: nat)
    requires Once(s, bound)
    ensures |s| <= bound
    ensures (forall i: nat | i < bound :: i in s) ==> |s| == bound
  {
    ElementsSize(s);
    SubsetSize(Elements(s), Below(bound));
    if forall i: nat | i < bound :: i in s {
      SubsetSize(Below(bound), Elements(s));
    }
  }

  ghost function Elements(s: seq<nat>): (r: set<nat>)
    ensures forall x: nat :: x in r <==> x in s
  {
    if s == [] then {} else {s[0]} + Elements(s[1..])
  }

  lemma {:induction false} ElementsSize(s: seq<nat>)
    requires forall a, b | 0 <= a < b < |s| :: s[a] != s[b]
    ensures |Elements(s)| == |s|
  {
    if s != [] {
      ElementsSize(s[1..]);
      assert s[0] !in Elements(s[1..]);
    }
  }

  ghost function Below(n: nat): (r: set<nat>)
    ensures |r| == n && forall i: nat :: i in r <==> i < n
  {
    if n == 0 then {} else Below(n - 1) + {n - 1}
  }

  lemma {:induction false} SubsetSize(a: set<nat>, b: set<nat>)
    requires a <= b
    ensures |a| <= |b|
  {
    if a != {} {
      var x :| x in a;
      SubsetSize(a - {x}, b - {x});
    }
  }

  lemma CountsOnce(s: seq<nat>, bound: nat)
    requires forall id: nat :: multiset(s)[id] <= if id < bound then 1 else 0
    ensures Once(s, bound)
  {
    forall a | 0 <= a < |s| ensures s[a] < bound {
      assert s[a] in multiset(s);
    }
    forall a, b | 0 <= a < b < |s| ensures s[a] != s[b] {
      assert s == s[..b] + s[b..];
      assert s[..b][a] == s[a] && s[b..][0] == s[b];
      assert multiset(s) == multiset(s[..b]) + multiset(s[b..]);
      assert multiset(s)[s[a]] == multiset(s[..b])[s[a]] + multiset(s[b..])[s[a]];
      assert s[..b][a] in s[..b] && s[b..][0] in s[b..];
    }
  }

  lemma {:induction false} CountOnce(s: seq<nat>, x: nat)
    requires forall a, b | 0 <= a < b < |s| :: s[a] != s[b]
    ensures multiset(s)[x] == if x in s then 1 else 0
  {
    if s != [] {
      assert s == [s[0]] + s[1..];
      CountOnce(s[1..], x);
    }
  }
}
