/** What every rule of the concurrent walk keeps, stated against the sequential reading. */
module DnsWalkInvariant {
  import opened Options
  import opened DnsRules
  import opened DnsMode
  import opened DnsSequential
  import opened DnsWalk

  /** The walk stands where the sequential reading stands, with the same queries under the same names. */
  ghost predicate Agrees(w: World, st: Walk) {
    && Indexed(st)
    && st.ruleIndex <= |w.rules|
    && var s := Reach(w, st.ruleIndex);
    && s.Running?
    && st.options == s.options
    && st.anonymous.Some? == s.anonymous.Some?
    && (st.anonymous.Some? ==> st.futures[st.anonymous.value].query == s.anonymous.value)
    && st.namedFutures.Keys == s.named.Keys
    && forall t | t in st.namedFutures :: st.futures[st.namedFutures[t]].query == s.named[t]
  }

  ghost predicate Produces(st: Walk, k: nat)
    requires k < |st.futures|
  {
    var tag := st.futures[k].tag;
    tag != "" ==> tag in st.namedFutures && st.namedFutures[tag] == k
  }

  ghost predicate Produced(st: Walk, t: string)
    requires t in st.namedFutures
  {
    var k := st.namedFutures[t];
    t != "" && k < |st.futures| && st.futures[k].tag == t
  }

  /** Each tag has one producer. */
  ghost predicate OneProducer(st: Walk) {
    && (forall k | 0 <= k < |st.futures| :: Produces(st, k))
    && (forall t | t in st.namedFutures :: Produced(st, t))
  }

  /** A tag's response is recorded exactly when its future is settled, and then it is that future's view. */
  ghost predicate RecordedTag(w: World, st: Walk, t: string) {
    && (t in st.namedFutures ==> st.namedFutures[t] < |st.futures|)
    && (t in st.namedResponses <==> t in st.namedFutures && st.namedFutures[t] in st.settled)
    && (t in st.namedTransports <==> t in st.namedResponses)
    && (t in st.namedResponses ==>
          var q := st.futures[st.namedFutures[t]].query;
          st.namedResponses[t] == ViewOf(w, q) && st.namedTransports[t] == q.transport)
  }

  ghost predicate Recorded(w: World, st: Walk) {
    && (forall k | k in st.settled :: k < |st.futures|)
    && (forall t :: RecordedTag(w, st, t))
  }

  /** The tag names in `s` what it names in the walk, and its future has come back or is in `waits`. */
  ghost predicate BoundTag(st: Walk, s: Progress, t: string, waits: seq<nat>, done: set<nat>)
    requires s.Running?
  {
    && (t in s.named <==> t in st.namedFutures)
    && (t in st.namedFutures ==>
          var k := st.namedFutures[t];
          k < |st.futures| && st.futures[k].query == s.named[t] && (k in done || k in waits))
  }

  /** The same for the anonymous future. */
  ghost predicate BoundAnonymous(st: Walk, s: Progress, anonymous: Option<nat>, waits: seq<nat>, done: set<nat>)
    requires s.Running?
  {
    && anonymous.Some? == s.anonymous.Some?
    && (anonymous.Some? ==>
          var k := anonymous.value;
          k < |st.futures| && st.futures[k].query == s.anonymous.value && (k in done || k in waits))
  }

  ghost predicate BoundAs(w: World, st: Walk, i: nat, s: Progress, anonymous: Option<nat>, waits: seq<nat>,
      done: set<nat>)
    requires i < |w.rules| && s.Running?
  {
    && (forall t | t in Tags(w.rules[i]) :: BoundTag(st, s, t, waits, done))
    && (BindsAnonymous(w.rules[i]) ==> BoundAnonymous(st, s, anonymous, waits, done))
  }

  ghost predicate ArmedOk(w: World, st: Walk, a: Armed, done: set<nat>) {
    && Contends(w, a.index)
    && (a.anonymous.Some? ==> a.anonymous.value < |st.futures|)
    && a.options == Reach(w, a.index).options
    && (forall k | 0 <= k < |a.waits| ::
          a.waits[k] < |st.futures| && st.futures[a.waits[k]].query in Bound(w, a.index))
    && BoundAs(w, st, a.index, Reach(w, a.index), a.anonymous, a.waits, done)
    && (a.anonymous.Some? || Tags(w.rules[a.index]) != [] || st.anonymous.None?)
  }

  /** An armed rule that survives a sweep waits for something. */
  ghost predicate Waiting(w: World, a: Armed)
    requires a.index < |w.rules|
  {
    a.waits != [] && (a.anonymous.Some? || Tags(w.rules[a.index]) != [])
  }

  ghost predicate InOrder(armed: seq<Armed>) {
    forall j, k | 0 <= j < k < |armed| :: armed[j].index < armed[k].index
  }

  ghost predicate IsArmed(armed: seq<Armed>, i: nat) {
    exists k :: 0 <= k < |armed| && armed[k].index == i
  }

  /** The queries that have come back. */
  ghost function Returned(st: Walk, done: set<nat>): set<Query> {
    set k | k in done && k < |st.futures| :: st.futures[k].query
  }

  /** Race rule i is armed, or has been tried with all it binds and took no decision. */
  ghost predicate TriedAt(w: World, armed: seq<Armed>, i: nat, back: set<Query>)
    requires Contends(w, i)
  {
    IsArmed(armed, i) || (RaceVerdict(w, i).None? && Bound(w, i) <= back)
  }

  ghost predicate Tried(w: World, armed: seq<Armed>, n: nat, back: set<Query>) {
    forall i: nat | i < n && Contends(w, i) :: TriedAt(w, armed, i, back)
  }

  /** The futures are in the order of the rules that sent them, so no query is sent twice. */
  ghost predicate SentInOrder(st: Walk) {
    && (forall j, k | 0 <= j < k < |st.futures| :: st.futures[j].query.rule < st.futures[k].query.rule)
    && (forall k | 0 <= k < |st.futures| ::
          st.futures[k].query.rule < st.ruleIndex + if st.terminal.Some? then 1 else 0)
  }

  /** What the walk has left behind: race rules tried or armed, awaited queries back, none sent twice. */
  ghost predicate Accounted(w: World, st: Walk, done: set<nat>) {
    && Tried(w, st.armed, st.ruleIndex, Returned(st, done))
    && Awaited(w, st.ruleIndex) <= Returned(st, done)
    && SentInOrder(st)
  }

  /** A speculative route has been sent with the query the sequential reading would send. */
  ghost predicate TerminalOk(w: World, st: Walk) {
    st.terminal.Some? ==>
      && st.terminal.value < |st.futures|
      && st.terminalIndex == st.ruleIndex < |w.rules|
      && Reach(w, st.ruleIndex + 1) == Stopped(Forwarded(st.futures[st.terminal.value].query))
  }

  /** Only launched queries come back. */
  ghost predicate Bounded(st: Walk, done: set<nat>) {
    forall k | k in done :: k < |st.futures|
  }

  ghost predicate Inv(w: World, st: Walk, done: set<nat>) {
    && Agrees(w, st)
    && OneProducer(st)
    && Recorded(w, st)
    && Bounded(st, done)
    && st.settled <= done
    && (forall k | 0 <= k < |st.armed| ::
          && st.armed[k].index < st.ruleIndex
          && ArmedOk(w, st, st.armed[k], done)
          && Waiting(w, st.armed[k]))
    && InOrder(st.armed)
    && Accounted(w, st, done)
    && TerminalOk(w, st)
    && (st.futures != [] ==> st.wake.Some?)
  }

  // ---- Settling ----

  lemma SettleOneKeeps(w: World, st: Walk, k: nat, done: set<nat>)
    requires OneProducer(st) && Recorded(w, st) && k < |st.futures|
    ensures Recorded(w, SettleOne(w, st, k, done))
    ensures SettleOne(w, st, k, done).settled == if k in done then st.settled + {k} else st.settled
  {
    var st' := SettleOne(w, st, k, done);
    assert Produces(st, k);
    forall t
      ensures RecordedTag(w, st', t)
    {
      assert RecordedTag(w, st, t);
      assert t in st.namedFutures ==> Produced(st, t);
    }
  }

  lemma {:induction false} SettleKeeps(w: World, st: Walk, n: nat, done: set<nat>)
    requires OneProducer(st) && Recorded(w, st) && n <= |st.futures|
    ensures OneProducer(SettleUpTo(w, st, n, done))
    ensures Recorded(w, SettleUpTo(w, st, n, done))
    ensures SettleUpTo(w, st, n, done).settled == st.settled + (set k | k in done && k < n)
  {
    if n > 0 {
      SettleKeeps(w, st, n - 1, done);
      var st' := SettleUpTo(w, st, n - 1, done);
      SettleOneKeeps(w, st', n - 1, done);
      ProducersFrame(st', SettleOne(w, st', n - 1, done));
    }
  }

  lemma ProducersFrame(st: Walk, st': Walk)
    requires OneProducer(st) && st'.futures == st.futures && st'.namedFutures == st.namedFutures
    ensures OneProducer(st')
  {
    forall k | 0 <= k < |st'.futures| ensures Produces(st', k) { assert Produces(st, k); }
    forall t | t in st'.namedFutures ensures Produced(st', t) { assert Produced(st, t); }
  }

  /** An armed rule only looks at the futures and their names. */
  lemma ArmedFrame(w: World, st: Walk, st': Walk, a: Armed, done: set<nat>)
    requires ArmedOk(w, st, a, done)
    requires st'.futures == st.futures && st'.namedFutures == st.namedFutures && st'.anonymous == st.anonymous
    ensures ArmedOk(w, st', a, done)
  {
    forall t | t in Tags(w.rules[a.index])
      ensures BoundTag(st', Reach(w, a.index), t, a.waits, done)
    {
      assert BoundTag(st, Reach(w, a.index), t, a.waits, done);
    }
  }

  /** So does the agreement with the sequential reading, and what has come back. */
  lemma AgreesFrame(w: World, st: Walk, st': Walk)
    requires Agrees(w, st)
    requires st' == st.(settled := st'.settled, namedResponses := st'.namedResponses,
      namedTransports := st'.namedTransports, wake := st'.wake)
    ensures Agrees(w, st')
  {
    hide Reach;
  }

  lemma ReturnedFrame(st: Walk, st': Walk, done: set<nat>)
    requires st'.futures == st.futures
    ensures Returned(st', done) == Returned(st, done)
  {
  }

  lemma AccountedFrame(w: World, st: Walk, st': Walk, done: set<nat>)
    requires Accounted(w, st, done)
    requires st'.futures == st.futures && st'.armed == st.armed && st'.ruleIndex == st.ruleIndex
    requires st'.terminal == st.terminal
    ensures Accounted(w, st', done)
  {
    hide Tried, Awaited, Returned;
    ReturnedFrame(st, st', done);
  }

  /** Settling what has come back by then keeps the invariant, whatever has come back since. */
  lemma SettleInv(w: World, st: Walk, early: set<nat>, done: set<nat>)
    requires Inv(w, st, done) && st.settled <= early <= done
    ensures Inv(w, Settle(w, st, early), done)
    ensures Settle(w, st, early).settled == early
  {
    hide ArmedOk, Accounted, Waiting, InOrder;
    SettleKeeps(w, st, |st.futures|, early);
    assert (set k | k in early && k < |st.futures|) == early;
    var st' := Settle(w, st, early);
    hide OneProducer, Recorded, Settle;
    AgreesFrame(w, st, st');
    hide Agrees;
    AccountedFrame(w, st, st', done);
    forall k | 0 <= k < |st'.armed|
      ensures ArmedOk(w, st', st'.armed[k], done)
    {
      ArmedFrame(w, st, st', st.armed[k], done);
    }
  }

  // ---- Reading ----

  lemma {:induction false} PendingTagsCover(tags: seq<string>, st: Walk, late: set<nat>)
    requires Indexed(st)
    ensures forall t | t in tags && t in st.namedFutures ::
      st.namedFutures[t] in late || st.namedFutures[t] in PendingTags(tags, st, late)
    ensures forall k | k in PendingTags(tags, st, late) :: k !in late && k < |st.futures|
    ensures PendingTags(tags, st, late) != [] ==> tags != []
  {
    if tags != [] {
      PendingTagsCover(tags[1..], st, late);
      assert forall t :: t in tags <==> t == tags[0] || t in tags[1..];
    }
  }

  /** The tag's query, if it has come back, was there to be settled, or it failed and left nothing to record. */
  ghost predicate ReadsRight(w: World, st: Walk, t: string, done: set<nat>) {
    t in st.namedFutures && st.namedFutures[t] in done && st.namedFutures[t] < |st.futures| ==>
      st.namedFutures[t] in st.settled || w.outcome(st.futures[st.namedFutures[t]].query).Failure?
  }

  /** Every tag rule i binds reads right. */
  ghost predicate Reads(w: World, st: Walk, i: nat, done: set<nat>)
    requires i < |w.rules|
  {
    forall t | t in Tags(w.rules[i]) :: ReadsRight(w, st, t, done)
  }

  /** The responses a rule sees: those of the sequential reading, less the answers that came too late. */
  ghost function SeenViews(w: World, st: Walk, s: Progress, done: set<nat>): map<string, Option<Response>>
    requires s.Running?
  {
    map t | t in s.named :: if ReadsRight(w, st, t, done) then ViewOf(w, s.named[t]) else None
  }

  /**
   * What rule i sees makes no difference to it: its conditions do not tell it from what the
   * sequential reading sees, and if it answers from what it binds it sees all of that.
   */
  ghost predicate SeesRight(w: World, st: Walk, i: nat, done: set<nat>)
    requires i < |w.rules|
  {
    var s := Reach(w, i);
    s.Running? ==>
      && Matches(w.rules[i], SeenViews(w, st, s, done), OptionalView(w, s.anonymous)) == MatchesAt(w, i, s)
      && (w.rules[i].action.Respond? && MatchesAt(w, i, s) ==> Reads(w, st, i, done))
  }

  /** A rule whose every tag reads right sees right. */
  lemma ReadsSeesRight(w: World, st: Walk, i: nat, done: set<nat>)
    requires Walkable(w.rules) && i < |w.rules| && Reads(w, st, i, done)
    ensures SeesRight(w, st, i, done)
  {
    var s := Reach(w, i);
    hide Reach;
    if s.Running? {
      forall t | t in Tags(w.rules[i])
        ensures Get(SeenViews(w, st, s, done), t) == Get(NamedViews(w, s.named), t)
      {
        assert ReadsRight(w, st, t, done);
      }
      MatchFrame(w.rules[i], SeenViews(w, st, s, done), OptionalView(w, s.anonymous),
        NamedViews(w, s.named), OptionalView(w, s.anonymous));
    }
  }

  /** Every armed rule a sweep will try sees right. */
  ghost predicate SweepReads(w: World, st: Walk, done: set<nat>) {
    forall j | 0 <= j < |st.armed| && Ready(st.armed[j], done) && st.armed[j].index < |w.rules| ::
      SeesRight(w, st, st.armed[j].index, done)
  }

  /** What a rule sees stays as long as futures, names and records stay. */
  lemma SightFrame(w: World, st: Walk, st': Walk, i: nat, done: set<nat>)
    requires i < |w.rules| && SeesRight(w, st, i, done)
    requires st'.futures == st.futures && st'.namedFutures == st.namedFutures && st'.settled == st.settled
    ensures SeesRight(w, st', i, done)
  {
    var s := Reach(w, i);
    assert forall t :: ReadsRight(w, st', t, done) == ReadsRight(w, st, t, done);
    if s.Running? {
      assert SeenViews(w, st', s, done) == SeenViews(w, st, s, done);
    }
  }

  /** What a rule that waits for nothing finds recorded is what it sees. */
  lemma RecordsAreSeen(w: World, st: Walk, i: nat, s: Progress, anonymous: Option<nat>, done: set<nat>)
    requires i < |w.rules| && s.Running? && Recorded(w, st) && BoundAs(w, st, i, s, anonymous, [], done)
    ensures forall t | t in Tags(w.rules[i]) :: Get(st.namedResponses, t) == Get(SeenViews(w, st, s, done), t)
  {
    forall t | t in Tags(w.rules[i])
      ensures Get(st.namedResponses, t) == Get(SeenViews(w, st, s, done), t)
    {
      assert BoundTag(st, s, t, [], done) && RecordedTag(w, st, t);
    }
  }

  /** A rule that sees right does what it does in the sequential reading. */
  lemma MatchAgrees(w: World, st: Walk, i: nat, anonymous: Option<nat>, view: Option<Response>, done: set<nat>)
    requires Walkable(w.rules) && i < |w.rules| && Reach(w, i).Running? && Recorded(w, st)
    requires SeesRight(w, st, i, done)
    requires BoundAs(w, st, i, Reach(w, i), anonymous, [], done)
    requires BindsAnonymous(w.rules[i]) ==> view == OptionalView(w, Reach(w, i).anonymous)
    ensures var s := Reach(w, i);
      && Matches(w.rules[i], st.namedResponses, view) == MatchesAt(w, i, s)
      && (w.rules[i].action.Respond? && MatchesAt(w, i, s) ==>
            forall t | t in Tags(w.rules[i]) :: Get(st.namedResponses, t) == Get(NamedViews(w, s.named), t))
  {
    var s := Reach(w, i);
    hide Reach;
    RecordsAreSeen(w, st, i, s, anonymous, done);
    MatchFrame(w.rules[i], st.namedResponses, view, SeenViews(w, st, s, done), OptionalView(w, s.anonymous));
    if w.rules[i].action.Respond? && MatchesAt(w, i, s) {
      forall t | t in Tags(w.rules[i])
        ensures Get(st.namedResponses, t) == Get(NamedViews(w, s.named), t)
      {
        assert ReadsRight(w, st, t, done);
      }
    }
  }

  lemma {:induction false} ResponseTagIsBound(rule: Rule)
    requires ResponseTag(rule) != ""
    ensures Tags(rule) == [ResponseTag(rule)] && !BindsAnonymous(rule)
  {
  }

  /** A ready armed rule commits with its race verdict. */
  lemma TryArmedIsVerdict(w: World, st: Walk, a: Armed, done: set<nat>)
    requires Walkable(w.rules) && Indexed(st) && Recorded(w, st) && ArmedOk(w, st, a, done)
    requires SeesRight(w, st, a.index, done) && Ready(a, done)
    ensures TryArmed(w, st, a, done) == RaceVerdict(w, a.index)
  {
    var rule := w.rules[a.index];
    var s := Reach(w, a.index);
    assert BoundAs(w, st, a.index, s, a.anonymous, [], done) by {
      forall t | t in Tags(rule) ensures BoundTag(st, s, t, [], done) { assert BoundTag(st, s, t, a.waits, done); }
    }
    var bound := if a.anonymous.Some? then FutureView(w, st, a.anonymous.value, done) else None;
    var view := if BindsAnonymous(rule) then bound else AnonymousView(w, st, done);
    MatchAgrees(w, st, a.index, a.anonymous, view, done);
    hide SeesRight;
    if rule.action.Respond? && MatchesAt(w, a.index, s) {
      if ResponseTag(rule) != "" {
        ResponseTagIsBound(rule);
        var tag := ResponseTag(rule);
        assert BoundTag(st, s, tag, [], done) && RecordedTag(w, st, tag);
      } else {
        assert Tags(rule) == [];
      }
    }
  }

  // ---- Sweeping ----

  ghost predicate Sweepable(w: World, st: Walk, done: set<nat>) {
    && Walkable(w.rules)
    && Ranged(w, st)
    && Recorded(w, st)
    && SweepReads(w, st, done)
    && (forall j | 0 <= j < |st.armed| :: ArmedOk(w, st, st.armed[j], done))
    && InOrder(st.armed)
  }

  lemma RemovalKeepsSweepable(w: World, st: Walk, k: nat, done: set<nat>)
    requires Sweepable(w, st, done) && k < |st.armed|
    ensures Sweepable(w, WithoutArmed(st, k), done)
  {
    hide ArmedOk;
    var st' := WithoutArmed(st, k);
    forall j | 0 <= j < |st'.armed|
      ensures ArmedOk(w, st', st'.armed[j], done)
    {
      ArmedFrame(w, st, st', if j < k then st.armed[j] else st.armed[j + 1], done);
    }
    forall t ensures RecordedTag(w, st', t) { assert RecordedTag(w, st, t); }
    ReadsFrame(w, st, st', done);
  }

  /** What reads right does so as long as futures, names and records stay and nothing new is armed. */
  lemma ReadsFrame(w: World, st: Walk, st': Walk, done: set<nat>)
    requires SweepReads(w, st, done)
    requires st'.futures == st.futures && st'.namedFutures == st.namedFutures && st'.settled == st.settled
    requires forall j | 0 <= j < |st'.armed| :: st'.armed[j] in st.armed
    ensures SweepReads(w, st', done)
  {
    hide SeesRight;
    forall j | 0 <= j < |st'.armed| && Ready(st'.armed[j], done) && st'.armed[j].index < |w.rules|
      ensures SeesRight(w, st', st'.armed[j].index, done)
    {
      var k :| 0 <= k < |st.armed| && st.armed[k] == st'.armed[j];
      SightFrame(w, st, st', st.armed[k].index, done);
    }
  }

  /** Position j holds the first armed rule from k on that is ready and commits. */
  ghost predicate FirstCommit(w: World, armed: seq<Armed>, done: set<nat>, k: nat, j: nat, d: Decision) {
    && k <= j < |armed|
    && Contends(w, armed[j].index) && Ready(armed[j], done) && RaceVerdict(w, armed[j].index) == Some(d)
    && forall i | k <= i < j && Ready(armed[i], done) ::
         Contends(w, armed[i].index) && RaceVerdict(w, armed[i].index).None?
  }

  lemma SkipKeepsFirst(w: World, st: Walk, done: set<nat>, k: nat, j: nat, d: Decision)
    requires k < |st.armed| && Ready(st.armed[k], done)
    requires Contends(w, st.armed[k].index) && RaceVerdict(w, st.armed[k].index).None?
    requires FirstCommit(w, WithoutArmed(st, k).armed, done, k, j, d)
    ensures FirstCommit(w, st.armed, done, k, j + 1, d)
  {
    var armed' := WithoutArmed(st, k).armed;
    forall i | k < i < |st.armed|
      ensures st.armed[i] == armed'[i - 1]
    {
    }
  }

  /** Exactly the rules that are not ready stay armed, and every disarmed rule was ready and took no decision. */
  ghost predicate Disarmed(w: World, armed: seq<Armed>, armed': seq<Armed>, done: set<nat>) {
    && (forall j | 0 <= j < |armed'| :: armed'[j] in armed && !Ready(armed'[j], done))
    && (forall a | a in armed ::
          a in armed' || (Ready(a, done) && Contends(w, a.index) && RaceVerdict(w, a.index).None?))
    && |armed'| <= |armed|
  }

  lemma SkipKeepsDisarmed(w: World, st: Walk, armed': seq<Armed>, done: set<nat>, k: nat)
    requires k < |st.armed| && Ready(st.armed[k], done)
    requires Contends(w, st.armed[k].index) && RaceVerdict(w, st.armed[k].index).None?
    requires Disarmed(w, WithoutArmed(st, k).armed, armed', done)
    ensures Disarmed(w, st.armed, armed', done)
  {
    var rest := WithoutArmed(st, k).armed;
    forall a | a in st.armed
      ensures a in armed' || (Ready(a, done) && Contends(w, a.index) && RaceVerdict(w, a.index).None?)
    {
      var j :| 0 <= j < |st.armed| && st.armed[j] == a;
      if j < k {
        assert rest[j] == a;
      } else if j > k {
        assert rest[j - 1] == a;
      }
    }
  }

  /**
   * A sweep commits the first ready armed rule whose verdict is a decision; when none commits,
   * exactly the rules that are not ready stay armed and every rule it disarmed took no decision.
   */
  lemma {:induction false} SweepCommitsFirst(w: World, st: Walk, done: set<nat>, k: nat)
    requires Sweepable(w, st, done) && k <= |st.armed|
    requires forall j | 0 <= j < k :: !Ready(st.armed[j], done)
    ensures var (st', commit) := Sweep(w, st, done, k);
      && Sweepable(w, st', done)
      && (commit.Some? ==> exists j: nat :: FirstCommit(w, st.armed, done, k, j, commit.value))
      && (commit.None? ==> Disarmed(w, st.armed, st'.armed, done))
    decreases |st.armed| - k
  {
    hide ArmedOk, Contends, Recorded, SweepReads, Walkable, InOrder, FirstCommit, Disarmed, TryArmed, WithoutArmed;
    if k == |st.armed| {
      assert Sweep(w, st, done, k) == (st, None);
      NothingDisarmed(w, st.armed, done);
    } else if !Ready(st.armed[k], done) {
      SweepCommitsFirst(w, st, done, k + 1);
      var (st', commit) := Sweep(w, st, done, k + 1);
      assert Sweep(w, st, done, k) == (st', commit);
      if commit.Some? {
        var j: nat :| FirstCommit(w, st.armed, done, k + 1, j, commit.value);
        UnreadyKeepsFirst(w, st.armed, done, k, j, commit.value);
      }
    } else {
      SweepReady(w, st, done, k);
    }
  }

  lemma NothingDisarmed(w: World, armed: seq<Armed>, done: set<nat>)
    requires forall j | 0 <= j < |armed| :: !Ready(armed[j], done)
    ensures Disarmed(w, armed, armed, done)
  {
  }

  lemma UnreadyKeepsFirst(w: World, armed: seq<Armed>, done: set<nat>, k: nat, j: nat, d: Decision)
    requires k < |armed| && !Ready(armed[k], done) && FirstCommit(w, armed, done, k + 1, j, d)
    ensures FirstCommit(w, armed, done, k, j, d)
  {
  }

  lemma {:induction false} SweepReady(w: World, st: Walk, done: set<nat>, k: nat)
    requires Sweepable(w, st, done) && k < |st.armed|
    requires (forall j | 0 <= j < k :: !Ready(st.armed[j], done)) && Ready(st.armed[k], done)
    ensures var (st', commit) := Sweep(w, st, done, k);
      && Sweepable(w, st', done)
      && (commit.Some? ==> exists j: nat :: FirstCommit(w, st.armed, done, k, j, commit.value))
      && (commit.None? ==> Disarmed(w, st.armed, st'.armed, done))
    decreases |st.armed| - k, 0
  {
    hide SeesRight;
    var st0 := WithoutArmed(st, k);
    RemovalKeepsSweepable(w, st, k, done);
    assert ArmedOk(w, st0, st.armed[k], done) by { ArmedFrame(w, st, st0, st.armed[k], done); }
    SightFrame(w, st, st0, st.armed[k].index, done);
    TryArmedIsVerdict(w, st0, st.armed[k], done);
    var verdict := TryArmed(w, st0, st.armed[k], done);
    if verdict.Some? {
      assert Sweep(w, st, done, k) == (st0, verdict);
      assert FirstCommit(w, st.armed, done, k, k, verdict.value);
    } else {
      SweepCommitsFirst(w, st0, done, k);
      var (st', commit) := Sweep(w, st0, done, k);
      assert Sweep(w, st, done, k) == (st', commit);
      if commit.Some? {
        var j: nat :| FirstCommit(w, st0.armed, done, k, j, commit.value);
        SkipKeepsFirst(w, st, done, k, j, commit.value);
      } else {
        SkipKeepsDisarmed(w, st, st'.armed, done, k);
      }
    }
  }
}
