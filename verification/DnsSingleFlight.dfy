/**
 * The single-flight lock of the DNS client: the first exchange for a cache key asks while those
 * that come meanwhile wait for its channel to close and then look into the cache again, once. Any
 * number of exchanges interleave; taking the lock, deleting its entry and closing the channel are
 * separate steps.
 */
module DnsSingleFlight {
  import opened Options

  type Key = string

  /** A channel stored under a cache key, with the exchange that made it. */
  datatype Channel = Channel(maker: nat, closed: bool)

  /**
   * Where an exchange stands. `hold` is the channel it still has to release. Looking is the top of
   * the cache loop; `loaded` says that another exchange's channel was found there.
   */
  datatype Phase =
    | Begin
    | Looking(hold: Option<nat>, cond: nat, loaded: bool)
    | Waiting(cond: nat)
    | Sending(hold: Option<nat>)
    | Leaving(hold: Option<nat>)
    | Closing(channel: nat)
    | Finished

  /**
   * `patient` is false for the first pass of an asynchronous exchange, which must not block and
   * starts over, with a key computed anew, when it would have to wait; `skips`
   * marks an exchange that does not use the cache, `awaited` the channel one has waited for.
   */
  datatype Exchange = Exchange(
    key: Key,
    patient: bool,
    skips: bool,
    waits: nat,
    awaited: Option<nat>,
    phase: Phase)

  datatype Client = Client(lock: map<Key, nat>, channels: seq<Channel>, exchanges: seq<Exchange>)

  const IDLE_CLIENT := Client(map[], [], [])

  datatype Event =
    | Arrive(key: Key, synchronous: bool)
    | ReturnEarly(x: nat)
    | SkipCache(x: nat)
    | TakeLock(x: nat)
    | Hit(x: nat)
    | Miss(x: nat)
    | MissRejected(x: nat)
    | StartOver(x: nat, key: Key)
    | Wake(x: nat)
    | GiveUp(x: nat)
    | Respond(x: nat)
    | DeleteEntry(x: nat)
    | CloseChannel(x: nat)

  ghost predicate At(c: Client, x: nat) {
    x < |c.exchanges|
  }

  ghost predicate Enabled(c: Client, e: Event) {
    match e
    case Arrive(_, _) => true
    case ReturnEarly(x) => At(c, x) && c.exchanges[x].phase.Begin?
    case SkipCache(x) => At(c, x) && c.exchanges[x].phase.Begin?
    case TakeLock(x) => At(c, x) && c.exchanges[x].phase.Begin?
    case Hit(x) => At(c, x) && c.exchanges[x].phase.Looking?
    case Miss(x) =>
      && At(c, x) && c.exchanges[x].phase.Looking?
      && (c.exchanges[x].phase.loaded ==> c.exchanges[x].patient)
    case MissRejected(x) => At(c, x) && c.exchanges[x].phase.Looking? && !c.exchanges[x].phase.loaded
    case StartOver(x, _) =>
      At(c, x) && c.exchanges[x].phase.Looking? && c.exchanges[x].phase.loaded && !c.exchanges[x].patient
    case Wake(x) =>
      && At(c, x) && c.exchanges[x].phase.Waiting?
      && c.exchanges[x].phase.cond < |c.channels| && c.channels[c.exchanges[x].phase.cond].closed
    case GiveUp(x) => At(c, x) && c.exchanges[x].phase.Waiting?
    case Respond(x) => At(c, x) && c.exchanges[x].phase.Sending?
    case DeleteEntry(x) => At(c, x) && c.exchanges[x].phase.Leaving?
    case CloseChannel(x) => At(c, x) && c.exchanges[x].phase.Closing? && c.exchanges[x].phase.channel < |c.channels|
  }

  ghost function To(c: Client, x: nat, p: Phase): Client
    requires At(c, x)
  {
    c.(exchanges := c.exchanges[x := c.exchanges[x].(phase := p)])
  }

  ghost function Step(c: Client, e: Event): Client
    requires Enabled(c, e)
  {
    match e
    case Arrive(key, synchronous) => c.(exchanges := c.exchanges + [Exchange(key, synchronous, false, 0, None, Begin)])
    case ReturnEarly(x) => To(c, x, Finished)
    case SkipCache(x) => c.(exchanges := c.exchanges[x := c.exchanges[x].(skips := true, phase := Sending(None))])
    case TakeLock(x) =>
      var key := c.exchanges[x].key;
      if key in c.lock then To(c, x, Looking(None, c.lock[key], true))
      else
        var ch := |c.channels|;
        var taken := c.(lock := c.lock[key := ch], channels := c.channels + [Channel(x, false)]);
        To(taken, x, Looking(Some(ch), ch, false))
    case Hit(x) => To(c, x, Leaving(c.exchanges[x].phase.hold))
    case Miss(x) =>
      var p := c.exchanges[x].phase;
      To(c, x, if !p.loaded then Sending(p.hold) else Waiting(p.cond))
    case StartOver(x, key) =>
      c.(exchanges := c.exchanges[x := c.exchanges[x].(key := key, patient := true, phase := Begin)])
    case MissRejected(x) => To(c, x, Leaving(c.exchanges[x].phase.hold))
    case Wake(x) =>
      var p := c.exchanges[x].phase;
      var woken := c.exchanges[x].(
        waits := c.exchanges[x].waits + 1, awaited := Some(p.cond), phase := Looking(None, p.cond, false));
      c.(exchanges := c.exchanges[x := woken])
    case GiveUp(x) => To(c, x, Finished)
    case Respond(x) => To(c, x, Leaving(c.exchanges[x].phase.hold))
    case DeleteEntry(x) =>
      var hold := c.exchanges[x].phase.hold;
      if hold.None? then To(c, x, Finished)
      else To(c.(lock := c.lock - {c.exchanges[x].key}), x, Closing(hold.value))
    case CloseChannel(x) =>
      var ch := c.exchanges[x].phase.channel;
      To(c.(channels := c.channels[ch := c.channels[ch].(closed := true)]), x, Finished)
  }

  // ---- What every interleaving keeps ----

  function Hold(p: Phase): Option<nat> {
    match p
    case Looking(hold, _, _) => hold
    case Sending(hold) => hold
    case Leaving(hold) => hold
    case _ => None
  }

  /** What one exchange may assume: what it holds is its own, in the lock and open. */
  ghost predicate ExchangeOk(c: Client, x: nat)
    requires At(c, x)
  {
    var o := c.exchanges[x];
    && (Hold(o.phase).Some? ==>
          var ch := Hold(o.phase).value;
          ch < |c.channels| && c.channels[ch] == Channel(x, false) && o.key in c.lock && c.lock[o.key] == ch)
    && (o.phase.Closing? ==>
          var ch := o.phase.channel;
          ch < |c.channels| && c.channels[ch] == Channel(x, false) && ch !in c.lock.Values)
    && (o.phase.Looking? ==> o.phase.cond < |c.channels| && (o.phase.loaded ==> o.phase.hold.None?))
    && (o.phase.Waiting? ==> o.phase.cond < |c.channels| && o.waits == 0 && o.patient)
    && o.waits <= 1 && o.awaited.Some? == (o.waits > 0)
    && (o.awaited.Some? ==> o.awaited.value < |c.channels| && c.channels[o.awaited.value].closed)
    && (o.phase.Looking? && !o.phase.loaded && o.phase.hold.None? ==> o.waits == 1)
    && (o.phase.Sending? && o.phase.hold.None? ==> o.skips || o.waits == 1)
    && (o.phase.Begin? || (o.phase.Looking? && o.phase.loaded) ==> o.waits == 0)
  }

  /** Who still has to close a channel: its maker, holding it or about to close it. */
  ghost predicate Owned(c: Client, ch: nat)
    requires ch < |c.channels|
  {
    var x := c.channels[ch].maker;
    && At(c, x)
    && (!c.channels[ch].closed ==> Hold(c.exchanges[x].phase) == Some(ch) || c.exchanges[x].phase == Closing(ch))
  }

  ghost predicate EntryOk(c: Client, key: Key)
    requires key in c.lock
  {
    var ch := c.lock[key];
    && ch < |c.channels|
    && !c.channels[ch].closed
    && At(c, c.channels[ch].maker)
    && Hold(c.exchanges[c.channels[ch].maker].phase) == Some(ch)
    && c.exchanges[c.channels[ch].maker].key == key
  }

  ghost predicate Inv(c: Client) {
    && (forall x | 0 <= x < |c.exchanges| :: ExchangeOk(c, x))
    && (forall ch | 0 <= ch < |c.channels| :: Owned(c, ch))
    && (forall key | key in c.lock :: EntryOk(c, key))
  }

  /** An exchange that moves on without taking or giving up a channel. */
  lemma MoveKeeps(c: Client, x: nat, o: Exchange)
    requires Inv(c) && At(c, x)
    requires Hold(o.phase) == Hold(c.exchanges[x].phase) && (Hold(o.phase).None? || o.key == c.exchanges[x].key)
    requires !o.phase.Closing? && !c.exchanges[x].phase.Closing?
    requires ExchangeOk(c.(exchanges := c.exchanges[x := o]), x)
    ensures Inv(c.(exchanges := c.exchanges[x := o]))
  {
    var c' := c.(exchanges := c.exchanges[x := o]);
    forall y | 0 <= y < |c'.exchanges|
      ensures ExchangeOk(c', y)
    {
      if y != x { assert ExchangeOk(c, y); }
    }
    forall ch | 0 <= ch < |c'.channels|
      ensures Owned(c', ch)
    {
      assert Owned(c, ch);
    }
    forall key | key in c'.lock
      ensures EntryOk(c', key)
    {
      assert EntryOk(c, key);
    }
  }

  lemma ArriveKeeps(c: Client, key: Key, synchronous: bool)
    requires Inv(c)
    ensures Inv(Step(c, Arrive(key, synchronous)))
  {
    var c' := Step(c, Arrive(key, synchronous));
    forall y | 0 <= y < |c'.exchanges|
      ensures ExchangeOk(c', y)
    {
      if y < |c.exchanges| { assert ExchangeOk(c, y); }
    }
    forall ch | 0 <= ch < |c'.channels| ensures Owned(c', ch) { assert Owned(c, ch); }
    forall k | k in c'.lock ensures EntryOk(c', k) { assert EntryOk(c, k); }
  }

  /** Storing a new channel under a free key. */
  lemma TakeKeeps(c: Client, x: nat)
    requires Inv(c) && Enabled(c, TakeLock(x)) && c.exchanges[x].key !in c.lock
    ensures Inv(Step(c, TakeLock(x)))
  {
    var c' := Step(c, TakeLock(x));
    var ch := |c.channels|;
    assert ExchangeOk(c, x);
    forall y | 0 <= y < |c'.exchanges|
      ensures ExchangeOk(c', y)
    {
      if y != x {
        assert ExchangeOk(c, y);
        assert c'.exchanges[y] == c.exchanges[y];
        if c.exchanges[y].phase.Closing? {
          assert ch != c.exchanges[y].phase.channel;
          forall k | k in c'.lock ensures c'.lock[k] != c.exchanges[y].phase.channel {
            if k in c.lock { assert c.lock[k] in c.lock.Values; }
          }
        }
      }
    }
    forall k | 0 <= k < |c'.channels| ensures Owned(c', k) { if k < ch { assert Owned(c, k); } }
    forall k | k in c'.lock ensures EntryOk(c', k) { if k in c.lock { assert EntryOk(c, k); } }
  }

  /** Deleting the entry of a held channel: nothing else can stand under the key. */
  lemma DeleteKeeps(c: Client, x: nat)
    requires Inv(c) && Enabled(c, DeleteEntry(x)) && c.exchanges[x].phase.hold.Some?
    ensures Inv(Step(c, DeleteEntry(x)))
  {
    var c' := Step(c, DeleteEntry(x));
    var key := c.exchanges[x].key;
    var ch := c.exchanges[x].phase.hold.value;
    assert ExchangeOk(c, x);
    forall k | k in c'.lock
      ensures EntryOk(c', k) && c'.lock[k] != ch
    {
      assert EntryOk(c, k);
    }
    forall y | 0 <= y < |c'.exchanges|
      ensures ExchangeOk(c', y)
    {
      assert ExchangeOk(c, y);
      if y != x && Hold(c.exchanges[y].phase).Some? {
        assert c.exchanges[y].key != key by {
          assert c.channels[Hold(c.exchanges[y].phase).value].maker == y;
        }
      }
      if y != x && c.exchanges[y].phase.Closing? {
        forall k | k in c'.lock ensures c'.lock[k] != c.exchanges[y].phase.channel {
          assert c.lock[k] in c.lock.Values;
        }
      }
    }
    forall k | 0 <= k < |c'.channels| ensures Owned(c', k) { assert Owned(c, k); }
  }

  /** Closing the channel: it is open, so it is closed once. */
  lemma CloseKeeps(c: Client, x: nat)
    requires Inv(c) && Enabled(c, CloseChannel(x))
    ensures !c.channels[c.exchanges[x].phase.channel].closed
    ensures Inv(Step(c, CloseChannel(x)))
  {
    var c' := Step(c, CloseChannel(x));
    var ch := c.exchanges[x].phase.channel;
    assert ExchangeOk(c, x);
    forall y | 0 <= y < |c'.exchanges|
      ensures ExchangeOk(c', y)
    {
      assert ExchangeOk(c, y);
    }
    forall k | 0 <= k < |c'.channels| ensures Owned(c', k) { assert Owned(c, k); }
    forall k | k in c'.lock ensures EntryOk(c', k) { assert EntryOk(c, k); assert c.lock[k] in c.lock.Values; }
  }

  /** Every step of every interleaving keeps the lock in order. */
  lemma StepKeeps(c: Client, e: Event)
    requires Inv(c) && Enabled(c, e)
    ensures Inv(Step(c, e))
  {
    match e
    case Arrive(key, synchronous) => ArriveKeeps(c, key, synchronous);
    case CloseChannel(x) => CloseKeeps(c, x);
    case DeleteEntry(x) =>
      if c.exchanges[x].phase.hold.Some? { DeleteKeeps(c, x); } else { PhaseKeeps(c, e, x); }
    case TakeLock(x) =>
      if c.exchanges[x].key !in c.lock { TakeKeeps(c, x); } else { PhaseKeeps(c, e, x); }
    case ReturnEarly(x) => PhaseKeeps(c, e, x);
    case SkipCache(x) => PhaseKeeps(c, e, x);
    case Hit(x) => PhaseKeeps(c, e, x);
    case Miss(x) => PhaseKeeps(c, e, x);
    case MissRejected(x) => PhaseKeeps(c, e, x);
    case StartOver(x, _) => PhaseKeeps(c, e, x);
    case Wake(x) => PhaseKeeps(c, e, x);
    case GiveUp(x) => PhaseKeeps(c, e, x);
    case Respond(x) => PhaseKeeps(c, e, x);
    hide Inv, Step, Enabled;
  }

  /** The events that only move exchange x on. */
  ghost predicate OnlyMoves(c: Client, e: Event, x: nat) {
    && Enabled(c, e) && At(c, x)
    && !e.Arrive? && !e.CloseChannel? && e.x == x
    && (e.TakeLock? ==> c.exchanges[x].key in c.lock)
    && (e.DeleteEntry? ==> c.exchanges[x].phase.hold.None?)
  }

  lemma PhaseKeeps(c: Client, e: Event, x: nat)
    requires Inv(c) && OnlyMoves(c, e, x)
    ensures Inv(Step(c, e))
  {
    var o := Step(c, e).exchanges[x];
    assert ExchangeOk(c, x);
    if e.TakeLock? { assert EntryOk(c, c.exchanges[x].key); }
    assert Step(c, e) == c.(exchanges := c.exchanges[x := o]);
    assert ExchangeOk(Step(c, e), x);
    hide Inv, Step;
    MoveKeeps(c, x, o);
  }

  // ---- Whole runs ----

  ghost function Run(events: seq<Event>): Client
    decreases |events|
  {
    if events == [] then IDLE_CLIENT
    else
      var c := Run(events[..|events| - 1]);
      if Enabled(c, events[|events| - 1]) then Step(c, events[|events| - 1]) else c
  }

  lemma {:induction false} EveryRunKeeps(events: seq<Event>)
    ensures Inv(Run(events))
    decreases |events|
  {
    if events != [] {
      EveryRunKeeps(events[..|events| - 1]);
      var c := Run(events[..|events| - 1]);
      if Enabled(c, events[|events| - 1]) {
        StepKeeps(c, events[|events| - 1]);
      }
      hide Inv, Step, Enabled;
    }
  }

  /** Exchange x, and no other, has yet to release the key. */
  ghost predicate SoleHolder(c: Client, key: Key, x: nat)
    requires key in c.lock
  {
    && At(c, x) && Hold(c.exchanges[x].phase) == Some(c.lock[key]) && c.exchanges[x].key == key
    && forall y | 0 <= y < |c.exchanges| && Hold(c.exchanges[y].phase) == Some(c.lock[key]) :: y == x
  }

  /** Whoever waits, waits for a channel that is closed, or that its maker holds or is about to close. */
  ghost predicate WaitsSafely(c: Client, x: nat)
    requires At(c, x) && c.exchanges[x].phase.Waiting?
  {
    var ch := c.exchanges[x].phase.cond;
    && ch < |c.channels|
    && (|| c.channels[ch].closed
        || (&& At(c, c.channels[ch].maker)
            && var maker := c.exchanges[c.channels[ch].maker];
               Hold(maker.phase) == Some(ch) || maker.phase == Closing(ch)))
  }

  /**
   * For any number of interleaved exchanges: every key in the lock belongs to exactly one exchange,
   * which has yet to release it; nobody waits twice; and whoever waits, waits for a channel that is
   * closed already, or that its maker holds or is about to close.
   */
  lemma LockIsOwned(events: seq<Event>)
    ensures var c := Run(events);
      && (forall key | key in c.lock :: exists x: nat :: SoleHolder(c, key, x))
      && (forall x | 0 <= x < |c.exchanges| :: c.exchanges[x].waits <= 1)
      && (forall x | 0 <= x < |c.exchanges| && c.exchanges[x].phase.Waiting? :: WaitsSafely(c, x))
  {
    EveryRunKeeps(events);
    var c := Run(events);
    hide Run;
    forall key | key in c.lock
      ensures exists x: nat :: SoleHolder(c, key, x)
    {
      assert EntryOk(c, key);
      forall y | 0 <= y < |c.exchanges| && Hold(c.exchanges[y].phase) == Some(c.lock[key])
        ensures y == c.channels[c.lock[key]].maker
      {
        assert ExchangeOk(c, y);
      }
      assert SoleHolder(c, key, c.channels[c.lock[key]].maker);
    }
    forall x | 0 <= x < |c.exchanges|
      ensures c.exchanges[x].waits <= 1
      ensures c.exchanges[x].phase.Waiting? ==> WaitsSafely(c, x)
    {
      assert ExchangeOk(c, x);
      if c.exchanges[x].phase.Waiting? { assert Owned(c, c.exchanges[x].phase.cond); }
    }
  }

  /** Exchange x of the key is out, and it uses the cache. */
  ghost predicate Out(c: Client, x: nat, key: Key) {
    At(c, x) && c.exchanges[x].key == key && c.exchanges[x].phase.Sending? && !c.exchanges[x].skips
  }

  /**
   * Of the exchanges of one key that use the cache, one at most is out without having waited, and
   * that one holds the lock; every other one that is out has waited, once, for a channel that is
   * closed by now.
   */
  lemma OneFirstFlightPerKey(events: seq<Event>, key: Key, x: nat, y: nat)
    requires Out(Run(events), x, key) && Out(Run(events), y, key)
    ensures var c := Run(events);
      && (c.exchanges[x].waits == 0 ==> key in c.lock && SoleHolder(c, key, x))
      && (c.exchanges[x].waits > 0 ==>
            && c.exchanges[x].waits == 1 && c.exchanges[x].awaited.Some?
            && c.exchanges[x].awaited.value < |c.channels| && c.channels[c.exchanges[x].awaited.value].closed)
      && (c.exchanges[x].waits == 0 && c.exchanges[y].waits == 0 ==> x == y)
  {
    EveryRunKeeps(events);
    LockIsOwned(events);
    var c := Run(events);
    hide Run;
    assert ExchangeOk(c, x) && ExchangeOk(c, y);
    if c.exchanges[x].waits == 0 {
      var z: nat :| SoleHolder(c, key, z);
    }
  }

  // ---- A second flight for the same key ----

  lemma RunSnoc(events: seq<Event>, e: Event)
    requires Enabled(Run(events), e)
    ensures Run(events + [e]) == Step(Run(events), e)
  {
    assert (events + [e])[..|events|] == events;
  }

  /** One more event that can happen. */
  lemma Extend(events: seq<Event>, e: Event) returns (longer: seq<Event>)
    requires Enabled(Run(events), e)
    ensures Run(longer) == Step(Run(events), e)
  {
    longer := events + [e];
    RunSnoc(events, e);
  }

  function Plain(key: Key, waits: nat, awaited: Option<nat>, phase: Phase): Exchange {
    Exchange(key, true, false, waits, awaited, phase)
  }

  lemma OneAsksOneWaits(key: Key) returns (events: seq<Event>)
    ensures Run(events) == Client(
      map[key := 0],
      [Channel(0, false)],
      [Plain(key, 0, None, Sending(Some(0))), Plain(key, 0, None, Waiting(0))])
  {
    events := [];
    assert Run(events) == IDLE_CLIENT;
    hide Run;
    events := Extend(events, Arrive(key, true));
    events := Extend(events, TakeLock(0));
    events := Extend(events, Miss(0));
    events := Extend(events, Arrive(key, true));
    events := Extend(events, TakeLock(1));
    events := Extend(events, Miss(1));
    var c := Run(events);
    assert c.lock == map[key := 0] && c.channels == [Channel(0, false)];
    assert c.exchanges == [Plain(key, 0, None, Sending(Some(0))), Plain(key, 0, None, Waiting(0))];
  }

  lemma WaiterAsksToo(key: Key) returns (events: seq<Event>)
    ensures Run(events) == Client(
      map[],
      [Channel(0, true)],
      [Plain(key, 0, None, Finished), Plain(key, 1, Some(0), Sending(None))])
  {
    events := OneAsksOneWaits(key);
    hide Run;
    events := Extend(events, Respond(0));
    events := Extend(events, DeleteEntry(0));
    events := Extend(events, CloseChannel(0));
    events := Extend(events, Wake(1));
    events := Extend(events, Miss(1));
    var c := Run(events);
    assert c.lock == map[] && c.channels == [Channel(0, true)];
    assert c.exchanges == [Plain(key, 0, None, Finished), Plain(key, 1, Some(0), Sending(None))];
  }

  /**
   * So the lock does not keep two exchanges of a key from being out together: a waiter that misses
   * when it is woken asks without taking the lock, and the next exchange to come takes it and asks.
   */
  lemma TwoFlightsForOneKey(key: Key) returns (events: seq<Event>)
    ensures Out(Run(events), 1, key) && Out(Run(events), 2, key)
    ensures Run(events).exchanges[1].waits == 1 && Run(events).exchanges[2].waits == 0
  {
    events := WaiterAsksToo(key);
    hide Run;
    events := Extend(events, Arrive(key, true));
    events := Extend(events, TakeLock(2));
    events := Extend(events, Miss(2));
  }

  /** No channel is closed twice, in any run. */
  lemma ChannelsCloseOnce(events: seq<Event>, x: nat)
    requires Enabled(Run(events), CloseChannel(x))
    ensures var c := Run(events);
      var ch := c.exchanges[x].phase.channel;
      && !c.channels[ch].closed && c.channels[ch].maker == x
      && forall y | 0 <= y < |c.exchanges| && c.exchanges[y].phase == Closing(ch) :: y == x
  {
    EveryRunKeeps(events);
    var c := Run(events);
    hide Run;
    assert ExchangeOk(c, x);
    forall y | 0 <= y < |c.exchanges| && c.exchanges[y].phase == c.exchanges[x].phase ensures y == x {
      assert ExchangeOk(c, y);
    }
  }

  /** Nothing leaks: once every exchange is finished the lock is empty and every channel is closed. */
  lemma NothingLeaks(events: seq<Event>)
    requires forall x | 0 <= x < |Run(events).exchanges| :: Run(events).exchanges[x].phase.Finished?
    ensures Run(events).lock == map[]
    ensures forall ch | 0 <= ch < |Run(events).channels| :: Run(events).channels[ch].closed
  {
    EveryRunKeeps(events);
    var c := Run(events);
    assert forall key :: key in c.lock ==> EntryOk(c, key);
    assert c.lock.Keys == {};
    forall ch | 0 <= ch < |c.channels| ensures c.channels[ch].closed { assert Owned(c, ch); }
  }

  // ---- Progress ----

  /** The steps of the client's own exchanges: neither a newcomer nor an impatient caller. */
  predicate OwnStep(e: Event) {
    !e.Arrive? && !e.GiveUp?
  }

  /** The next step of an exchange, whether or not it can take it yet. */
  function NextStep(c: Client, x: nat): Event
    requires x < |c.exchanges| && !c.exchanges[x].phase.Finished?
  {
    match c.exchanges[x].phase
    case Begin => TakeLock(x)
    case Looking(_, _, loaded) =>
      if loaded && !c.exchanges[x].patient then StartOver(x, c.exchanges[x].key) else Miss(x)
    case Waiting(_) => Wake(x)
    case Sending(_) => Respond(x)
    case Leaving(_) => DeleteEntry(x)
    case Closing(_) => CloseChannel(x)
  }

  /** Nobody waits for one who waits: as long as an exchange is not finished, some exchange can take a step. */
  lemma SomeoneCanStep(events: seq<Event>, x: nat)
    requires At(Run(events), x) && !Run(events).exchanges[x].phase.Finished?
    ensures exists e: Event :: OwnStep(e) && Enabled(Run(events), e)
  {
    EveryRunKeeps(events);
    var c := Run(events);
    hide Run;
    assert ExchangeOk(c, x);
    var y := x;
    if c.exchanges[x].phase.Waiting? && !c.channels[c.exchanges[x].phase.cond].closed {
      assert Owned(c, c.exchanges[x].phase.cond);
      y := c.channels[c.exchanges[x].phase.cond].maker;
      assert ExchangeOk(c, y);
    }
    assert OwnStep(NextStep(c, y)) && Enabled(c, NextStep(c, y));
  }

  /** How many steps an exchange has left at most. */
  function StepsLeft(o: Exchange): nat {
    match o.phase
    case Begin => if o.patient then 7 else 9
    case Looking(_, _, loaded) => if !loaded then 4 else if o.patient then 6 else 8
    case Waiting(_) => 5
    case Sending(_) => 3
    case Leaving(_) => 2
    case Closing(_) => 1
    case Finished => 0
  }

  function AllStepsLeft(exchanges: seq<Exchange>): nat {
    if exchanges == [] then 0 else StepsLeft(exchanges[0]) + AllStepsLeft(exchanges[1..])
  }

  lemma {:induction false} StepsLeftSet(exchanges: seq<Exchange>, x: nat, o: Exchange)
    requires x < |exchanges|
    ensures AllStepsLeft(exchanges[x := o]) == AllStepsLeft(exchanges) - StepsLeft(exchanges[x]) + StepsLeft(o)
  {
    if x > 0 {
      assert exchanges[x := o][1..] == exchanges[1..][x - 1 := o];
      StepsLeftSet(exchanges[1..], x - 1, o);
    } else {
      assert exchanges[x := o][1..] == exchanges[1..];
    }
  }

  lemma {:induction false} StepsLeftAdd(exchanges: seq<Exchange>, o: Exchange)
    ensures AllStepsLeft(exchanges + [o]) == AllStepsLeft(exchanges) + StepsLeft(o)
  {
    if exchanges == [] {
      assert [o][1..] == [];
      assert AllStepsLeft([o]) == StepsLeft(o) + AllStepsLeft([]);
    } else {
      assert (exchanges + [o])[1..] == exchanges[1..] + [o];
      StepsLeftAdd(exchanges[1..], o);
    }
  }

  lemma StepSpends(c: Client, e: Event)
    requires Enabled(c, e)
    ensures var left, left' := AllStepsLeft(c.exchanges), AllStepsLeft(Step(c, e).exchanges);
      if e.Arrive? then left' <= left + 9 else left' < left
  {
    hide AllStepsLeft;
    match e
    case Arrive(key, synchronous) => StepsLeftAdd(c.exchanges, Exchange(key, synchronous, false, 0, None, Begin));
    case _ =>
      var x := e.x;
      StepsLeftSet(c.exchanges, x, Step(c, e).exchanges[x]);
  }

  /** The events that happened, newcomers apart, and the newcomers. */
  ghost function Steps(events: seq<Event>): nat
    decreases |events|
  {
    if events == [] then 0
    else
      var e := events[|events| - 1];
      var before := events[..|events| - 1];
      Steps(before) + if Enabled(Run(before), e) && !e.Arrive? then 1 else 0
  }

  function Arrivals(events: seq<Event>): nat
    decreases |events|
  {
    if events == [] then 0
    else Arrivals(events[..|events| - 1]) + if events[|events| - 1].Arrive? then 1 else 0
  }

  /** Every run takes at most nine steps for each exchange, so with SomeoneCanStep every exchange comes to its end. */
  lemma {:induction false} EveryExchangeEnds(events: seq<Event>)
    ensures Steps(events) + AllStepsLeft(Run(events).exchanges) <= 9 * Arrivals(events)
    decreases |events|
  {
    hide Step, Enabled, StepsLeft;
    if events != [] {
      var before, e := events[..|events| - 1], events[|events| - 1];
      EveryExchangeEnds(before);
      if Enabled(Run(before), e) {
        StepSpends(Run(before), e);
      }
    }
  }
}
