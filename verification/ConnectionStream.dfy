/**
 * The connection event stream: the first message lists every connection, later ones only what
 * changed. A client that replays the stream must hold exactly what the server's snapshots hold.
 */
module ConnectionStream {
  import opened Options

  type Id = nat

  /** A tracked connection with its counters at the moment a batch is built. */
  datatype Connection = Connection(id: Id, uplink: int, downlink: int)

  /** NEW carries totals, and for a connection already closed a closing time; UPDATE carries deltas. */
  datatype Event =
    | New(id: Id, uplinkTotal: int, downlinkTotal: int, closed: bool)
    | Update(id: Id, uplinkDelta: int, downlinkDelta: int)
    | Closed(id: Id)

  datatype Snapshot = Snapshot(uplink: int, downlink: int, hadTraffic: bool)

  // ---- The client ----

  /** An open connection as a client sees it; `moving` when its latest update was not zero. */
  datatype Open = Open(uplink: int, downlink: int, moving: bool)

  type Client = map<Id, Open>

  function ReplayOne(client: Client, e: Event): Client {
    match e
    case New(id, up, down, closed) => if closed then client else client[id := Open(up, down, false)]
    case Update(id, up, down) =>
      if id in client
      then client[id := Open(client[id].uplink + up, client[id].downlink + down, up != 0 || down != 0)]
      else client
    case Closed(id) => client - {id}
  }

  function Replay(client: Client, events: seq<Event>): Client {
    if events == [] then client else ReplayOne(Replay(client, events[..|events| - 1]), events[|events| - 1])
  }

  lemma {:induction false} ReplayMore(client: Client, a: seq<Event>, b: seq<Event>)
    ensures Replay(client, a + b) == Replay(Replay(client, a), b)
  {
    if b == [] {
      assert a + b == a;
    } else {
      var n := |b| - 1;
      assert (a + b)[..|a| + n] == a + b[..n];
      ReplayMore(client, a, b[..n]);
    }
  }

  lemma ReplaySnoc(client: Client, events: seq<Event>, e: Event)
    ensures Replay(client, events + [e]) == ReplayOne(Replay(client, events), e)
  {
    assert (events + [e])[..|events|] == events;
  }

  /** The client holds open what is in the snapshots, with the same totals and the same activity. */
  ghost predicate Agrees(client: Client, snapshots: map<Id, Snapshot>) {
    && client.Keys == snapshots.Keys
    && forall id | id in client ::
         client[id] == Open(snapshots[id].uplink, snapshots[id].downlink, snapshots[id].hadTraffic)
  }

  /** The client holds the same connections open and knows which are moving, whatever its totals. */
  ghost predicate Tracks(client: Client, snapshots: map<Id, Snapshot>) {
    client.Keys == snapshots.Keys && forall id | id in client :: client[id].moving == snapshots[id].hadTraffic
  }

  // ---- What a batch of updates should leave behind ----

  ghost predicate Distinct(connections: seq<Connection>) {
    forall i, j | 0 <= i < j < |connections| :: connections[i].id != connections[j].id
  }

  function Ids(connections: seq<Connection>): set<Id> {
    set i | 0 <= i < |connections| :: connections[i].id
  }

  predicate Decreased(s: Snapshot, c: Connection) {
    c.uplink < s.uplink || c.downlink < s.downlink
  }

  /** The snapshot of an active connection after a batch. */
  function NextSnapshot(snapshots: map<Id, Snapshot>, c: Connection): Snapshot {
    if c.id !in snapshots || Decreased(snapshots[c.id], c) then Snapshot(c.uplink, c.downlink, false)
    else
      var s := snapshots[c.id];
      Snapshot(c.uplink, c.downlink, c.uplink != s.uplink || c.downlink != s.downlink)
  }

  /** What the client holds for it: totals moved by the same amounts, except that a decrease moves nothing. */
  function NextOpen(client: Client, snapshots: map<Id, Snapshot>, c: Connection): Open {
    if c.id !in snapshots || c.id !in client then Open(c.uplink, c.downlink, false)
    else
      var o, s := client[c.id], snapshots[c.id];
      if Decreased(s, c) then Open(o.uplink, o.downlink, false)
      else
        var moving := NextSnapshot(snapshots, c).hadTraffic;
        Open(o.uplink + (c.uplink - s.uplink), o.downlink + (c.downlink - s.downlink), moving)
  }

  // ---- What a subscription event should leave behind ----

  /** A connection has opened or closed, as the tracker reports it between two periodic batches. */
  datatype Notice = Opened(connection: Connection) | Gone(id: Id)

  function NoticeSnapshots(snapshots: map<Id, Snapshot>, n: Notice): map<Id, Snapshot> {
    match n
    case Opened(c) =>
      if c.id in snapshots then snapshots else snapshots[c.id := Snapshot(c.uplink, c.downlink, false)]
    case Gone(id) => snapshots - {id}
  }

  function NoticeClient(client: Client, snapshots: map<Id, Snapshot>, n: Notice): Client {
    match n
    case Opened(c) => if c.id in snapshots then client else client[c.id := Open(c.uplink, c.downlink, false)]
    case Gone(id) => client - {id}
  }

  class Stream {
    var snapshots: map<Id, Snapshot>

    constructor ()
      ensures snapshots == map[]
    {
      snapshots := map[];
    }

    /** The first message: every active connection open, every closed one as history. */
    method BuildInitialState(active: seq<Connection>, closed: seq<Connection>) returns (events: seq<Event>)
      requires Distinct(active) && Ids(active) !! Ids(closed) && snapshots == map[]
      modifies this
      ensures First(Pair(Replay(map[], events), snapshots), active)
    {
      events := [];
      var i := 0;
      while i < |active|
        invariant 0 <= i <= |active|
        invariant Agrees(Replay(map[], events), snapshots)
        invariant snapshots.Keys == Ids(active[..i])
        invariant forall j | 0 <= j < i :: HasTotals(snapshots, active[j])
      {
        var c := active[i];
        ReplaySnoc(map[], events, New(c.id, c.uplink, c.downlink, false));
        events := events + [New(c.id, c.uplink, c.downlink, false)];
        snapshots := snapshots[c.id := Snapshot(c.uplink, c.downlink, false)];
        assert Ids(active[..i + 1]) == Ids(active[..i]) + {c.id} by { IdsSnoc(active, i); }
        i := i + 1;
      }
      assert active[..|active|] == active;
      ghost var taken := snapshots;
      var j := 0;
      while j < |closed|
        invariant 0 <= j <= |closed|
        invariant snapshots == taken
        invariant Agrees(Replay(map[], events), snapshots)
      {
        var c := closed[j];
        ReplaySnoc(map[], events, New(c.id, c.uplink, c.downlink, true));
        events := events + [New(c.id, c.uplink, c.downlink, true)];
        j := j + 1;
      }
    }

    /** A connection opens: reported once. */
    method ApplyNew(c: Connection, ghost client: Client) returns (events: seq<Event>)
      modifies this
      ensures snapshots == NoticeSnapshots(old(snapshots), Opened(c))
      ensures Replay(client, events) == NoticeClient(client, old(snapshots), Opened(c))
    {
      if c.id in snapshots {
        return [];
      }
      snapshots := snapshots[c.id := Snapshot(c.uplink, c.downlink, false)];
      events := [New(c.id, c.uplink, c.downlink, false)];
      assert events == [] + events;
      ReplaySnoc(client, [], events[0]);
    }

    /** A connection closes: always reported. */
    method ApplyClosed(id: Id, ghost client: Client) returns (events: seq<Event>)
      modifies this
      ensures snapshots == NoticeSnapshots(old(snapshots), Gone(id))
      ensures Replay(client, events) == NoticeClient(client, old(snapshots), Gone(id))
    {
      snapshots := snapshots - {id};
      events := [Closed(id)];
      assert events == [] + events;
      ReplaySnoc(client, [], events[0]);
    }

    /** Drains the subscription: everything the tracker reported goes into one message. */
    method ApplyNotices(notices: seq<Notice>, ghost client: Client) returns (events: seq<Event>)
      modifies this
      ensures Pair(Replay(client, events), snapshots) == AfterNotices(Pair(client, old(snapshots)), notices, |notices|)
    {
      ghost var start := Pair(client, snapshots);
      events := [];
      var i := 0;
      while i < |notices|
        invariant 0 <= i <= |notices|
        invariant Pair(Replay(client, events), snapshots) == AfterNotices(start, notices, i)
      {
        var more: seq<Event>;
        match notices[i] {
          case Opened(c) => more := ApplyNew(c, Replay(client, events));
          case Gone(id) => more := ApplyClosed(id, Replay(client, events));
        }
        ReplayMore(client, events, more);
        events := events + more;
        i := i + 1;
      }
    }

    /**
     * The whole subscription: the first message, then one message for every drained subscription and
     * every tick that has something to say. `sent` is everything the client receives.
     */
    method Serve(active: seq<Connection>, closed: seq<Connection>, batches: seq<Batch>)
      returns (sent: seq<Event>, ghost first: Pair)
      requires Distinct(active) && Ids(active) !! Ids(closed) && snapshots == map[]
      requires forall k | 0 <= k < |batches| :: Sane(batches[k])
      modifies this
      ensures First(first, active)
      ensures Pair(Replay(map[], sent), snapshots) == AfterBatches(first, batches, |batches|)
    {
      sent := BuildInitialState(active, closed);
      first := Pair(Replay(map[], sent), snapshots);
      var i := 0;
      while i < |batches|
        invariant 0 <= i <= |batches|
        invariant Pair(Replay(map[], sent), snapshots) == AfterBatches(first, batches, i)
      {
        StreamTracks(first, active, batches, i);
        var message: seq<Event>;
        match batches[i] {
          case Applied(notices) => message := ApplyNotices(notices, Replay(map[], sent));
          case Tick(now) => message := BuildTrafficUpdates(now, Replay(map[], sent));
        }
        if message != [] {
          ReplayMore(map[], sent, message);
          sent := sent + message;
        }
        i := i + 1;
      }
    }

    /** Brings one active connection up to date, reporting what changed. */
    method UpdateConnection(c: Connection, ghost client: Client) returns (event: Option<Event>)
      requires InStep(client, snapshots, c.id)
      modifies this
      ensures snapshots == old(snapshots)[c.id := NextSnapshot(old(snapshots), c)]
      ensures (if event.Some? then ReplayOne(client, event.value) else client)
        == client[c.id := NextOpen(client, old(snapshots), c)]
    {
      if c.id !in snapshots {
        snapshots := snapshots[c.id := Snapshot(c.uplink, c.downlink, false)];
        return Some(New(c.id, c.uplink, c.downlink, false));
      }
      var snapshot := snapshots[c.id];
      var uplinkDelta, downlinkDelta := c.uplink - snapshot.uplink, c.downlink - snapshot.downlink;
      if uplinkDelta < 0 || downlinkDelta < 0 {
        event := if snapshot.hadTraffic then Some(Update(c.id, 0, 0)) else None;
        snapshots := snapshots[c.id := Snapshot(c.uplink, c.downlink, false)];
        return;
      }
      if uplinkDelta > 0 || downlinkDelta > 0 {
        snapshots := snapshots[c.id := Snapshot(c.uplink, c.downlink, true)];
        return Some(Update(c.id, uplinkDelta, downlinkDelta));
      }
      if snapshot.hadTraffic {
        snapshots := snapshots[c.id := Snapshot(c.uplink, c.downlink, false)];
        return Some(Update(c.id, 0, 0));
      }
      event := None;
    }

    /** A periodic batch: brings every active connection up to date and reports the vanished ones closed. */
    method BuildTrafficUpdates(active: seq<Connection>, ghost client: Client) returns (events: seq<Event>)
      requires Distinct(active) && Tracks(client, snapshots)
      modifies this
      ensures snapshots == Keep(SnapshotsAfter(old(snapshots), active), Ids(active))
      ensures Replay(client, events) == Keep(ClientAfter(client, old(snapshots), active), Ids(active))
    {
      ghost var before := snapshots;
      events := [];
      var i := 0;
      while i < |active|
        invariant 0 <= i <= |active|
        invariant snapshots == SnapshotsAfter(before, active[..i])
        invariant Replay(client, events) == ClientAfter(client, before, active[..i])
      {
        var c := active[i];
        FreshIsUntouched(client, before, active, i);
        FoldSnoc(client, before, active, i);
        var event := UpdateConnection(c, Replay(client, events));
        if event.Some? {
          ReplaySnoc(client, events, event.value);
          events := events + [event.value];
        }
        i := i + 1;
      }
      assert active[..|active|] == active;
      AfterKeys(client, before, active);
      events := CloseVanished(active, client, events);
    }

    /** Reports every snapshot without an active connection closed and drops it. */
    method CloseVanished(active: seq<Connection>, ghost client: Client, reported: seq<Event>)
        returns (events: seq<Event>)
      requires Replay(client, reported).Keys == snapshots.Keys
      modifies this
      ensures snapshots == Keep(old(snapshots), Ids(active))
      ensures Replay(client, events) == Keep(Replay(client, reported), Ids(active))
    {
      hide Ids, Replay, Keep;
      events := reported;
      var activeIndex := Ids(active);
      var vanished := snapshots.Keys - activeIndex;
      ghost var all := vanished;
      ghost var gone: set<Id> := {};
      while vanished != {}
        invariant gone + vanished == all
        invariant snapshots == old(snapshots) - gone
        invariant Replay(client, events) == Replay(client, reported) - gone
        decreases |vanished|
      {
        var id :| id in vanished;
        ReplaySnoc(client, events, Closed(id));
        RemovedTwice(old(snapshots), gone, id);
        RemovedTwice(Replay(client, reported), gone, id);
        events := events + [Closed(id)];
        snapshots := snapshots - {id};
        vanished := vanished - {id};
        gone := gone + {id};
      }
      assert gone == all;
      KeepIsRemoval(old(snapshots), activeIndex);
      KeepIsRemoval(Replay(client, reported), activeIndex);
    }
  }

  // ---- Batches ----

  function Keep<T>(m: map<Id, T>, ids: set<Id>): map<Id, T> {
    map id | id in m && id in ids :: m[id]
  }

  lemma RemovedTwice<T>(m: map<Id, T>, gone: set<Id>, id: Id)
    ensures (m - gone) - {id} == m - (gone + {id})
  {
  }

  lemma KeepIsRemoval<T>(m: map<Id, T>, ids: set<Id>)
    ensures m - (m.Keys - ids) == Keep(m, ids)
  {
  }

  ghost function SnapshotsAfter(snapshots: map<Id, Snapshot>, active: seq<Connection>): map<Id, Snapshot> {
    if active == [] then snapshots
    else
      var c := active[|active| - 1];
      var s := SnapshotsAfter(snapshots, active[..|active| - 1]);
      s[c.id := NextSnapshot(s, c)]
  }

  ghost function ClientAfter(client: Client, snapshots: map<Id, Snapshot>, active: seq<Connection>): Client {
    if active == [] then client
    else
      var c := active[|active| - 1];
      var earlier := active[..|active| - 1];
      var held := ClientAfter(client, snapshots, earlier);
      held[c.id := NextOpen(held, SnapshotsAfter(snapshots, earlier), c)]
  }

  lemma FoldSnoc(client: Client, snapshots: map<Id, Snapshot>, active: seq<Connection>, i: nat)
    requires i < |active|
    ensures var s := SnapshotsAfter(snapshots, active[..i]);
      SnapshotsAfter(snapshots, active[..i + 1]) == s[active[i].id := NextSnapshot(s, active[i])]
    ensures var held := ClientAfter(client, snapshots, active[..i]);
      ClientAfter(client, snapshots, active[..i + 1])
      == held[active[i].id := NextOpen(held, SnapshotsAfter(snapshots, active[..i]), active[i])]
  {
    assert active[..i + 1][..i] == active[..i];
  }

  /** A connection is as it was until the batch comes to it. */
  lemma {:induction false} FreshIsUntouched(client: Client, snapshots: map<Id, Snapshot>, active: seq<Connection>,
      i: nat)
    requires i < |active| && Distinct(active) && Tracks(client, snapshots)
    ensures InStep(ClientAfter(client, snapshots, active[..i]), SnapshotsAfter(snapshots, active[..i]), active[i].id)
    ensures var s, id := SnapshotsAfter(snapshots, active[..i]), active[i].id;
      (id in s <==> id in snapshots) && (id in s ==> s[id] == snapshots[id])
  {
    UntouchedUpTo(client, snapshots, active, i, active[i].id);
  }

  lemma {:induction false} UntouchedUpTo(client: Client, snapshots: map<Id, Snapshot>, active: seq<Connection>, i: nat,
      id: Id)
    requires i <= |active| && forall j | 0 <= j < i :: active[j].id != id
    ensures var s := SnapshotsAfter(snapshots, active[..i]);
      (id in s <==> id in snapshots) && (id in s ==> s[id] == snapshots[id])
    ensures var held := ClientAfter(client, snapshots, active[..i]);
      (id in held <==> id in client) && (id in held ==> held[id] == client[id])
  {
    if i > 0 {
      UntouchedUpTo(client, snapshots, active, i - 1, id);
      FoldSnoc(client, snapshots, active, i - 1);
    }
  }

  lemma {:induction false} AfterKeys(client: Client, snapshots: map<Id, Snapshot>, active: seq<Connection>)
    requires client.Keys == snapshots.Keys
    ensures ClientAfter(client, snapshots, active).Keys == SnapshotsAfter(snapshots, active).Keys
  {
    if active != [] {
      AfterKeys(client, snapshots, active[..|active| - 1]);
    }
  }

  /** After a batch every active connection has the snapshot its own counters call for. */
  lemma {:induction false} SnapshotAt(snapshots: map<Id, Snapshot>, active: seq<Connection>, n: nat, i: nat)
    requires i < n <= |active| && Distinct(active)
    ensures var s, c := SnapshotsAfter(snapshots, active[..n]), active[i];
      c.id in s && s[c.id] == NextSnapshot(snapshots, c)
  {
    hide SnapshotsAfter, ClientAfter, NextOpen;
    FoldSnoc(map[], snapshots, active, n - 1);
    if i == n - 1 {
      UntouchedUpTo(map[], snapshots, active, i, active[i].id);
    } else {
      SnapshotAt(snapshots, active, n - 1, i);
    }
  }

  /** And the client view. */
  lemma {:induction false} ClientAt(client: Client, snapshots: map<Id, Snapshot>, active: seq<Connection>, n: nat,
      i: nat)
    requires i < n <= |active| && Distinct(active)
    ensures var held, c := ClientAfter(client, snapshots, active[..n]), active[i];
      c.id in held && held[c.id] == NextOpen(client, snapshots, c)
  {
    FoldSnoc(client, snapshots, active, n - 1);
    if i == n - 1 {
      UntouchedUpTo(client, snapshots, active, i, active[i].id);
    } else {
      ClientAt(client, snapshots, active, n - 1, i);
    }
    hide SnapshotsAfter, ClientAfter, NextSnapshot;
  }

  /** The client's view of one connection is in step with its snapshot. */
  ghost predicate InStep(client: Client, snapshots: map<Id, Snapshot>, id: Id) {
    && (id in client <==> id in snapshots)
    && (id in client ==> client[id].moving == snapshots[id].hadTraffic)
  }

  lemma IdsSnoc(connections: seq<Connection>, i: nat)
    requires i < |connections|
    ensures Ids(connections[..i + 1]) == Ids(connections[..i]) + {connections[i].id}
  {
    var longer, shorter := connections[..i + 1], connections[..i];
    forall id | id in Ids(longer)
      ensures id in Ids(shorter) + {connections[i].id}
    {
      var k :| 0 <= k < |longer| && longer[k].id == id;
      if k < i { assert shorter[k].id == id; }
    }
    forall id | id in Ids(shorter)
      ensures id in Ids(longer)
    {
      var k :| 0 <= k < |shorter| && shorter[k].id == id;
      assert longer[k].id == id;
    }
    assert longer[i].id == connections[i].id;
  }

  /** After every batch both sides hold exactly the active connections, and the client knows which are moving. */
  lemma BatchTracks(active: seq<Connection>, client: Client, snapshots: map<Id, Snapshot>)
    requires Distinct(active) && Tracks(client, snapshots)
    ensures var s := Keep(SnapshotsAfter(snapshots, active), Ids(active));
      var held := Keep(ClientAfter(client, snapshots, active), Ids(active));
      && Tracks(held, s) && s.Keys == Ids(active)
      && (forall i | 0 <= i < |active| ::
            && active[i].id in s && s[active[i].id] == NextSnapshot(snapshots, active[i])
            && active[i].id in held && held[active[i].id] == NextOpen(client, snapshots, active[i]))
  {
    var s := Keep(SnapshotsAfter(snapshots, active), Ids(active));
    var held := Keep(ClientAfter(client, snapshots, active), Ids(active));
    forall i | 0 <= i < |active|
      ensures active[i].id in s && s[active[i].id] == NextSnapshot(snapshots, active[i])
      ensures active[i].id in held && held[active[i].id] == NextOpen(client, snapshots, active[i])
    {
      assert active[..|active|] == active;
      SnapshotAt(snapshots, active, |active|, i);
      ClientAt(client, snapshots, active, |active|, i);
      assert active[i].id in Ids(active);
    }
    hide SnapshotsAfter, ClientAfter;
  }

  /** A client that agreed still agrees after a batch exactly when no known connection's counter went backwards. */
  lemma BatchAgreesUnlessDecreased(active: seq<Connection>, client: Client, snapshots: map<Id, Snapshot>)
    requires Distinct(active) && Agrees(client, snapshots)
    ensures var s := Keep(SnapshotsAfter(snapshots, active), Ids(active));
      var held := Keep(ClientAfter(client, snapshots, active), Ids(active));
      Agrees(held, s)
      <==> forall i | 0 <= i < |active| && active[i].id in snapshots :: !Decreased(snapshots[active[i].id], active[i])
  {
    BatchTracks(active, client, snapshots);
    var s := Keep(SnapshotsAfter(snapshots, active), Ids(active));
    var held := Keep(ClientAfter(client, snapshots, active), Ids(active));
    hide SnapshotsAfter, ClientAfter, Keep;
    if Agrees(held, s) {
      forall i | 0 <= i < |active| && active[i].id in snapshots
        ensures !Decreased(snapshots[active[i].id], active[i])
      {
        assert held[active[i].id] == Open(s[active[i].id].uplink, s[active[i].id].downlink, s[active[i].id].hadTraffic);
      }
    }
  }

  // ---- Whole streams ----

  /** Both ends of the stream: what a replaying client holds and what the server remembers. */
  datatype Pair = Pair(client: Client, snapshots: map<Id, Snapshot>)

  /** What the loop of a subscription handles at once: a drained subscription or a tick. */
  datatype Batch = Applied(notices: seq<Notice>) | Tick(active: seq<Connection>)

  /** The tracker lists a connection once. */
  ghost predicate Sane(b: Batch) {
    b.Tick? ==> Distinct(b.active)
  }

  ghost predicate Tracking(p: Pair) {
    Tracks(p.client, p.snapshots)
  }

  ghost predicate Agreeing(p: Pair) {
    Agrees(p.client, p.snapshots)
  }

  ghost predicate HasTotals(snapshots: map<Id, Snapshot>, c: Connection) {
    c.id in snapshots && snapshots[c.id] == Snapshot(c.uplink, c.downlink, false)
  }

  /** Both ends after the first message: exactly the active connections, with their totals. */
  ghost predicate First(p: Pair, active: seq<Connection>) {
    && Agreeing(p)
    && p.snapshots.Keys == Ids(active)
    && forall i | 0 <= i < |active| :: HasTotals(p.snapshots, active[i])
  }

  ghost function AfterNotice(p: Pair, n: Notice): Pair {
    Pair(NoticeClient(p.client, p.snapshots, n), NoticeSnapshots(p.snapshots, n))
  }

  ghost function AfterNotices(p: Pair, notices: seq<Notice>, n: nat): Pair
    requires n <= |notices|
  {
    if n == 0 then p else AfterNotice(AfterNotices(p, notices, n - 1), notices[n - 1])
  }

  ghost function AfterTick(p: Pair, active: seq<Connection>): Pair {
    Pair(
      Keep(ClientAfter(p.client, p.snapshots, active), Ids(active)),
      Keep(SnapshotsAfter(p.snapshots, active), Ids(active)))
  }

  ghost function AfterBatch(p: Pair, b: Batch): Pair {
    match b
    case Applied(notices) => AfterNotices(p, notices, |notices|)
    case Tick(active) => AfterTick(p, active)
  }

  /** A known connection's counter went backwards: only a tick can see that. */
  ghost predicate Backwards(p: Pair, b: Batch) {
    b.Tick? && exists i :: 0 <= i < |b.active| && b.active[i].id in p.snapshots
                          && Decreased(p.snapshots[b.active[i].id], b.active[i])
  }

  lemma TickKeeps(p: Pair, active: seq<Connection>)
    requires Distinct(active) && Tracking(p)
    ensures Tracking(AfterTick(p, active)) && AfterTick(p, active).snapshots.Keys == Ids(active)
    ensures Agreeing(p) ==> (Agreeing(AfterTick(p, active)) <==> !Backwards(p, Tick(active)))
  {
    BatchTracks(active, p.client, p.snapshots);
    if Agreeing(p) {
      BatchAgreesUnlessDecreased(active, p.client, p.snapshots);
    }
    hide Keep, ClientAfter, SnapshotsAfter, Tracks, Agrees;
  }

  lemma NoticeKeeps(p: Pair, n: Notice)
    requires Tracking(p)
    ensures Tracking(AfterNotice(p, n)) && (Agreeing(p) ==> Agreeing(AfterNotice(p, n)))
  {
  }

  lemma {:induction false} NoticesKeep(p: Pair, notices: seq<Notice>, n: nat)
    requires Tracking(p) && n <= |notices|
    ensures Tracking(AfterNotices(p, notices, n)) && (Agreeing(p) ==> Agreeing(AfterNotices(p, notices, n)))
  {
    hide Tracking, Agreeing, AfterNotice;
    if n > 0 {
      NoticesKeep(p, notices, n - 1);
      NoticeKeeps(AfterNotices(p, notices, n - 1), notices[n - 1]);
    }
  }

  /** Every batch keeps the two ends in step, and keeps the totals unless a counter went backwards. */
  lemma BatchKeeps(p: Pair, b: Batch)
    requires Sane(b) && Tracking(p)
    ensures Tracking(AfterBatch(p, b))
    ensures Agreeing(p) ==> (Agreeing(AfterBatch(p, b)) <==> !Backwards(p, b))
    ensures b.Tick? ==> AfterBatch(p, b).snapshots.Keys == Ids(b.active)
  {
    hide Tracking, Agreeing, AfterTick, AfterNotices;
    match b
    case Applied(notices) => NoticesKeep(p, notices, |notices|);
    case Tick(active) => TickKeeps(p, active);
  }

  /** Both ends after the first n batches. */
  ghost function AfterBatches(p: Pair, batches: seq<Batch>, n: nat): Pair
    requires n <= |batches|
  {
    if n == 0 then p else AfterBatch(AfterBatches(p, batches, n - 1), batches[n - 1])
  }

  ghost predicate WentBackwards(p: Pair, batches: seq<Batch>, n: nat)
    requires n < |batches|
  {
    Backwards(AfterBatches(p, batches, n), batches[n])
  }

  ghost predicate NoneBackwards(p: Pair, batches: seq<Batch>, n: nat)
    requires n <= |batches|
  {
    forall k: nat | k < n :: !WentBackwards(p, batches, k)
  }

  lemma {:induction false} StreamTracks(p: Pair, active: seq<Connection>, batches: seq<Batch>, n: nat)
    requires First(p, active) && n <= |batches| && forall k | 0 <= k < |batches| :: Sane(batches[k])
    ensures Tracking(AfterBatches(p, batches, n))
    ensures NoneBackwards(p, batches, n) ==> Agreeing(AfterBatches(p, batches, n))
  {
    hide AfterBatch, Backwards, Sane;
    if n > 0 {
      StreamTracks(p, active, batches, n - 1);
      hide Tracking, Agreeing;
      BatchKeeps(AfterBatches(p, batches, n - 1), batches[n - 1]);
      assert NoneBackwards(p, batches, n) ==> NoneBackwards(p, batches, n - 1) && !WentBackwards(p, batches, n - 1);
    }
  }

  /**
   * Over every stream of ticks and drained subscriptions behind the first message: after every batch
   * the client holds open exactly what the snapshots hold and knows what moves; a tick leaves exactly
   * the active connections; and the totals agree up to the first tick in which a known counter went
   * backwards, which is the first batch that breaks them.
   */
  lemma StreamAgrees(p: Pair, active: seq<Connection>, batches: seq<Batch>, n: nat)
    requires First(p, active) && n <= |batches| && forall k | 0 <= k < |batches| :: Sane(batches[k])
    ensures Tracking(AfterBatches(p, batches, n))
    ensures n > 0 && batches[n - 1].Tick? ==> AfterBatches(p, batches, n).snapshots.Keys == Ids(batches[n - 1].active)
    ensures NoneBackwards(p, batches, n) ==> Agreeing(AfterBatches(p, batches, n))
    ensures n > 0 && NoneBackwards(p, batches, n - 1) ==>
      (Agreeing(AfterBatches(p, batches, n)) <==> !WentBackwards(p, batches, n - 1))
  {
    StreamTracks(p, active, batches, n);
    if n > 0 {
      StreamTracks(p, active, batches, n - 1);
      hide AfterBatch, Backwards, Sane, Tracking, Agreeing;
      BatchKeeps(AfterBatches(p, batches, n - 1), batches[n - 1]);
    }
  }
}
