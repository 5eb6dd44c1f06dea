/**
 * Cache time in the DNS client: how long a response may be kept, what a cached response says
 * about its remaining time, and how the memory store and the cache file compare.
 * Times are in nanoseconds, lifetimes in seconds.
 */
module DnsCacheTime {
  import opened Options
  import DnsRules

  const SECOND: nat := 1_000_000_000

  /** A value of an HTTPS record. */
  datatype SvcbValue = IPv4Hint(data: string) | IPv6Hint(data: string) | OtherValue(data: string)

  /** A resource record; OPT is not a record about names and carries no lifetime. */
  datatype Kind = Opt | Soa(minimum: nat) | Https(values: seq<SvcbValue>) | Other

  datatype Record = Record(kind: Kind, ttl: nat, data: string)

  datatype Message = Message(answer: seq<Record>, ns: seq<Record>, extra: seq<Record>)

  // ---- The lifetime of a response ----

  function Records(m: Message): seq<Record> {
    m.answer + m.ns + m.extra
  }

  /** t is the least positive TTL of the non-OPT records, or zero when none is positive. */
  ghost predicate LeastPositive(records: seq<Record>, t: nat) {
    && (forall i | 0 <= i < |records| && !records[i].kind.Opt? && records[i].ttl > 0 :: 0 < t <= records[i].ttl)
    && (t > 0 ==> exists i :: 0 <= i < |records| && !records[i].kind.Opt? && records[i].ttl == t)
  }

  /** Position i holds the first SOA record. */
  ghost predicate FirstSoa(records: seq<Record>, i: nat) {
    i < |records| && records[i].kind.Soa? && forall j | 0 <= j < i :: !records[j].kind.Soa?
  }

  ghost predicate HasSoa(records: seq<Record>) {
    exists i :: 0 <= i < |records| && records[i].kind.Soa?
  }

  /** t is the lesser of the first SOA record's TTL and MINIMUM (section 3 of RFC 2308). */
  ghost predicate NegativeTTL(ns: seq<Record>, t: nat) {
    exists i: nat ::
      && FirstSoa(ns, i) && t <= ns[i].ttl && t <= ns[i].kind.minimum
      && (t == ns[i].ttl || t == ns[i].kind.minimum)
  }

  method ExtractNegativeTTL(m: Message) returns (ttl: Option<nat>)
    ensures ttl.None? <==> !HasSoa(m.ns)
    ensures ttl.Some? ==> NegativeTTL(m.ns, ttl.value)
  {
    var i := 0;
    while i < |m.ns|
      invariant 0 <= i <= |m.ns|
      invariant forall j | 0 <= j < i :: !m.ns[j].kind.Soa?
    {
      if m.ns[i].kind.Soa? {
        assert FirstSoa(m.ns, i);
        return Some(if m.ns[i].ttl < m.ns[i].kind.minimum then m.ns[i].ttl else m.ns[i].kind.minimum);
      }
      i := i + 1;
    }
    return None;
  }

  /** Carries the least positive TTL on over one section of the message. */
  method ScanSection(records: seq<Record>, ghost before: seq<Record>, ttl: nat) returns (least: nat)
    requires LeastPositive(before, ttl)
    ensures LeastPositive(before + records, least)
  {
    hide LeastPositive;
    least := ttl;
    var i := 0;
    assert before + records[..0] == before;
    while i < |records|
      invariant 0 <= i <= |records|
      invariant LeastPositive(before + records[..i], least)
    {
      var record := records[i];
      LeastSnoc(before + records[..i], record, least);
      assert before + records[..i + 1] == before + records[..i] + [record];
      if !record.kind.Opt? && (least == 0 || (record.ttl > 0 && record.ttl < least)) {
        least := record.ttl;
      }
      i := i + 1;
    }
    assert records[..|records|] == records;
  }

  /** The lifetime of a response. */
  method ComputeTimeToLive(m: Message) returns (ttl: nat)
    ensures m.answer == [] && HasSoa(m.ns) ==> NegativeTTL(m.ns, ttl)
    ensures m.answer != [] || !HasSoa(m.ns) ==> LeastPositive(Records(m), ttl)
  {
    hide NegativeTTL, HasSoa;
    if m.answer == [] {
      var negative := ExtractNegativeTTL(m);
      if negative.Some? {
        return negative.value;
      }
    }
    ttl := 0;
    assert LeastPositive([], ttl);
    hide LeastPositive;
    ttl := ScanSection(m.answer, [], ttl);
    ttl := ScanSection(m.ns, [] + m.answer, ttl);
    ttl := ScanSection(m.extra, [] + m.answer + m.ns, ttl);
    assert [] + m.answer + m.ns + m.extra == Records(m);
  }

  lemma LeastSnoc(seen: seq<Record>, r: Record, t: nat)
    requires LeastPositive(seen, t)
    ensures LeastPositive(seen + [r], if !r.kind.Opt? && (t == 0 || (r.ttl > 0 && r.ttl < t)) then r.ttl else t)
  {
    var longer := seen + [r];
    assert longer[|seen|] == r;
    assert forall i | 0 <= i < |seen| :: longer[i] == seen[i];
    if t > 0 {
      var i :| 0 <= i < |seen| && !seen[i].kind.Opt? && seen[i].ttl == t;
      assert longer[i].ttl == t;
    }
  }

  // ---- Rewriting lifetimes ----

  function SetTTL(records: seq<Record>, ttl: nat): (r: seq<Record>)
    ensures |r| == |records|
    ensures forall i | 0 <= i < |r| :: r[i] == if records[i].kind.Opt? then records[i] else records[i].(ttl := ttl)
  {
    seq(|records|, i requires 0 <= i < |records| =>
      if records[i].kind.Opt? then records[i] else records[i].(ttl := ttl))
  }

  function Normalized(m: Message, ttl: nat): Message {
    Message(SetTTL(m.answer, ttl), SetTTL(m.ns, ttl), SetTTL(m.extra, ttl))
  }

  /** Rewrites one section in place, OPT records excepted. */
  method NormalizeSection(records: array<Record>, ttl: nat)
    modifies records
    ensures records[..] == SetTTL(old(records[..]), ttl)
  {
    var i := 0;
    while i < records.Length
      invariant 0 <= i <= records.Length
      invariant forall k | 0 <= k < i :: records[k] == SetTTL(old(records[..]), ttl)[k]
      invariant forall k | i <= k < records.Length :: records[k] == old(records[k])
    {
      if !records[i].kind.Opt? {
        records[i] := records[i].(ttl := ttl);
      }
      i := i + 1;
    }
  }

  // ---- Address hints ----

  /** A hint of the address family that the strategy rules out. */
  predicate RuledOut(v: SvcbValue, strategy: DnsRules.Strategy) {
    match strategy
    case IPv4Only => v.IPv6Hint?
    case IPv6Only => v.IPv4Hint?
    case _ => false
  }

  function KeptValues(values: seq<SvcbValue>, strategy: DnsRules.Strategy): seq<SvcbValue> {
    if values == [] then []
    else (if RuledOut(values[0], strategy) then [] else [values[0]]) + KeptValues(values[1..], strategy)
  }

  /** Exactly the hints of the other family go. */
  lemma {:induction false} KeptExactly(values: seq<SvcbValue>, strategy: DnsRules.Strategy, v: SvcbValue)
    ensures multiset(KeptValues(values, strategy))[v] == if RuledOut(v, strategy) then 0 else multiset(values)[v]
    ensures (forall i | 0 <= i < |values| :: !RuledOut(values[i], strategy)) ==> KeptValues(values, strategy) == values
  {
    if values != [] {
      assert values == [values[0]] + values[1..];
      KeptExactly(values[1..], strategy, v);
    }
  }

  function WithKept(r: Record, strategy: DnsRules.Strategy): (r': Record)
    ensures r'.ttl == r.ttl && r'.data == r.data && (r'.kind.Opt? <==> r.kind.Opt?) && (r'.kind.Soa? ==> r' == r)
    ensures !r.kind.Https? ==> r' == r
  {
    if r.kind.Https? then r.(kind := Https(KeptValues(r.kind.values, strategy))) else r
  }

  /** The answers of an HTTPS query without the hints that the strategy rules out. */
  method FilterHints(answer: array<Record>, strategy: DnsRules.Strategy)
    modifies answer
    ensures forall k | 0 <= k < answer.Length :: answer[k] == WithKept(old(answer[k]), strategy)
  {
    var i := 0;
    while i < answer.Length
      invariant 0 <= i <= answer.Length
      invariant forall k | 0 <= k < i :: answer[k] == WithKept(old(answer[k]), strategy)
      invariant forall k | i <= k < answer.Length :: answer[k] == old(answer[k])
    {
      if answer[i].kind.Https? {
        answer[i] := answer[i].(kind := Https(KeptValues(answer[i].kind.values, strategy)));
      }
      i := i + 1;
    }
  }

  function Filtered(m: Message, https: bool, strategy: DnsRules.Strategy): (r: Message)
    ensures r.ns == m.ns && r.extra == m.extra && |r.answer| == |m.answer|
    ensures forall i | 0 <= i < |m.answer| ::
      r.answer[i] == if https then WithKept(m.answer[i], strategy) else m.answer[i]
  {
    if https
    then m.(answer := seq(|m.answer|, i requires 0 <= i < |m.answer| => WithKept(m.answer[i], strategy)))
    else m
  }

  /** The hints play no part in the lifetime. */
  lemma FilteredLives(m: Message, https: bool, strategy: DnsRules.Strategy, ttl: nat)
    ensures LeastPositive(Records(Filtered(m, https, strategy)), ttl) ==> LeastPositive(Records(m), ttl)
  {
    var r, r' := Records(m), Records(Filtered(m, https, strategy));
    assert |r'| == |r|;
    forall i | 0 <= i < |r| ensures r'[i].ttl == r[i].ttl && r'[i].kind.Opt? == r[i].kind.Opt? {
      if i < |m.answer| {
        assert r[i] == m.answer[i] && r'[i] == Filtered(m, https, strategy).answer[i];
      } else {
        assert r'[i] == r[i];
      }
    }
    hide Filtered, Records;
    if LeastPositive(r', ttl) && ttl > 0 {
      var i :| 0 <= i < |r'| && !r'[i].kind.Opt? && r'[i].ttl == ttl;
      assert !r[i].kind.Opt? && r[i].ttl == ttl;
    }
  }

  /**
   * What is made of a response: the answers to an HTTPS query lose the hints the strategy rules out,
   * and every TTL shows the lifetime, the rule's rewritten one if there is one, else its own.
   */
  method ApplyResponseOptions(m: Message, https: bool, strategy: DnsRules.Strategy, rewriteTTL: Option<nat>)
    returns (r: Message, ttl: nat)
    ensures r == Normalized(Filtered(m, https, strategy), ttl)
    ensures rewriteTTL.Some? ==> ttl == rewriteTTL.value
    ensures rewriteTTL.None? && m.answer == [] && HasSoa(m.ns) ==> NegativeTTL(m.ns, ttl)
    ensures rewriteTTL.None? && (m.answer != [] || !HasSoa(m.ns)) ==> LeastPositive(Records(m), ttl)
  {
    hide HasSoa, NegativeTTL, LeastPositive;
    var answer := new Record[|m.answer|](i requires 0 <= i < |m.answer| => m.answer[i]);
    if https && (strategy.IPv4Only? || strategy.IPv6Only?) {
      FilterHints(answer, strategy);
    } else {
      KeepsAll(m, https, strategy);
    }
    var kept := m.(answer := answer[..]);
    assert kept.answer == Filtered(m, https, strategy).answer;
    ttl := ComputeTimeToLive(kept);
    FilteredLives(m, https, strategy, ttl);
    if rewriteTTL.Some? {
      ttl := rewriteTTL.value;
    }
    r := Normalized(kept, ttl);
  }

  lemma KeepsAll(m: Message, https: bool, strategy: DnsRules.Strategy)
    requires !https || !(strategy.IPv4Only? || strategy.IPv6Only?)
    ensures Filtered(m, https, strategy) == m
  {
    forall i | 0 <= i < |m.answer| ensures Filtered(m, https, strategy).answer[i] == m.answer[i] {
      if m.answer[i].kind.Https? {
        KeptExactly(m.answer[i].kind.values, strategy, OtherValue(""));
      }
    }
    assert Filtered(m, https, strategy).answer == m.answer;
  }

  /** Rewriting twice is rewriting once: what was stored is recovered from what is shown. */
  lemma NormalizeTwice(m: Message, a: nat, b: nat)
    ensures Normalized(Normalized(m, a), b) == Normalized(m, b)
  {
    assert SetTTL(SetTTL(m.answer, a), b) == SetTTL(m.answer, b);
    assert SetTTL(SetTTL(m.ns, a), b) == SetTTL(m.ns, b);
    assert SetTTL(SetTTL(m.extra, a), b) == SetTTL(m.extra, b);
  }

  // ---- What a load gives ----

  datatype Entry = Entry(message: Message, expireAt: nat)

  datatype Loaded = Nothing | Fresh(message: Message, ttl: nat) | Stale(message: Message)

  /** What is served from an entry at a given time. */
  function Serve(e: Entry, now: nat, optimistic: nat): Loaded {
    if now > e.expireAt then
      if optimistic > 0 && now < e.expireAt + optimistic then Stale(Normalized(e.message, 1)) else Nothing
    else
      var ttl := (e.expireAt - now) / SECOND;
      Fresh(Normalized(e.message, ttl), ttl)
  }

  /**
   * A response stored for `lifetime` seconds and loaded at age `age`: shown with a time that never
   * outlives it, and after that only inside the optimistic window, with TTL 1.
   */
  lemma ServedWithinLifetime(m: Message, stored: nat, lifetime: nat, age: nat, optimistic: nat)
    ensures var r := Serve(Entry(Normalized(m, lifetime), stored + lifetime * SECOND), stored + age, optimistic);
      && (r.Fresh? <==> age <= lifetime * SECOND)
      && (r.Fresh? ==>
           r.ttl * SECOND + age <= lifetime * SECOND < (r.ttl + 1) * SECOND + age && r.message == Normalized(m, r.ttl))
      && (r.Stale? <==> lifetime * SECOND < age < lifetime * SECOND + optimistic)
      && (r.Stale? ==> r.message == Normalized(m, 1))
  {
    if age <= lifetime * SECOND {
      var left := lifetime * SECOND - age;
      NormalizeTwice(m, lifetime, left / SECOND);
    } else {
      NormalizeTwice(m, lifetime, 1);
    }
  }

  // ---- The memory store and the cache file ----

  /** An entry of the cache file once it has been written out: its time is kept in whole seconds. */
  function WrittenOut(e: Entry): Entry {
    e.(expireAt := e.expireAt / SECOND * SECOND)
  }

  /** Written out, an entry never outlives what the memory store would serve, and shows at most one second less. */
  lemma WrittenOutNeverOutlives(e: Entry, now: nat, optimistic: nat)
    ensures var file, memory := Serve(WrittenOut(e), now, optimistic), Serve(e, now, optimistic);
      && (file.Fresh? ==> memory.Fresh? && file.ttl <= memory.ttl <= file.ttl + 1)
      && (file.Stale? ==> memory.Stale? || (memory.Fresh? && memory.ttl == 0))
  {
    var whole, part := e.expireAt / SECOND, e.expireAt % SECOND;
    assert e.expireAt == whole * SECOND + part;
    if now <= whole * SECOND {
      var left := whole * SECOND - now;
      assert (left + part) / SECOND <= left / SECOND + 1;
    }
  }

  /**
   * The two stores give the same answer at every time exactly when the entry expires on a whole
   * second; before it is written out the cache file holds the exact time and they always agree.
   */
  lemma StoresAgreeOnWholeSeconds(e: Entry, optimistic: nat)
    ensures (forall now: nat :: Serve(WrittenOut(e), now, optimistic) == Serve(e, now, optimistic)) <==>
      e.expireAt % SECOND == 0
  {
    if e.expireAt % SECOND != 0 {
      var now := e.expireAt;
      assert now > WrittenOut(e).expireAt;
      assert Serve(e, now, optimistic).Fresh? && !Serve(WrittenOut(e), now, optimistic).Fresh?;
    } else {
      assert WrittenOut(e) == e;
    }
  }

  // ---- The client ----

  type Key = string

  /** How a client is set up; without expiry entries are served as stored. */
  datatype Mode = Mode(useFile: bool, disableExpire: bool, optimisticTimeout: nat)

  /** The client's stores: the memory cache, or the cache file with the writes still pending. */
  datatype Stores = Stores(cache: map<Key, Entry>, pending: map<Key, Entry>, written: map<Key, Entry>)

  const NO_STORES := Stores(map[], map[], map[])

  /** The entry a load finds: a pending write before a written one. */
  function Found(mode: Mode, s: Stores, key: Key): Option<Entry> {
    if !mode.useFile then (if key in s.cache then Some(s.cache[key]) else None)
    else if key in s.pending then Some(s.pending[key])
    else if key in s.written then Some(s.written[key])
    else None
  }

  function AnswerFrom(mode: Mode, e: Option<Entry>, now: nat): Loaded {
    if e.None? then Nothing
    else if mode.disableExpire then Fresh(e.value.message, 0)
    else Serve(e.value, now, mode.optimisticTimeout)
  }

  function Answer(mode: Mode, s: Stores, key: Key, now: nat): Loaded {
    AnswerFrom(mode, Found(mode, s, key), now)
  }

  datatype Operation =
    | Store(key: Key, message: Message, ttl: nat, now: nat)
    | Load(key: Key, now: nat)
    | Flush(key: Key, now: nat)
    | Evict(key: Key, now: nat)   // the memory store makes room

  function After(mode: Mode, s: Stores, op: Operation): Stores {
    match op
    case Store(key, message, ttl, now) =>
      var entry := Entry(message, now + ttl * SECOND);
      if ttl == 0 then s
      else if mode.useFile then s.(pending := s.pending[key := entry])
      else s.(cache := s.cache[key := entry])
    case Load(key, now) =>
      if mode.useFile || !Answer(mode, s, key, now).Nothing? then s else s.(cache := s.cache - {key})
    case Flush(key, _) =>
      if key !in s.pending then s
      else s.(pending := s.pending - {key}, written := s.written[key := WrittenOut(s.pending[key])])
    case Evict(key, _) => s.(cache := s.cache - {key})
  }

  class CacheClient {
    const mode: Mode
    var cache: map<Key, Entry>
    var pending: map<Key, Entry>
    var written: map<Key, Entry>

    ghost function Value(): Stores
      reads this
    {
      Stores(cache, pending, written)
    }

    constructor (mode: Mode)
      ensures this.mode == mode && Value() == NO_STORES
    {
      this.mode := mode;
      cache, pending, written := map[], map[], map[];
    }

    /** Keeps a response for its lifetime; a lifetime of zero keeps nothing. */
    method StoreCache(key: Key, message: Message, ttl: nat, now: nat)
      modifies this`cache, this`pending
      ensures Value() == After(mode, old(Value()), Store(key, message, ttl, now))
      ensures ttl > 0 ==> Found(mode, Value(), key) == Some(Entry(message, now + ttl * SECOND))
      ensures forall k | k != key || ttl == 0 :: Found(mode, Value(), k) == Found(mode, old(Value()), k)
    {
      if ttl == 0 {
        return;
      }
      var entry := Entry(message, now + ttl * SECOND);
      if mode.useFile {
        pending := pending[key := entry];
      } else {
        cache := cache[key := entry];
      }
    }

    /** A pending write reaches the file. */
    method FlushPending(key: Key, now: nat)
      modifies this`pending, this`written
      ensures Value() == After(mode, old(Value()), Flush(key, now))
      ensures key !in pending
      ensures forall k | k != key :: Found(mode, Value(), k) == Found(mode, old(Value()), k)
    {
      if key in pending {
        written := written[key := WrittenOut(pending[key])];
        pending := pending - {key};
      }
    }

    /** Serves a key; the memory store also drops an entry that is past serving. No answer changes by it. */
    method LoadResponse(key: Key, now: nat) returns (r: Loaded)
      modifies this`cache
      ensures r == Answer(mode, old(Value()), key, now)
      ensures Value() == After(mode, old(Value()), Load(key, now))
      ensures forall k, later: nat | now <= later ::
        Answer(mode, Value(), k, later) == Answer(mode, old(Value()), k, later)
    {
      if mode.useFile {
        r := LoadPersistent(key, now);
        return;
      }
      if key !in cache {
        assert cache - {key} == cache;
        return Nothing;
      }
      var entry := cache[key];
      if mode.disableExpire {
        return Fresh(entry.message, 0);
      }
      if now > entry.expireAt {
        if mode.optimisticTimeout > 0 && now < entry.expireAt + mode.optimisticTimeout {
          return Stale(Normalized(entry.message, 1));
        }
        cache := cache - {key};
        return Nothing;
      }
      var ttl := (entry.expireAt - now) / SECOND;
      return Fresh(Normalized(entry.message, ttl), ttl);
    }

    /** The memory store makes room for others. */
    method EvictEntry(key: Key, now: nat)
      modifies this`cache
      ensures Value() == After(mode, old(Value()), Evict(key, now))
      ensures mode.useFile ==> forall k :: Found(mode, Value(), k) == Found(mode, old(Value()), k)
    {
      cache := cache - {key};
    }

    method LoadPersistent(key: Key, now: nat) returns (r: Loaded)
      requires mode.useFile
      ensures r == Answer(mode, Value(), key, now)
    {
      var entry: Entry;
      if key in pending {
        entry := pending[key];
      } else if key in written {
        entry := written[key];
      } else {
        return Nothing;
      }
      if mode.disableExpire {
        return Fresh(entry.message, 0);
      }
      if now > entry.expireAt {
        if mode.optimisticTimeout > 0 && now < entry.expireAt + mode.optimisticTimeout {
          return Stale(Normalized(entry.message, 1));
        }
        return Nothing;
      }
      var ttl := (entry.expireAt - now) / SECOND;
      return Fresh(Normalized(entry.message, ttl), ttl);
    }
  }

  // ---- Two clients fed alike ----

  function AfterAll(mode: Mode, ops: seq<Operation>): Stores {
    if ops == [] then NO_STORES else After(mode, AfterAll(mode, ops[..|ops| - 1]), ops[|ops| - 1])
  }

  /** The last entry stored under the key. */
  function LastStored(ops: seq<Operation>, key: Key): Option<Entry> {
    if ops == [] then None
    else
      var op := ops[|ops| - 1];
      if op.Store? && op.key == key && op.ttl > 0 then Some(Entry(op.message, op.now + op.ttl * SECOND))
      else LastStored(ops[..|ops| - 1], key)
  }

  /** The same, unless the memory store has evicted it since. */
  function LastKept(ops: seq<Operation>, key: Key): (r: Option<Entry>)
    ensures r.Some? ==> r == LastStored(ops, key)
  {
    if ops == [] then None
    else
      var op := ops[|ops| - 1];
      if op.Store? && op.key == key && op.ttl > 0 then Some(Entry(op.message, op.now + op.ttl * SECOND))
      else if op.Evict? && op.key == key then None
      else LastKept(ops[..|ops| - 1], key)
  }

  /** Time does not go back. */
  ghost predicate InTime(ops: seq<Operation>) {
    forall i, j | 0 <= i < j < |ops| :: ops[i].now <= ops[j].now
  }

  /** A load that finds nothing to serve finds nothing ever after. */
  lemma PastServing(mode: Mode, e: Entry, now: nat, later: nat)
    requires now <= later && AnswerFrom(mode, Some(e), now).Nothing?
    ensures AnswerFrom(mode, Some(e), later).Nothing?
  {
  }

  /** The memory client answers from what was last stored and not evicted, whatever it has dropped on the way. */
  lemma {:induction false} MemoryAnswers(mode: Mode, ops: seq<Operation>, key: Key, later: nat)
    requires !mode.useFile && InTime(ops) && (ops != [] ==> ops[|ops| - 1].now <= later)
    ensures Answer(mode, AfterAll(mode, ops), key, later) == AnswerFrom(mode, LastKept(ops, key), later)
  {
    if ops != [] {
      var before, op := ops[..|ops| - 1], ops[|ops| - 1];
      assert before != [] ==> before[|before| - 1] == ops[|ops| - 2];
      MemoryAnswers(mode, before, key, later);
      if op.Load? && op.key == key {
        MemoryAnswers(mode, before, key, op.now);
        var e := Found(mode, AfterAll(mode, before), key);
        if e.Some? && AnswerFrom(mode, e, op.now).Nothing? {
          PastServing(mode, e.value, op.now, later);
        }
        hide Serve;
      }
    }
  }

  /** The file client finds what was last stored, cut to the second once it has been written out. */
  lemma {:induction false} FileFinds(mode: Mode, ops: seq<Operation>, key: Key)
    requires mode.useFile
    ensures var s, last := AfterAll(mode, ops), LastStored(ops, key);
      && (key in s.pending ==> last == Some(s.pending[key]))
      && Found(mode, s, key) == if last.None? || key in s.pending then last else Some(WrittenOut(last.value))
  {
    if ops != [] {
      FileFinds(mode, ops[..|ops| - 1], key);
      hide Serve;
    }
  }

  /**
   * Two clients fed alike, one with the memory store and one with the cache file: at any later time
   * the file never serves fresh what memory would not, shows at most a second less, and gives the
   * very same answer while the write is pending, when the entry expires on a whole second, and
   * always when expiry is off; what memory has evicted since it was stored it does not answer.
   */
  lemma StoresStayTogether(mode: Mode, ops: seq<Operation>, key: Key, later: nat)
    requires InTime(ops) && (ops != [] ==> ops[|ops| - 1].now <= later)
    ensures var onFile, inMemory := mode.(useFile := true), mode.(useFile := false);
      var last := LastStored(ops, key);
      var s := AfterAll(onFile, ops);
      var file, memory := Answer(onFile, s, key, later), Answer(inMemory, AfterAll(inMemory, ops), key, later);
      if LastKept(ops, key) != last then memory.Nothing?
      else
        && (file.Fresh? ==> memory.Fresh? && file.ttl <= memory.ttl <= file.ttl + 1)
        && (file.Stale? ==> memory.Stale? || (memory.Fresh? && memory.ttl == 0))
        && (mode.disableExpire || key in s.pending || last.None? || last.value.expireAt % SECOND == 0 ==>
              file == memory)
  {
    var onFile, inMemory := mode.(useFile := true), mode.(useFile := false);
    var last := LastStored(ops, key);
    FileFinds(onFile, ops, key);
    MemoryAnswers(inMemory, ops, key, later);
    if last.Some? {
      WrittenOutNeverOutlives(last.value, later, mode.optimisticTimeout);
      assert last.value.expireAt % SECOND == 0 ==> WrittenOut(last.value) == last.value;
    }
    hide Serve, AfterAll, LastStored, LastKept, WrittenOut;
  }
}
