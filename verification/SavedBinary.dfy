/**
 * The binary form of cached downloads: a version byte, then content, update time, etag and URL
 * hash, with base-128 varint lengths and a big-endian 64-bit time.
 */
module SavedBinary {
  type Byte = x: int | 0 <= x < 256
  type Bytes = seq<Byte>

  const SECOND := 1_000_000_000
  const TWO_63 := 0x8000_0000_0000_0000
  const TWO_64 := 0x1_0000_0000_0000_0000
  const VERSION: Byte := 2
  const MAX_VARINT := 10

  /** Times are nanoseconds since 1970. */
  datatype Saved = Saved(content: Bytes, lastUpdated: int, lastEtag: Bytes, urlHash: Bytes)

  /** Slices have an int length, and a time's Unix second is an int64. */
  ghost predicate Representable(s: Saved) {
    && |s.content| < TWO_63 && |s.lastEtag| < TWO_63 && |s.urlHash| < TWO_63
    && -TWO_63 <= s.lastUpdated / SECOND < TWO_63
  }

  datatype Read<T> = Got(value: T, next: nat) | Failed

  // ---- Varints ----

  function PutVarint(n: nat): (r: Bytes)
    ensures |r| > 0
  {
    if n < 128 then [n] else [128 + n % 128] + PutVarint(n / 128)
  }

  /** The varint at a position, when i of its bytes have been read. */
  function GetVarint(data: Bytes, pos: nat, i: nat): (r: Read<nat>)
    requires pos <= |data| && i <= MAX_VARINT
    ensures r.Got? ==> pos < r.next <= |data|
    decreases MAX_VARINT - i
  {
    if i == MAX_VARINT || pos == |data| then Failed
    else if data[pos] < 128 then
      if i == MAX_VARINT - 1 && data[pos] > 1 then Failed else Got(data[pos], pos + 1)
    else
      var rest := GetVarint(data, pos + 1, i + 1);
      if rest.Failed? then Failed else Got(data[pos] - 128 + 128 * rest.value, rest.next)
  }

  /** One more than the largest value a varint can still add when i bytes have been read. */
  function Room(i: nat): nat
    requires i < MAX_VARINT
    decreases MAX_VARINT - i
  {
    if i == MAX_VARINT - 1 then 2 else 128 * Room(i + 1)
  }

  lemma RoomIs64Bits()
    ensures Room(0) == TWO_64
  {
    assert Room(8) == 128 * Room(9);
    assert Room(7) == 128 * Room(8);
    assert Room(6) == 128 * Room(7);
    assert Room(5) == 128 * Room(6);
    assert Room(4) == 128 * Room(5);
    assert Room(3) == 128 * Room(4);
    assert Room(2) == 128 * Room(3);
    assert Room(1) == 128 * Room(2);
  }

  /** The decoder never needs more than 64 bits. */
  lemma {:induction false} VarintFits(data: Bytes, pos: nat, i: nat)
    requires pos <= |data| && i < MAX_VARINT
    ensures GetVarint(data, pos, i).Got? ==> GetVarint(data, pos, i).value < Room(i)
    decreases MAX_VARINT - i
  {
    if pos < |data| && data[pos] >= 128 && i + 1 < MAX_VARINT {
      VarintFits(data, pos + 1, i + 1);
    } else if i < MAX_VARINT - 1 {
      RoomIsLarge(i);
    }
  }

  lemma VarintIs64Bits(data: Bytes, pos: nat)
    requires pos <= |data|
    ensures GetVarint(data, pos, 0).Got? ==> GetVarint(data, pos, 0).value < TWO_64
  {
    VarintFits(data, pos, 0);
    RoomIs64Bits();
  }

  lemma {:induction false} RoomIsLarge(i: nat)
    requires i < MAX_VARINT - 1
    ensures Room(i) >= 256
    decreases MAX_VARINT - i
  {
    if i + 1 < MAX_VARINT - 1 {
      RoomIsLarge(i + 1);
    }
  }

  lemma {:induction false} VarintRoundTrip(before: Bytes, n: nat, after: Bytes, i: nat)
    requires i < MAX_VARINT && n < Room(i)
    ensures |before| <= |before + PutVarint(n) + after|
    ensures GetVarint(before + PutVarint(n) + after, |before|, i) == Got(n, |before| + |PutVarint(n)|)
    decreases n
  {
    var data := before + PutVarint(n) + after;
    if n >= 128 {
      var first: Bytes := [128 + n % 128];
      assert data == (before + first) + PutVarint(n / 128) + after;
      VarintRoundTrip(before + first, n / 128, after, i + 1);
    }
  }

  /** What was read does not depend on the bytes that follow. */
  lemma {:induction false} VarintExtends(data: Bytes, more: Bytes, pos: nat, i: nat)
    requires pos <= |data| && i <= MAX_VARINT && GetVarint(data, pos, i).Got?
    ensures GetVarint(data + more, pos, i) == GetVarint(data, pos, i)
    decreases MAX_VARINT - i
  {
    if data[pos] >= 128 {
      VarintExtends(data, more, pos + 1, i + 1);
    }
  }

  // ---- The time ----

  function Pow256(k: nat): nat {
    if k == 0 then 1 else 256 * Pow256(k - 1)
  }

  function PutBigEndian(n: nat, k: nat): (r: Bytes)
    ensures |r| == k
  {
    if k == 0 then [] else PutBigEndian(n / 256, k - 1) + [n % 256]
  }

  function GetBigEndian(b: Bytes): nat {
    if b == [] then 0 else 256 * GetBigEndian(b[..|b| - 1]) + b[|b| - 1]
  }

  lemma {:induction false} BigEndianRoundTrip(n: nat, k: nat)
    requires n < Pow256(k)
    ensures GetBigEndian(PutBigEndian(n, k)) == n
  {
    if k > 0 {
      BigEndianRoundTrip(n / 256, k - 1);
      assert PutBigEndian(n, k)[..k - 1] == PutBigEndian(n / 256, k - 1);
    }
  }

  lemma EightBytes()
    ensures Pow256(8) == TWO_64
  {
    assert Pow256(4) == 0x1_0000_0000;
    assert Pow256(8) == 256 * (256 * (256 * (256 * Pow256(4))));
  }

  function PutInt64(n: int): (r: Bytes)
    requires -TWO_63 <= n < TWO_63
    ensures |r| == 8
  {
    PutBigEndian(if n < 0 then n + TWO_64 else n, 8)
  }

  function GetInt64(b: Bytes): int {
    var n := GetBigEndian(b);
    if n >= TWO_63 then n - TWO_64 else n
  }

  lemma Int64RoundTrip(n: int)
    requires -TWO_63 <= n < TWO_63
    ensures GetInt64(PutInt64(n)) == n
  {
    EightBytes();
    BigEndianRoundTrip(if n < 0 then n + TWO_64 else n, 8);
  }

  // ---- Length-prefixed bytes ----

  function PutBlock(b: Bytes): Bytes {
    PutVarint(|b|) + b
  }

  function GetBlock(data: Bytes, pos: nat): (r: Read<Bytes>)
    requires pos <= |data|
    ensures r.Got? ==> pos < r.next <= |data| && r.next - |r.value| > pos && r.value == data[r.next - |r.value|..r.next]
  {
    var n := GetVarint(data, pos, 0);
    if n.Failed? || n.value > |data| - n.next then Failed
    else Got(data[n.next..n.next + n.value], n.next + n.value)
  }

  lemma BlockRoundTrip(before: Bytes, b: Bytes, after: Bytes)
    requires |b| < TWO_63
    ensures |before| <= |before + PutBlock(b) + after|
    ensures GetBlock(before + PutBlock(b) + after, |before|) == Got(b, |before| + |PutBlock(b)|)
  {
    hide GetVarint, PutVarint, Room;
    RoomIs64Bits();
    VarintRoundTrip(before, |b|, b + after, 0);
    var data := before + PutVarint(|b|) + (b + after);
    assert data == before + PutBlock(b) + after;
    var at := |before| + |PutVarint(|b|)|;
    assert data[at..at + |b|] == b;
  }

  lemma BlockExtends(data: Bytes, more: Bytes, pos: nat)
    requires pos <= |data| && GetBlock(data, pos).Got?
    ensures GetBlock(data + more, pos) == GetBlock(data, pos)
  {
    hide GetVarint;
    VarintExtends(data, more, pos, 0);
    var r := GetBlock(data, pos);
    assert (data + more)[r.next - |r.value|..r.next] == data[r.next - |r.value|..r.next];
  }

  function GetTime(data: Bytes, pos: nat): (r: Read<int>)
    requires pos <= |data|
    ensures r.Got? ==> r.next == pos + 8 <= |data|
  {
    if |data| - pos < 8 then Failed else Got(GetInt64(data[pos..pos + 8]) * SECOND, pos + 8)
  }

  // ---- The whole value ----

  function Encode(s: Saved): Bytes
    requires -TWO_63 <= s.lastUpdated / SECOND < TWO_63
  {
    [VERSION] + PutBlock(s.content) + PutInt64(s.lastUpdated / SECOND) + PutBlock(s.lastEtag) + PutBlock(s.urlHash)
  }

  /** What a decode leaves in the value it is called on: the fields read before a failure stay set. */
  datatype Decoded = Decoded(ok: bool, value: Saved, next: nat)

  function Decode(data: Bytes, into: Saved): (r: Decoded)
    ensures r.next <= |data|
  {
    if data == [] then Decoded(false, into, 0)
    else
      var content := GetBlock(data, 1);
      if content.Failed? then Decoded(false, into, 1)
      else
        var s := into.(content := content.value);
        var time := GetTime(data, content.next);
        if time.Failed? then Decoded(false, s, content.next)
        else
          var t := s.(lastUpdated := time.value);
          var etag := GetBlock(data, time.next);
          if etag.Failed? then Decoded(false, t, time.next)
          else
            var u := t.(lastEtag := etag.value);
            if data[0] < 2 then Decoded(true, u, etag.next)
            else
              var hash := GetBlock(data, etag.next);
              if hash.Failed? then Decoded(false, u, etag.next)
              else Decoded(true, u.(urlHash := hash.value), hash.next)
  }

  /** A time cut to the second, as the format keeps it. */
  function WholeSeconds(t: int): int {
    t / SECOND * SECOND
  }

  /** Decoding an encoded value gives it back, whatever the receiver held, and reads every byte. */
  lemma RoundTrip(s: Saved, into: Saved)
    requires Representable(s)
    ensures Decode(Encode(s), into) == Decoded(true, s.(lastUpdated := WholeSeconds(s.lastUpdated)), |Encode(s)|)
  {
    hide PutBlock, PutInt64, GetBlock, GetInt64;
    var head: Bytes := [VERSION];
    var content, etag, hash := PutBlock(s.content), PutBlock(s.lastEtag), PutBlock(s.urlHash);
    var time := PutInt64(s.lastUpdated / SECOND);
    var data := Encode(s);
    assert data == head + content + (time + etag + hash);
    BlockRoundTrip(head, s.content, time + etag + hash);
    Int64RoundTrip(s.lastUpdated / SECOND);
    var at := |head + content|;
    assert data[at..at + 8] == time;
    assert data == (head + content + time) + etag + hash;
    BlockRoundTrip(head + content + time, s.lastEtag, hash);
    assert data == (head + content + time + etag) + hash + [];
    BlockRoundTrip(head + content + time + etag, s.urlHash, []);
  }

  lemma DecodeExtends(data: Bytes, more: Bytes, into: Saved)
    requires Decode(data, into).ok
    ensures Decode(data + more, into) == Decode(data, into)
  {
    hide GetBlock, GetInt64;
    BlockExtends(data, more, 1);
    var content := GetBlock(data, 1);
    assert (data + more)[content.next..content.next + 8] == data[content.next..content.next + 8];
    var time := GetTime(data, content.next);
    BlockExtends(data, more, time.next);
    var etag := GetBlock(data, time.next);
    if data[0] >= 2 {
      BlockExtends(data, more, etag.next);
    }
  }

  /** On any bytes, what an accepted input yields lies inside it, field after field. */
  lemma DecodedFits(data: Bytes, into: Saved)
    requires Decode(data, into).ok
    ensures var r := Decode(data, into);
      && 11 + |r.value.content| + |r.value.lastEtag| <= r.next <= |data|
      && (data[0] < 2 ==> r.value.urlHash == into.urlHash)
      && (data[0] >= 2 ==>
            && r.next >= 12 + |r.value.content| + |r.value.lastEtag| + |r.value.urlHash|
            && r.value.urlHash == data[r.next - |r.value.urlHash|..r.next])
  {
    hide GetBlock, GetInt64;
  }

  /** No encoding cut short is taken for a value. */
  lemma TruncationIsRejected(s: Saved, n: nat, into: Saved)
    requires Representable(s) && n < |Encode(s)|
    ensures !Decode(Encode(s)[..n], into).ok
  {
    RoundTrip(s, into);
    hide Decode, Encode;
    var cut, more := Encode(s)[..n], Encode(s)[n..];
    assert cut + more == Encode(s);
    if Decode(cut, into).ok {
      DecodeExtends(cut, more, into);
    }
  }

  /** Two values with the same encoding differ at most below the second. */
  lemma EncodingIsInjective(s: Saved, t: Saved)
    requires Representable(s) && Representable(t) && Encode(s) == Encode(t)
    ensures s.(lastUpdated := WholeSeconds(s.lastUpdated)) == t.(lastUpdated := WholeSeconds(t.lastUpdated))
  {
    RoundTrip(s, s);
    RoundTrip(t, s);
  }

  // ---- The buffer and the reader of the source ----

  class Reader {
    const data: Bytes
    var pos: nat

    ghost predicate Valid()
      reads this
    {
      pos <= |data|
    }

    constructor (data: Bytes)
      ensures this.data == data && pos == 0
    {
      this.data := data;
      pos := 0;
    }

    /** Reads at most ten bytes and never past the end. */
    method ReadUvarint() returns (ok: bool, x: nat)
      requires Valid()
      modifies this
      ensures Valid()
      ensures ok == GetVarint(data, old(pos), 0).Got?
      ensures ok ==> Got(x, pos) == GetVarint(data, old(pos), 0) && x < TWO_64
    {
      ShiftedNone(GetVarint(data, pos, 0));
      hide Shifted, GetVarint, Add;
      x := 0;
      var scale := 1;
      var i := 0;
      while i < MAX_VARINT
        invariant 0 <= i <= MAX_VARINT && Valid() && pos >= old(pos) && scale > 0
        invariant GetVarint(data, old(pos), 0) == Shifted(x, scale, GetVarint(data, pos, i))
        decreases MAX_VARINT - i
      {
        ShiftedEnd(x, scale, data, pos, i);
        if pos == |data| {
          return false, 0;
        }
        var b: int := data[pos];
        pos := pos + 1;
        if b < 128 {
          if i == MAX_VARINT - 1 && b > 1 {
            return false, 0;
          }
          x := Add(x, scale, b);
          VarintIs64Bits(data, old(pos));
          return true, x;
        }
        ShiftedOnce(x, scale, data, pos - 1, i);
        x := Add(x, scale, b - 128);
        scale := scale * 128;
        i := i + 1;
      }
      ShiftedEnd(x, scale, data, pos, i);
      return false, 0;
    }

    /** A length and that many bytes; a length beyond what is left is refused. */
    method ReadBlock() returns (ok: bool, b: Bytes)
      requires Valid()
      modifies this
      ensures Valid()
      ensures ok == GetBlock(data, old(pos)).Got?
      ensures ok ==> Got(b, pos) == GetBlock(data, old(pos))
    {
      b := [];
      var n;
      ok, n := ReadUvarint();
      if !ok {
        return;
      }
      if n > |data| - pos {
        return false, [];
      }
      b := data[pos..pos + n];
      pos := pos + n;
    }

    method ReadTime() returns (ok: bool, t: int)
      requires Valid()
      modifies this
      ensures Valid()
      ensures ok == GetTime(data, old(pos)).Got?
      ensures ok ==> Got(t, pos) == GetTime(data, old(pos))
    {
      if |data| - pos < 8 {
        return false, 0;
      }
      var n := 0;
      var i := 0;
      while i < 8
        invariant 0 <= i <= 8 && pos == old(pos) && n == GetBigEndian(data[pos..pos + i])
      {
        assert data[pos..pos + i + 1] == data[pos..pos + i] + [data[pos + i]];
        n := 256 * n + data[pos + i];
        i := i + 1;
      }
      pos := pos + 8;
      return true, (if n >= TWO_63 then n - TWO_64 else n) * SECOND;
    }
  }

  /** The value x with b added at the given scale. */
  function Add(x: nat, scale: nat, b: nat): nat {
    x + scale * b
  }

  function Shifted(x: nat, scale: nat, r: Read<nat>): Read<nat> {
    if r.Failed? then Failed else Got(Add(x, scale, r.value), r.next)
  }

  lemma ShiftedNone(r: Read<nat>)
    ensures Shifted(0, 1, r) == r
  {
  }

  /** Where the loop stops: the bytes or the ten turns run out, or a byte without its high bit comes. */
  lemma ShiftedEnd(x: nat, scale: nat, data: Bytes, pos: nat, i: nat)
    requires pos <= |data| && i <= MAX_VARINT
    ensures pos == |data| || i == MAX_VARINT ==> Shifted(x, scale, GetVarint(data, pos, i)).Failed?
    ensures pos < |data| && i < MAX_VARINT && data[pos] < 128 ==>
      Shifted(x, scale, GetVarint(data, pos, i))
      == if i == MAX_VARINT - 1 && data[pos] > 1 then Failed else Got(Add(x, scale, data[pos]), pos + 1)
  {
  }

  /** A byte with its high bit set adds its seven bits and moves on. */
  lemma ShiftedOnce(x: nat, scale: nat, data: Bytes, pos: nat, i: nat)
    requires scale > 0 && pos < |data| && i < MAX_VARINT && data[pos] >= 128
    ensures Shifted(x, scale, GetVarint(data, pos, i))
         == Shifted(Add(x, scale, data[pos] - 128), scale * 128, GetVarint(data, pos + 1, i + 1))
  {
    var b: nat, r := data[pos] - 128, GetVarint(data, pos + 1, i + 1);
    if r.Got? {
      calc {
        x + scale * (b + 128 * r.value);
        x + scale * b + scale * (128 * r.value);
        x + scale * b + scale * 128 * r.value;
      }
    }
  }

  class SavedFile {
    var content: Bytes
    var lastUpdated: int
    var lastEtag: Bytes
    var urlHash: Bytes

    function Value(): Saved
      reads this
    {
      Saved(content, lastUpdated, lastEtag, urlHash)
    }

    method MarshalBinary() returns (buffer: Bytes)
      requires Representable(Value())
      ensures buffer == Encode(Value())
    {
      buffer := [VERSION];
      var length := WriteUvarint(|content|);
      buffer := buffer + length;
      buffer := buffer + content;
      buffer := buffer + PutInt64(lastUpdated / SECOND);
      length := WriteUvarint(|lastEtag|);
      buffer := buffer + length;
      buffer := buffer + lastEtag;
      length := WriteUvarint(|urlHash|);
      buffer := buffer + length;
      buffer := buffer + urlHash;
    }

    /** Decodes in place; a failure keeps the fields read so far. */
    method UnmarshalBinary(data: Bytes) returns (ok: bool)
      modifies this
      ensures ok == Decode(data, old(Value())).ok && Value() == Decode(data, old(Value())).value
    {
      hide GetBlock, GetInt64;
      var reader := new Reader(data);
      if reader.pos == |data| {
        return false;
      }
      var version := data[0];
      reader.pos := 1;
      var block;
      ok, block := reader.ReadBlock();
      if !ok {
        return;
      }
      content := block;
      var time;
      ok, time := reader.ReadTime();
      if !ok {
        return;
      }
      lastUpdated := time;
      ok, block := reader.ReadBlock();
      if !ok {
        return;
      }
      lastEtag := block;
      if version < 2 {
        return true;
      }
      ok, block := reader.ReadBlock();
      if !ok {
        return;
      }
      urlHash := block;
    }
  }

  /** The loop that emits seven bits at a time, lowest first. */
  method WriteUvarint(n: nat) returns (r: Bytes)
    ensures r == PutVarint(n)
  {
    r := [];
    var rest := n;
    while rest >= 128
      invariant PutVarint(n) == r + PutVarint(rest)
      decreases rest
    {
      r := r + [128 + rest % 128];
      rest := rest / 128;
    }
    r := r + [rest];
  }
}
