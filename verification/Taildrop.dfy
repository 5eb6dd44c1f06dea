/**
 * Files sent over one message stream: chunks of data and, after each file, a mark. A reader hands
 * the data out in whatever pieces its caller asks for and acknowledges what it has received.
 */
module Taildrop {
  import SavedBinary

  type Byte = SavedBinary.Byte
  type Bytes = SavedBinary.Bytes

  const ACK_INTERVAL := 0x10_0000

  datatype Message = Chunk(data: Bytes) | FileDone | Other

  // ---- What a stream says ----

  datatype Parsed = Whole(bytes: Bytes, next: nat) | Broken

  /** The file that starts at a position, when some of its bytes are known. */
  function Body(stream: seq<Message>, from: nat, known: Bytes): Parsed
    decreases |stream| - from
  {
    if from >= |stream| then Broken
    else match stream[from]
      case FileDone => Whole(known, from + 1)
      case Chunk(data) => Body(stream, from + 1, known + data)
      case Other => Broken
  }

  /** The first files of the stream from a position. */
  function Bodies(stream: seq<Message>, from: nat, count: nat): seq<Bytes>
    decreases count
  {
    if count == 0 then []
    else
      var first := Body(stream, from, []);
      if first.Broken? then [] else [first.bytes] + Bodies(stream, first.next, count - 1)
  }

  lemma {:induction false} BodyGrows(stream: seq<Message>, from: nat, known: Bytes)
    ensures var r := Body(stream, from, known); r.Whole? ==> known <= r.bytes && from < r.next <= |stream|
    decreases |stream| - from
  {
    if from < |stream| && stream[from].Chunk? {
      BodyGrows(stream, from + 1, known + stream[from].data);
    }
  }

  /** The data of the chunks from one position up to another. */
  function Data(stream: seq<Message>, from: nat, to: nat): Bytes
    requires from <= to <= |stream|
    decreases |stream| - from
  {
    if from == to then [] else (if stream[from].Chunk? then stream[from].data else []) + Data(stream, from + 1, to)
  }

  /**
   * A file is the chunks up to its mark and nothing else: its bytes are the data of every message
   * before the mark, all of them chunks.
   */
  lemma {:induction false} BodyIsItsChunks(stream: seq<Message>, from: nat, known: Bytes)
    ensures var r := Body(stream, from, known); r.Whole? ==>
      && from < r.next <= |stream| && stream[r.next - 1].FileDone?
      && (forall i | from <= i < r.next - 1 :: stream[i].Chunk?)
      && r.bytes == known + Data(stream, from, r.next - 1)
    ensures Body(stream, from, known).Broken? ==>
      forall j | from <= j < |stream| && stream[j].FileDone? :: exists i :: from <= i < j && !stream[i].Chunk?
    decreases |stream| - from
  {
    if from < |stream| {
      match stream[from]
      case FileDone =>
      case Other =>
        assert !stream[from].Chunk?;
      case Chunk(data) =>
        var r := Body(stream, from, known);
        BodyIsItsChunks(stream, from + 1, known + data);
        if r.Whole? {
          assert known + data + Data(stream, from + 1, r.next - 1) ==
            known + (data + Data(stream, from + 1, r.next - 1));
        } else {
          forall j | from <= j < |stream| && stream[j].FileDone?
            ensures exists i :: from <= i < j && !stream[i].Chunk?
          {
            var i :| from + 1 <= i < j && !stream[i].Chunk?;
          }
        }
    }
  }

  // ---- The reader ----

  datatype ReadResult = Count(n: nat) | Eof | ReadError

  ghost predicate Increasing(acks: seq<int>, last: int) {
    && (forall i, j | 0 <= i < j < |acks| :: acks[i] < acks[j])
    && (if acks == [] then last == 0 else acks[|acks| - 1] == last > 0)
  }

  class ChunkReader {
    const stream: seq<Message>
    const reports: bool
    var pos: nat                 // messages received
    var buffer: Bytes
    var fileDone: bool
    var fileReceived: int
    var received: int
    var acknowledged: int
    var acks: seq<int>           // what was reported, in order
    ghost var start: nat         // where the current file begins
    ghost var handedOut: Bytes   // what the current file's reads returned

    /** The rest of the file is still in the buffer and the stream. */
    ghost predicate OnTrack()
      reads this
    {
      && start <= pos <= |stream|
      && fileReceived == |handedOut|
      && (fileDone ==> buffer == [])
      && Body(stream, start, []) == if fileDone then Whole(handedOut, pos) else Body(stream, pos, handedOut + buffer)
    }

    ghost predicate Acknowledging()
      reads this
    {
      && 0 <= acknowledged <= received
      && (if reports then received - acknowledged < ACK_INTERVAL else acks == [])
      && Increasing(acks, acknowledged)
    }

    constructor (stream: seq<Message>, reports: bool)
      ensures this.stream == stream && this.reports == reports
      ensures pos == 0 && buffer == [] && Acknowledging() && received == 0
    {
      this.stream, this.reports := stream, reports;
      pos, buffer, fileDone, fileReceived, received, acknowledged, acks := 0, [], false, 0, 0, 0, [];
      start, handedOut := 0, [];
    }

    /** The next file starts where the stream stands; nothing of the last one may be left. */
    method BeginFile()
      requires pos <= |stream| && buffer == [] && Acknowledging()
      modifies this`fileDone, this`fileReceived, this`start, this`handedOut
      ensures OnTrack() && Acknowledging() && start == pos && handedOut == []
    {
      fileDone := false;
      fileReceived := 0;
      start, handedOut := pos, [];
      assert handedOut + buffer == [];
    }

    /** Receives messages until the buffer has data or the file is done. */
    method Fill() returns (r: ReadResult)
      requires OnTrack() && Acknowledging()
      modifies this`pos, this`buffer, this`fileDone
      ensures pos <= |stream|
      ensures !r.ReadError? ==> OnTrack() && (r.Eof? <==> buffer == []) && (r.Eof? ==> fileDone)
      ensures r.ReadError? ==> Body(stream, start, []).Broken?
    {
      while |buffer| == 0
        invariant OnTrack()
        decreases |stream| - pos, fileDone
      {
        if fileDone {
          return Eof;
        }
        if pos == |stream| {
          return ReadError;
        }
        var message := stream[pos];
        pos := pos + 1;
        assert handedOut + [] == handedOut;
        match message {
          case Chunk(data) => buffer := data;
          case FileDone => fileDone := true;
          case Other => return ReadError;
        }
      }
      return Count(0);
    }

    /** Copies what fits into the destination; a read error means the file in the stream is broken. */
    method Read(destination: array<Byte>) returns (r: ReadResult)
      requires OnTrack() && Acknowledging()
      modifies this, destination
      ensures start == old(start) && Acknowledging()
      ensures !r.ReadError? ==> OnTrack()
      ensures r.ReadError? ==> Body(stream, start, []).Broken?
      ensures r.Eof? ==> fileDone && handedOut == old(handedOut)
      ensures r.Count? ==>
        && r.n <= destination.Length && (r.n > 0 <==> destination.Length > 0)
        && handedOut == old(handedOut) + destination[..r.n]
        && received == old(received) + r.n
    {
      r := Fill();
      if !r.Count? {
        return;
      }
      var n := if |buffer| < destination.Length then |buffer| else destination.Length;
      CopyTo(destination, buffer, n);
      assert buffer == buffer[..n] + buffer[n..];
      assert handedOut + buffer[..n] + buffer[n..] == handedOut + buffer;
      handedOut := handedOut + buffer[..n];
      buffer := buffer[n..];
      fileReceived := fileReceived + n;
      Receive(n);
      return Count(n);
    }

    /** Counts received bytes and reports them once an interval has gone by without a report. */
    method Receive(n: nat)
      requires Acknowledging()
      modifies this`received, this`acknowledged, this`acks
      ensures Acknowledging() && received == old(received) + n
    {
      received := received + n;
      if reports && received - acknowledged >= ACK_INTERVAL {
        acknowledged := received;
        acks := acks + [received];
      }
    }

    /**
     * Succeeds exactly when the reads returned the whole file, and the file has the declared size
     * if one was declared; then the stream stands behind the file's mark with nothing left over.
     */
    method FinishFile(declaredSize: int) returns (ok: bool)
      requires OnTrack() && Acknowledging()
      modifies this`pos, this`buffer, this`fileDone
      ensures ok <==>
        && Body(stream, start, []).Whole? && Body(stream, start, []).bytes == handedOut
        && (declaredSize >= 0 ==> |handedOut| == declaredSize)
      ensures ok ==> buffer == [] && pos == Body(stream, start, []).next && pos <= |stream|
    {
      while !fileDone
        invariant OnTrack()
        decreases |stream| - pos, !fileDone
      {
        BodyGrows(stream, pos, handedOut + buffer);
        if |buffer| > 0 {
          return false;
        }
        if pos == |stream| {
          return false;
        }
        var message := stream[pos];
        pos := pos + 1;
        assert handedOut + [] == handedOut;
        match message {
          case Chunk(data) => buffer := data;
          case FileDone => fileDone := true;
          case Other => return false;
        }
      }
      ok := declaredSize < 0 || fileReceived == declaredSize;
    }
  }

  method CopyTo(destination: array<Byte>, source: Bytes, n: nat)
    requires n <= destination.Length && n <= |source|
    modifies destination
    ensures destination[..n] == source[..n]
    ensures forall i | n <= i < destination.Length :: destination[i] == old(destination[i])
  {
    for i := 0 to n
      invariant destination[..i] == source[..i]
      invariant forall k | n <= k < destination.Length :: destination[k] == old(destination[k])
    {
      destination[i] := source[i];
    }
  }

  // ---- Sending files ----

  /** A consumer that reads with buffers of the given sizes and may stop at any read. */
  method Consume(reader: ChunkReader, sizes: seq<nat>) returns (ok: bool, content: Bytes)
    requires reader.OnTrack() && reader.Acknowledging() && reader.handedOut == []
    modifies reader
    ensures reader.start == old(reader.start) && reader.Acknowledging()
    ensures ok ==> reader.OnTrack() && content == reader.handedOut
    ensures !ok ==> Body(reader.stream, reader.start, []).Broken?
  {
    content := [];
    for k := 0 to |sizes|
      invariant reader.OnTrack() && reader.Acknowledging() && reader.start == old(reader.start)
      invariant content == reader.handedOut
    {
      var destination := new Byte[sizes[k]](_ => 0);
      var r := reader.Read(destination);
      if r.ReadError? {
        return false, [];
      }
      if r.Eof? {
        return true, content;
      }
      content := content + destination[..r.n];
    }
    return true, content;
  }

  ghost predicate SizesFit(contents: seq<Bytes>, declared: seq<int>)
    requires |contents| <= |declared|
  {
    forall i | 0 <= i < |contents| :: declared[i] >= 0 ==> |contents[i]| == declared[i]
  }

  /**
   * Over any stream and any read sizes: when every file was finished, each file's bytes are those
   * between its marks and have the declared size, and the stream stands behind the last mark.
   */
  method SendFiles(stream: seq<Message>, declared: seq<int>, plan: seq<seq<nat>>)
    returns (ok: bool, contents: seq<Bytes>, acks: seq<int>)
    requires |plan| == |declared|
    ensures ok ==> declared != [] && |contents| == |declared|
    ensures ok ==> contents == Bodies(stream, 0, |declared|) && SizesFit(contents, declared)
    ensures forall i, j | 0 <= i < j < |acks| :: acks[i] < acks[j]
  {
    if declared == [] {
      return false, [], [];
    }
    var reader := new ChunkReader(stream, true);
    contents := [];
    for index := 0 to |declared|
      invariant reader.stream == stream && reader.Acknowledging() && reader.buffer == [] && reader.pos <= |stream|
      invariant fresh(reader) && |contents| == index && SizesFit(contents, declared)
      invariant Bodies(stream, 0, |declared|) == contents + Bodies(stream, reader.pos, |declared| - index)
    {
      reader.BeginFile();
      var read, content := Consume(reader, plan[index]);
      if !read {
        return false, contents, reader.acks;
      }
      var finished := reader.FinishFile(declared[index]);
      if !finished {
        return false, contents, reader.acks;
      }
      ghost var rest := Bodies(stream, reader.pos, |declared| - index - 1);
      assert contents + ([content] + rest) == (contents + [content]) + rest;
      contents := contents + [content];
    }
    assert contents + [] == contents;
    return true, contents, reader.acks;
  }
}
