/** Messages of the ordered, reliable data channel, and how strings and file
    contents are cut into them and put back together. */
module Framing {
  import opened Options

  newtype Byte = x: int | 0 <= x < 0x100
  type Bytes = seq<Byte>

  /** A data-channel message: `is_string` is the constructor. */
  datatype Message = Text(data: Bytes) | Binary(data: Bytes)

  const CHUNK_SIZE: nat := 16 * 1024

  /** The non-empty text "0" that ends a chunked string. */
  const DELIMITER: Message := Text([0x30])

  predicate IsDelimiter(msg: Message) {
    msg.Text? && |msg.data| <= 1
  }

  /** The sending half of a channel. `capacity` is how many more sends succeed
      before the link breaks. */
  class DataChannel {
    var sent: seq<Message>
    var capacity: nat

    constructor (capacity: nat)
      ensures sent == [] && this.capacity == capacity
    {
      this.sent, this.capacity := [], capacity;
    }

    method Send(msg: Message) returns (ok: bool)
      modifies this
      ensures ok == (old(capacity) > 0)
      ensures sent == if ok then old(sent) + [msg] else old(sent)
      ensures capacity == if ok then old(capacity) - 1 else 0
    {
      ok := capacity > 0;
      if ok {
        sent, capacity := sent + [msg], capacity - 1;
      }
    }
  }

  /** The receiving half: everything that will still arrive, in order. The end
      of `pending` is the closing of the channel. */
  class Inbox {
    var pending: seq<Message>

    constructor (pending: seq<Message>)
      ensures this.pending == pending
    {
      this.pending := pending;
    }

    method Recv() returns (msg: Option<Message>)
      modifies this
      ensures old(pending) == [] ==> msg.None? && pending == []
      ensures old(pending) != [] ==> msg == Some(old(pending)[0]) && pending == old(pending)[1..]
    {
      if pending == [] {
        return None;
      }
      msg, pending := Some(pending[0]), pending[1..];
    }
  }

  function Concat(pieces: seq<Bytes>): Bytes {
    if pieces == [] then [] else pieces[0] + Concat(pieces[1..])
  }

  /** The canonical split: full blocks, then one non-empty remainder. */
  function Chunks(data: Bytes): seq<Bytes> {
    if |data| >= CHUNK_SIZE then [data[..CHUNK_SIZE]] + Chunks(data[CHUNK_SIZE..])
    else if data == [] then []
    else [data]
  }

  function AsBinary(chunks: seq<Bytes>): (r: seq<Message>)
    ensures |r| == |chunks|
    ensures forall i :: 0 <= i < |r| ==> r[i] == Binary(chunks[i])
  {
    seq(|chunks|, i requires 0 <= i < |chunks| => Binary(chunks[i]))
  }

  /** A string as it travels: its chunks, then the delimiter. */
  function Frame(data: Bytes): seq<Message> {
    AsBinary(Chunks(data)) + [DELIMITER]
  }

  predicate IsCanonicalSplit(chunks: seq<Bytes>) {
    && (forall i :: 0 <= i < |chunks| - 1 ==> |chunks[i]| == CHUNK_SIZE)
    && (chunks != [] ==> 0 < |chunks[|chunks| - 1]| <= CHUNK_SIZE)
  }

  lemma {:induction false} ChunksAreCanonical(data: Bytes)
    ensures IsCanonicalSplit(Chunks(data)) && Concat(Chunks(data)) == data
  {
    if |data| >= CHUNK_SIZE {
      var rest := data[CHUNK_SIZE..];
      ChunksAreCanonical(rest);
      assert Chunks(data)[1..] == Chunks(rest);
      assert data == data[..CHUNK_SIZE] + rest;
    } else if data != [] {
      assert [data][1..] == [];
      assert Concat([data]) == data + Concat([]);
    }
  }

  /** A framed string is blocks of 16 KiB, at most one shorter and not empty
      one, and the text "0". */
  lemma {:induction false} FrameShape(data: Bytes, i: nat)
    requires i < |Frame(data)|
    ensures var frame, n := Frame(data), |Frame(data)| - 1;
            if i == n then frame[i] == Text([48])
            else frame[i].Binary? && if i < n - 1 then |frame[i].data| == 16384 else 0 < |frame[i].data| <= 16384
    ensures |Frame(data)| == (|data| + 16383) / 16384 + 1
  {
    ChunksAreCanonical(data);
    BlocksCounted(data);
  }

  lemma {:induction false} BlocksCounted(data: Bytes)
    ensures |Chunks(data)| == (|data| + 16383) / 16384
  {
    if |data| >= CHUNK_SIZE {
      BlocksCounted(data[CHUNK_SIZE..]);
    }
  }

  /** Blocks, then a remainder, and the data determine the split. */
  lemma {:induction false} CanonicalSplitIsUnique(chunks: seq<Bytes>)
    requires IsCanonicalSplit(chunks)
    ensures chunks == Chunks(Concat(chunks))
  {
    if chunks == [] {
    } else if |chunks| == 1 {
      assert chunks[1..] == [];
      assert Concat(chunks) == chunks[0];
      var data := chunks[0];
      if |data| == CHUNK_SIZE {
        assert data[..CHUNK_SIZE] == data && data[CHUNK_SIZE..] == [];
      }
    } else {
      var rest := chunks[1..];
      assert rest[|rest| - 1] == chunks[|chunks| - 1];
      CanonicalSplitIsUnique(rest);
      var data := Concat(chunks);
      assert data == chunks[0] + Concat(rest);
      assert data[..CHUNK_SIZE] == chunks[0] && data[CHUNK_SIZE..] == Concat(rest);
    }
  }

  lemma {:induction false} ChunksOfLong(head: Bytes, rest: Bytes)
    requires |head| >= CHUNK_SIZE
    ensures Chunks(head + rest) == [head[..CHUNK_SIZE]] + Chunks(head[CHUNK_SIZE..] + rest)
  {
    assert (head + rest)[..CHUNK_SIZE] == head[..CHUNK_SIZE];
    assert (head + rest)[CHUNK_SIZE..] == head[CHUNK_SIZE..] + rest;
  }

  function Min(a: nat, b: nat): nat {
    if a < b then a else b
  }

  /** What is on the channel once the first `k` of `chunks` were sent on it. */
  ghost predicate SentFirst(sent: seq<Message>, before: seq<Message>, chunks: seq<Bytes>, k: nat) {
    k <= |chunks| && sent == before + AsBinary(chunks[..k])
  }

  lemma {:induction false} SentOneMore(sent: seq<Message>, before: seq<Message>, chunks: seq<Bytes>, k: nat)
    requires SentFirst(sent, before, chunks, k) && k < |chunks|
    ensures SentFirst(sent + [Binary(chunks[k])], before, chunks, k + 1)
  {
    assert chunks[..k + 1] == chunks[..k] + [chunks[k]];
    assert AsBinary(chunks[..k + 1]) == AsBinary(chunks[..k]) + [Binary(chunks[k])];
  }

  /** The next chunk to go out once the buffer is long enough. */
  lemma {:induction false} NextChunk(all: seq<Bytes>, k: nat, buffer: Bytes, rest: Bytes)
    requires k <= |all| && all[k..] == Chunks(buffer + rest) && |buffer| >= CHUNK_SIZE
    ensures k < |all| && all[k] == buffer[..CHUNK_SIZE]
    ensures all[k + 1..] == Chunks(buffer[CHUNK_SIZE..] + rest)
  {
    ChunksOfLong(buffer, rest);
    assert all[k] == all[k..][0];
    assert all[k + 1..] == all[k..][1..];
  }

  lemma {:induction false} ConcatNext(buffer: Bytes, pieces: seq<Bytes>)
    requires pieces != []
    ensures buffer + Concat(pieces) == (buffer + pieces[0]) + Concat(pieces[1..])
  {
  }

  /** Sends the pieces a file task hands over as blocks of CHUNK_SIZE. Whatever
      the piece boundaries, the canonical split of the whole content goes out,
      or as many of its chunks as the link carried. */
  method ProcessInChunks(channel: DataChannel, pieces: seq<Bytes>) returns (ok: bool)
    modifies channel
    ensures var chunks := Chunks(Concat(pieces));
            var n := Min(old(channel.capacity), |chunks|);
            && ok == (|chunks| <= old(channel.capacity))
            && SentFirst(channel.sent, old(channel.sent), chunks, n)
            && channel.capacity == old(channel.capacity) - n
  {
    ghost var before, all, k := channel.sent, Chunks(Concat(pieces)), 0;
    var buffer: Bytes, i := [], 0;
    assert pieces[0..] == pieces && buffer + Concat(pieces) == Concat(pieces) && all[0..] == all;
    while i < |pieces|
      invariant 0 <= i <= |pieces| && |buffer| < CHUNK_SIZE
      invariant SentFirst(channel.sent, before, all, k) && all[k..] == Chunks(buffer + Concat(pieces[i..]))
      invariant channel.capacity == old(channel.capacity) - k
    {
      ghost var rest := Concat(pieces[i + 1..]);
      ConcatNext(buffer, pieces[i..]);
      assert pieces[i..][1..] == pieces[i + 1..];
      buffer, i := buffer + pieces[i], i + 1;
      while |buffer| >= CHUNK_SIZE
        invariant SentFirst(channel.sent, before, all, k) && all[k..] == Chunks(buffer + rest)
        invariant channel.capacity == old(channel.capacity) - k
        decreases |buffer|
      {
        NextChunk(all, k, buffer, rest);
        SentOneMore(channel.sent, before, all, k);
        var chunk := buffer[..CHUNK_SIZE];
        buffer := buffer[CHUNK_SIZE..];
        var sent := channel.Send(Binary(chunk));
        if !sent {
          return false;
        }
        k := k + 1;
      }
    }
    assert pieces[i..] == [] && buffer + [] == buffer;
    if buffer != [] {
      assert all[k..][0] == all[k] && |all| == k + 1;
      SentOneMore(channel.sent, before, all, k);
      ok := channel.Send(Binary(buffer));
    } else {
      assert |all| == k;
      ok := true;
    }
  }

  /** A string in chunks, then the delimiter; every caller sends the two together. */
  method SendString(channel: DataChannel, data: Bytes) returns (ok: bool)
    modifies channel
    ensures ok == (|Frame(data)| <= old(channel.capacity))
    ensures ok ==> channel.sent == old(channel.sent) + Frame(data)
                   && channel.capacity == old(channel.capacity) - |Frame(data)|
  {
    assert Concat([data]) == data + Concat([data][1..]) == data;
    ok := ProcessInChunks(channel, [data]);
    assert Chunks(data)[..|Chunks(data)|] == Chunks(data);
    if ok {
      ok := channel.Send(DELIMITER);
    }
  }

  /** The string up to the next text message, which is consumed with it. */
  function ReadString(msgs: seq<Message>): (r: (Bytes, seq<Message>))
    ensures |r.1| <= |msgs|
  {
    if msgs == [] then ([], [])
    else if msgs[0].Text? then ([], msgs[1..])
    else
      var (tail, rest) := ReadString(msgs[1..]);
      (msgs[0].data + tail, rest)
  }

  method ReceiveStringFromChunks(inbox: Inbox) returns (bytes: Bytes)
    modifies inbox
    ensures (bytes, inbox.pending) == ReadString(old(inbox.pending))
  {
    var buffer: Bytes := [];
    ghost var start := inbox.pending;
    assert [] + ReadString(start).0 == ReadString(start).0;
    while true
      invariant ReadString(start) == (buffer + ReadString(inbox.pending).0, ReadString(inbox.pending).1)
      decreases |inbox.pending|
    {
      ghost var before := inbox.pending;
      var msg := inbox.Recv();
      if msg.None? || msg.value.Text? {
        assert buffer + [] == buffer;
        break;
      }
      assert buffer + ReadString(before).0 == buffer + msg.value.data + ReadString(inbox.pending).0;
      buffer := buffer + msg.value.data;
    }
    return buffer;
  }

  lemma {:induction false} ReadStringOfBinary(chunks: seq<Bytes>, rest: seq<Message>)
    ensures ReadString(AsBinary(chunks) + [DELIMITER] + rest) == (Concat(chunks), rest)
  {
    var msgs := AsBinary(chunks) + [DELIMITER] + rest;
    if chunks == [] {
      assert msgs[1..] == rest;
    } else {
      assert msgs[1..] == AsBinary(chunks[1..]) + [DELIMITER] + rest;
      ReadStringOfBinary(chunks[1..], rest);
    }
  }

  function FrameAll(strings: seq<Bytes>): seq<Message> {
    if strings == [] then [] else Frame(strings[0]) + FrameAll(strings[1..])
  }

  function ReadStrings(n: nat, msgs: seq<Message>): (seq<Bytes>, seq<Message>) {
    if n == 0 then ([], msgs)
    else
      var (first, rest) := ReadString(msgs);
      var (others, tail) := ReadStrings(n - 1, rest);
      ([first] + others, tail)
  }

  /** Strings sent back to back come back in order, and what follows them is untouched. */
  lemma {:induction false} FramingRoundTrip(strings: seq<Bytes>, rest: seq<Message>)
    ensures ReadStrings(|strings|, FrameAll(strings) + rest) == (strings, rest)
  {
    if strings == [] {
      assert FrameAll(strings) + rest == rest;
    } else {
      var tail := FrameAll(strings[1..]) + rest;
      assert FrameAll(strings) + rest == AsBinary(Chunks(strings[0])) + [DELIMITER] + tail;
      ChunksAreCanonical(strings[0]);
      ReadStringOfBinary(Chunks(strings[0]), tail);
      FramingRoundTrip(strings[1..], rest);
      assert strings == [strings[0]] + strings[1..];
    }
  }
}
