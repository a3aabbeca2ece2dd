/** What the send loop puts on the channel, and what the receive loop makes of it. */
module FileRoundTrip {
  import opened Options
  import opened Framing
  import opened Wire
  import opened FileStream
  import opened Seqs

  /** A file handed to the send loop, its content in pieces of any size. */
  datatype Outgoing = Outgoing(fileId: string, pieces: seq<Bytes>)

  function EmitFile(codec: Codec, tokens: map<string, string>, file: Outgoing): seq<Message> {
    if file.fileId !in tokens then []
    else [TextOf(codec, FileHeader(file.fileId, tokens[file.fileId]))] + AsBinary(Chunks(Concat(file.pieces)))
  }

  function Emit(codec: Codec, tokens: map<string, string>, files: seq<Outgoing>): seq<Message> {
    if files == [] then [DELIMITER]
    else EmitFile(codec, tokens, files[0]) + Emit(codec, tokens, files[1..])
  }

  function Selected(tokens: map<string, string>, files: seq<Outgoing>): seq<Outgoing> {
    if files == [] then []
    else (if files[0].fileId in tokens then [files[0]] else []) + Selected(tokens, files[1..])
  }

  function UnselectedOf(tokens: map<string, string>, file: Outgoing): seq<string> {
    if file.fileId in tokens then [] else [file.fileId]
  }

  function Unselected(tokens: map<string, string>, files: seq<Outgoing>): seq<string> {
    if files == [] then []
    else UnselectedOf(tokens, files[0]) + Unselected(tokens, files[1..])
  }

  // ----- The send loop -----

  /** A file is reported if it is not selected, or if a message of it does not
      get through a link that carries `room` more. */
  function UnsentOf(codec: Codec, tokens: map<string, string>, file: Outgoing, room: nat): seq<string> {
    if file.fileId !in tokens || |EmitFile(codec, tokens, file)| > room then [file.fileId] else []
  }

  function RoomAfter(codec: Codec, tokens: map<string, string>, file: Outgoing, room: nat): nat {
    room - Min(room, |EmitFile(codec, tokens, file)|)
  }

  function Unsent(codec: Codec, tokens: map<string, string>, files: seq<Outgoing>, room: nat): seq<string> {
    if files == [] then []
    else
      UnsentOf(codec, tokens, files[0], room)
      + Unsent(codec, tokens, files[1..], RoomAfter(codec, tokens, files[0], room))
  }

  lemma {:induction false} UnsentIsUnselected(codec: Codec, tokens: map<string, string>, files: seq<Outgoing>,
                                              room: nat)
    requires |Emit(codec, tokens, files)| <= room
    ensures Unsent(codec, tokens, files, room) == Unselected(tokens, files)
  {
    if files != [] {
      EmitLength(codec, tokens, files);
      WholeFile(codec, tokens, files[0], room);
      UnsentIsUnselected(codec, tokens, files[1..], RoomAfter(codec, tokens, files[0], room));
    }
  }

  lemma {:induction false} WholeFile(codec: Codec, tokens: map<string, string>, file: Outgoing, room: nat)
    requires |EmitFile(codec, tokens, file)| <= room
    ensures UnsentOf(codec, tokens, file, room) == UnselectedOf(tokens, file)
    ensures RoomAfter(codec, tokens, file, room) == room - |EmitFile(codec, tokens, file)|
  {
  }

  lemma {:induction false} EmitLength(codec: Codec, tokens: map<string, string>, files: seq<Outgoing>)
    requires files != []
    ensures |Emit(codec, tokens, files)| == |EmitFile(codec, tokens, files[0])| + |Emit(codec, tokens, files[1..])|
  {
  }

  /** Of the messages `out` offered to a link, as many got through as it could carry. */
  ghost predicate Carried(sent: seq<Message>, capacity: nat, before: seq<Message>, room: nat, out: seq<Message>) {
    && sent == before + out[..Min(room, |out|)]
    && capacity == room - Min(room, |out|)
  }

  lemma {:induction false} CarriedMore(sent: seq<Message>, capacity: nat, sent': seq<Message>, capacity': nat,
                    before: seq<Message>, room: nat, out: seq<Message>, more: seq<Message>)
    requires Carried(sent, capacity, before, room, out) && Carried(sent', capacity', sent, capacity, more)
    ensures Carried(sent', capacity', before, room, out + more)
  {
    var n := Min(room, |out|);
    if |out| <= room {
      assert (out + more)[..Min(room, |out + more|)] == out + more[..Min(capacity, |more|)];
    } else {
      assert (out + more)[..room] == out[..room];
      assert more[..0] == [];
    }
  }

  lemma {:induction false} ChunksCarried(sent: seq<Message>, capacity: nat, before: seq<Message>, room: nat,
                                         chunks: seq<Bytes>)
    requires SentFirst(sent, before, chunks, Min(room, |chunks|)) && capacity == room - Min(room, |chunks|)
    ensures Carried(sent, capacity, before, room, AsBinary(chunks))
  {
    var n := Min(room, |chunks|);
    assert AsBinary(chunks[..n]) == AsBinary(chunks)[..n];
  }

  /** Header and content of one file; `ok` is whether all of it got through. */
  method SendFile(channel: DataChannel, codec: Codec, token: string, file: Outgoing) returns (ok: bool)
    modifies channel
    ensures var out := EmitFile(codec, map[file.fileId := token], file);
            && Carried(channel.sent, channel.capacity, old(channel.sent), old(channel.capacity), out)
            && ok == (|out| <= old(channel.capacity))
  {
    ghost var before, room := channel.sent, channel.capacity;
    var header := TextOf(codec, FileHeader(file.fileId, token));
    ghost var content := AsBinary(Chunks(Concat(file.pieces)));
    ok := channel.Send(header);
    assert [header][..0] == [] && [header][..1] == [header];
    ghost var sent, capacity := channel.sent, channel.capacity;
    assert Carried(sent, capacity, before, room, [header]);
    if ok {
      ok := ProcessInChunks(channel, file.pieces);
      ChunksCarried(channel.sent, channel.capacity, sent, capacity, Chunks(Concat(file.pieces)));
    } else {
      assert Carried(sent, capacity, sent, capacity, content);
    }
    CarriedMore(sent, capacity, channel.sent, channel.capacity, before, room, [header], content);
  }

  /** One turn of the loop: the file goes out if the receiver selected it, and
      is reported otherwise or when the link gave way. */
  method SendIfSelected(channel: DataChannel, codec: Codec, tokens: map<string, string>, file: Outgoing)
    returns (error: seq<string>)
    modifies channel
    ensures var out := EmitFile(codec, tokens, file);
            && Carried(channel.sent, channel.capacity, old(channel.sent), old(channel.capacity), out)
            && error == UnsentOf(codec, tokens, file, old(channel.capacity))
  {
    if file.fileId !in tokens {
      return [file.fileId];
    }
    var ok := SendFile(channel, codec, tokens[file.fileId], file);
    return if ok then [] else [file.fileId];
  }

  /** The send loop. On a link that breaks, what went out is still a prefix of
      the stream, and exactly the files cut off are reported besides those that
      were not selected; on one that holds, it is the stream. */
  method SendFiles(channel: DataChannel, codec: Codec, tokens: map<string, string>, files: seq<Outgoing>)
    returns (ok: bool, errors: seq<string>)
    modifies channel
    ensures var stream := Emit(codec, tokens, files);
            && Carried(channel.sent, channel.capacity, old(channel.sent), old(channel.capacity), stream)
            && ok == (|stream| <= old(channel.capacity))
            && errors == Unsent(codec, tokens, files, old(channel.capacity))
            && (ok ==> errors == Unselected(tokens, files))
  {
    ghost var before, room, out: seq<Message> := channel.sent, channel.capacity, [];
    errors := [];
    var i := 0;
    SendingStarts(codec, tokens, files, before, room);
    while i < |files|
      invariant 0 <= i <= |files|
      invariant Sending(codec, tokens, files, i, out, errors, before, room, channel.sent, channel.capacity)
    {
      ghost var sent, capacity := channel.sent, channel.capacity;
      var error := SendIfSelected(channel, codec, tokens, files[i]);
      SendingNext(codec, tokens, files, i, out, errors, before, room, sent, capacity, channel.sent, channel.capacity);
      out := out + EmitFile(codec, tokens, files[i]);
      errors := errors + error;
      i := i + 1;
    }
    SendingEnds(codec, tokens, files, out, errors, before, room, channel.sent, channel.capacity);
    ok := SendEnd(channel, before, room, out);
    if ok {
      UnsentIsUnselected(codec, tokens, files, room);
    }
  }

  /** The send loop after `i` files, which came to the messages `out`. */
  ghost predicate Sending(codec: Codec, tokens: map<string, string>, files: seq<Outgoing>, i: nat, out: seq<Message>,
                          errors: seq<string>, before: seq<Message>, room: nat, sent: seq<Message>, capacity: nat) {
    && i <= |files|
    && Emit(codec, tokens, files) == out + Emit(codec, tokens, files[i..])
    && Carried(sent, capacity, before, room, out)
    && Unsent(codec, tokens, files, room) == errors + Unsent(codec, tokens, files[i..], capacity)
  }

  lemma {:induction false} SendingStarts(codec: Codec, tokens: map<string, string>, files: seq<Outgoing>,
                                         sent: seq<Message>, room: nat)
    ensures Sending(codec, tokens, files, 0, [], [], sent, room, sent, room)
  {
    assert files[0..] == files;
    var none: seq<Message> := [];
    assert none[..0] == [] && sent + [] == sent;
  }

  lemma {:induction false} SendingNext(codec: Codec, tokens: map<string, string>, files: seq<Outgoing>, i: nat,
                                       out: seq<Message>,
                    errors: seq<string>, before: seq<Message>, room: nat, sent: seq<Message>, capacity: nat,
                    sent': seq<Message>, capacity': nat)
    requires i < |files| && Sending(codec, tokens, files, i, out, errors, before, room, sent, capacity)
    requires Carried(sent', capacity', sent, capacity, EmitFile(codec, tokens, files[i]))
    ensures Sending(codec, tokens, files, i + 1, out + EmitFile(codec, tokens, files[i]),
                    errors + UnsentOf(codec, tokens, files[i], capacity), before, room, sent', capacity')
  {
    NextFile(codec, tokens, files, i, out, errors, capacity);
    CarriedMore(sent, capacity, sent', capacity', before, room, out, EmitFile(codec, tokens, files[i]));
  }

  lemma {:induction false} SendingEnds(codec: Codec, tokens: map<string, string>, files: seq<Outgoing>,
                                       out: seq<Message>,
                    errors: seq<string>, before: seq<Message>, room: nat, sent: seq<Message>, capacity: nat)
    requires Sending(codec, tokens, files, |files|, out, errors, before, room, sent, capacity)
    ensures Emit(codec, tokens, files) == out + [DELIMITER] && Unsent(codec, tokens, files, room) == errors
    ensures Carried(sent, capacity, before, room, out)
  {
    assert files[|files|..] == [] && errors + [] == errors;
  }

  method SendEnd(channel: DataChannel, ghost before: seq<Message>, ghost room: nat, ghost out: seq<Message>)
    returns (ok: bool)
    requires Carried(channel.sent, channel.capacity, before, room, out)
    modifies channel
    ensures Carried(channel.sent, channel.capacity, before, room, out + [DELIMITER]) && ok == (|out| < room)
  {
    ghost var sent, capacity := channel.sent, channel.capacity;
    ok := channel.Send(DELIMITER);
    assert [DELIMITER][..0] == [] && [DELIMITER][..1] == [DELIMITER];
    CarriedMore(sent, capacity, channel.sent, channel.capacity, before, room, out, [DELIMITER]);
  }

  lemma {:induction false} NextFile(codec: Codec, tokens: map<string, string>, files: seq<Outgoing>, i: nat,
                                    out: seq<Message>,
                 errors: seq<string>, room: nat)
    requires i < |files|
    ensures out + Emit(codec, tokens, files[i..])
            == (out + EmitFile(codec, tokens, files[i])) + Emit(codec, tokens, files[i + 1..])
    ensures errors + Unsent(codec, tokens, files[i..], room)
            == (errors + UnsentOf(codec, tokens, files[i], room))
               + Unsent(codec, tokens, files[i + 1..], RoomAfter(codec, tokens, files[i], room))
  {
    assert files[i..][0] == files[i] && files[i..][1..] == files[i + 1..];
    Assoc(out, EmitFile(codec, tokens, files[i]), Emit(codec, tokens, files[i + 1..]));
    Assoc(errors, UnsentOf(codec, tokens, files[i], room),
          Unsent(codec, tokens, files[i + 1..], RoomAfter(codec, tokens, files[i], room)));
  }

  // ----- The two loops together -----

  function Total(chunks: seq<Bytes>): nat {
    if chunks == [] then 0 else |chunks[0]| + Total(chunks[1..])
  }

  /** The longest prefix of `chunks` of at most `room` bytes. */
  function Fit(chunks: seq<Bytes>, room: nat): seq<Bytes> {
    if chunks == [] || |chunks[0]| > room then [] else [chunks[0]] + Fit(chunks[1..], room - |chunks[0]|)
  }

  function ContentOf(file: Outgoing): Bytes {
    Concat(file.pieces)
  }

  predicate IsOffered(setup: Setup, file: Outgoing) {
    SizeOf(setup.files, file.fileId).Some?
  }

  /** The file was offered, with a size its content keeps. */
  predicate Fits(setup: Setup, file: Outgoing) {
    IsOffered(setup, file) && |ContentOf(file)| <= SizeOf(setup.files, file.fileId).value
  }

  function Delivered(setup: Setup, file: Outgoing): Transfer
    requires IsOffered(setup, file)
  {
    Transfer(file.fileId, Fit(Chunks(ContentOf(file)), SizeOf(setup.files, file.fileId).value))
  }

  /** Reading two stretches of a stream one after the other. */
  lemma {:induction false} ReceiveAppend(setup: Setup, st: Receiver, a: seq<Message>, b: seq<Message>)
    requires st.file.Some? ==> st.transfers != []
    ensures Receive(setup, st, a + b) == Receive(setup, Receive(setup, st, a), b)
    decreases a
  {
    if a == [] {
      assert a + b == b;
    } else if st.run != Running {
    } else {
      assert (a + b)[0] == a[0] && (a + b)[1..] == a[1..] + b;
      ReceiveAppend(setup, OnMessage(setup, st, a[0]), a[1..], b);
    }
  }

  ghost predicate SameButErrors(a: Receiver, b: Receiver) {
    a.file == b.file && a.transfers == b.transfers && a.replies == b.replies && a.run == b.run
  }

  /** Binaries without an open file only raise errors. */
  lemma {:induction false} IgnoresBinaries(setup: Setup, st: Receiver, chunks: seq<Bytes>)
    requires st.file.None? && st.run == Running
    ensures SameButErrors(Receive(setup, st, AsBinary(chunks)), st)
    decreases |chunks|
  {
    if chunks != [] {
      assert AsBinary(chunks)[1..] == AsBinary(chunks[1..]);
      IgnoresBinaries(setup, OnMessage(setup, st, AsBinary(chunks)[0]), chunks[1..]);
    }
  }

  function AppendTo(transfers: seq<Transfer>, more: seq<Bytes>): seq<Transfer>
    requires transfers != []
  {
    var last := |transfers| - 1;
    transfers[last := transfers[last].(chunks := transfers[last].chunks + more)]
  }

  /** Binaries for an open file: what fits is forwarded, and the file stays
      open only if everything did. */
  lemma {:induction false} TakesBinaries(setup: Setup, st: Receiver, chunks: seq<Bytes>)
    requires st.file.Some? && st.transfers != [] && st.run == Running && st.file.value.received <= st.file.value.size
    ensures var file := st.file.value;
            var end := Receive(setup, st, AsBinary(chunks));
            var room := file.size - file.received;
            && end.transfers == AppendTo(st.transfers, Fit(chunks, room))
            && end.replies == st.replies && end.run == Running
            && end.file
               == if Total(chunks) <= room then Some(file.(received := file.received + Total(chunks))) else None
    decreases |chunks|
  {
    var file := st.file.value;
    var room := file.size - file.received;
    if chunks == [] {
      AppendNothing(st.transfers);
    } else {
      var msgs := AsBinary(chunks);
      assert msgs[0] == Binary(chunks[0]) && msgs[1..] == AsBinary(chunks[1..]);
      var next := OnMessage(setup, st, msgs[0]);
      if |chunks[0]| > room {
        IgnoresBinaries(setup, next, chunks[1..]);
        AppendNothing(st.transfers);
      } else {
        TakesBinaries(setup, next, chunks[1..]);
        AppendTwice(st.transfers, chunks[0], Fit(chunks[1..], room - |chunks[0]|));
      }
    }
  }

  lemma {:induction false} AppendNothing(transfers: seq<Transfer>)
    requires transfers != []
    ensures AppendTo(transfers, []) == transfers
  {
    var last := |transfers| - 1;
    assert transfers[last].chunks + [] == transfers[last].chunks;
  }

  lemma {:induction false} AppendTwice(transfers: seq<Transfer>, data: Bytes, more: seq<Bytes>)
    requires transfers != []
    ensures AppendTo(Forward(transfers, data), more) == AppendTo(transfers, [data] + more)
  {
    var last := |transfers| - 1;
    assert (transfers[last].chunks + [data]) + more == transfers[last].chunks + ([data] + more);
  }

  lemma {:induction false} TotalOfSplit(chunks: seq<Bytes>)
    ensures Total(chunks) == |Concat(chunks)|
  {
    if chunks != [] {
      TotalOfSplit(chunks[1..]);
    }
  }

  /** What is made of one streamed file: a transfer, if it was offered. */
  function DeliveredOf(setup: Setup, file: Outgoing): seq<Transfer> {
    if IsOffered(setup, file) then [Delivered(setup, file)] else []
  }

  /** One streamed file, from any running state. */
  lemma {:induction false} ReceivesFile(setup: Setup, st: Receiver, file: Outgoing)
    requires Faithful(setup.codec) && st.run == Running && (st.file.Some? ==> st.transfers != [])
    requires file.fileId in setup.tokens
    ensures var end := Receive(setup, st, EmitFile(setup.codec, setup.tokens, file));
            && end.run == Running
            && end.transfers == st.transfers + DeliveredOf(setup, file)
            && end.replies == CloseFile(setup, st).replies
            && end.file.Some? == Fits(setup, file)
            && (end.file.Some? ==> end.file.value.fileId == file.fileId)
  {
    var header := TextOf(setup.codec, FileHeader(file.fileId, setup.tokens[file.fileId]));
    var chunks := Chunks(ContentOf(file));
    ReceiveAppend(setup, st, [header], AsBinary(chunks));
    assert Receive(setup, st, [header]) == OnMessage(setup, st, header) by {
      assert [header][1..] == [];
    }
    if IsOffered(setup, file) {
      OpensFile(setup, st, file, header);
      TakesContent(setup, st, OnMessage(setup, st, header), file);
    } else {
      RefusesFile(setup, st, file, header);
      IgnoresBinaries(setup, OnMessage(setup, st, header), chunks);
    }
  }

  lemma {:induction false} TakesContent(setup: Setup, st: Receiver, begun: Receiver, file: Outgoing)
    requires IsOffered(setup, file) && begun.run == Running
    requires begun.file == Some(FileState(file.fileId, SizeOf(setup.files, file.fileId).value, 0))
    requires begun.transfers == st.transfers + [Transfer(file.fileId, [])]
    ensures var end := Receive(setup, begun, AsBinary(Chunks(ContentOf(file))));
            && end.run == Running && end.replies == begun.replies
            && end.transfers == st.transfers + [Delivered(setup, file)]
            && end.file.Some? == Fits(setup, file)
            && (end.file.Some? ==> end.file.value.fileId == file.fileId)
  {
    var chunks := Chunks(ContentOf(file));
    TakesBinaries(setup, begun, chunks);
    ChunksAreCanonical(ContentOf(file));
    TotalOfSplit(chunks);
    AppendToFresh(st.transfers, file.fileId, Fit(chunks, begun.file.value.size));
  }

  lemma {:induction false} AppendToFresh(transfers: seq<Transfer>, id: string, chunks: seq<Bytes>)
    ensures AppendTo(transfers + [Transfer(id, [])], chunks) == transfers + [Transfer(id, chunks)]
  {
    assert [] + chunks == chunks;
  }

  lemma {:induction false} OpensFile(setup: Setup, st: Receiver, file: Outgoing, header: Message)
    requires Faithful(setup.codec) && (st.file.Some? ==> st.transfers != [])
    requires file.fileId in setup.tokens && IsOffered(setup, file)
    requires header == TextOf(setup.codec, FileHeader(file.fileId, setup.tokens[file.fileId]))
    ensures var begun := OnMessage(setup, st, header);
            && begun.run == st.run
            && begun.file == Some(FileState(file.fileId, SizeOf(setup.files, file.fileId).value, 0))
            && begun.transfers == st.transfers + [Transfer(file.fileId, [])]
            && begun.replies == CloseFile(setup, st).replies
  {
  }

  /** A selected file without a known size is not opened. */
  lemma {:induction false} RefusesFile(setup: Setup, st: Receiver, file: Outgoing, header: Message)
    requires Faithful(setup.codec) && (st.file.Some? ==> st.transfers != [])
    requires file.fileId in setup.tokens && !IsOffered(setup, file)
    requires header == TextOf(setup.codec, FileHeader(file.fileId, setup.tokens[file.fileId]))
    ensures var begun := OnMessage(setup, st, header);
            && begun.run == st.run && begun.file.None?
            && begun.transfers == st.transfers + [] && begun.replies == CloseFile(setup, st).replies
  {
  }

  /** The transfers of a list of streamed files. */
  function AllDelivered(setup: Setup, files: seq<Outgoing>): seq<Transfer> {
    if files == [] then [] else DeliveredOf(setup, files[0]) + AllDelivered(setup, files[1..])
  }

  /** One reply per file whose content fits, numbered from `k`. */
  function RepliesTo(setup: Setup, files: seq<Outgoing>, k: nat): seq<Payload> {
    if files == [] then []
    else if Fits(setup, files[0]) then
      [ReplyFor(setup.results, files[0].fileId, k)] + RepliesTo(setup, files[1..], k + 1)
    else RepliesTo(setup, files[1..], k)
  }

  /** The streamed files whose content fits. */
  function Fitting(setup: Setup, files: seq<Outgoing>): seq<Outgoing> {
    if files == [] then []
    else (if Fits(setup, files[0]) then [files[0]] else []) + Fitting(setup, files[1..])
  }

  lemma {:induction false} RepliesReport(setup: Setup, files: seq<Outgoing>, k: nat)
    ensures var replies, fitting := RepliesTo(setup, files, k), Fitting(setup, files);
            && |replies| == |fitting|
            && forall i :: 0 <= i < |replies| ==> Reports(replies[i], fitting[i].fileId, setup.results, k + i)
  {
    if files != [] {
      var k' := if Fits(setup, files[0]) then k + 1 else k;
      RepliesReport(setup, files[1..], k');
      var later := RepliesTo(setup, files[1..], k');
      forall i | 0 <= i < |RepliesTo(setup, files, k)|
        ensures Reports(RepliesTo(setup, files, k)[i], Fitting(setup, files)[i].fileId, setup.results, k + i)
      {
        if Fits(setup, files[0]) && i > 0 {
          assert Reports(later[i - 1], Fitting(setup, files[1..])[i - 1].fileId, setup.results, k' + (i - 1));
        }
      }
    }
  }

  lemma {:induction false} SelectedHaveTokens(tokens: map<string, string>, files: seq<Outgoing>)
    ensures HaveTokens(tokens, Selected(tokens, files))
  {
    if files != [] {
      SelectedHaveTokens(tokens, files[1..]);
    }
  }

  lemma {:induction false} EmitsSelected(codec: Codec, tokens: map<string, string>, files: seq<Outgoing>)
    ensures Emit(codec, tokens, files) == Emit(codec, tokens, Selected(tokens, files))
  {
    if files != [] {
      EmitsSelected(codec, tokens, files[1..]);
      if files[0].fileId in tokens {
        assert Selected(tokens, files)[0] == files[0] && Selected(tokens, files)[1..] == Selected(tokens, files[1..]);
      } else {
        assert Selected(tokens, files) == Selected(tokens, files[1..]);
        assert EmitFile(codec, tokens, files[0]) + Emit(codec, tokens, files[1..]) == Emit(codec, tokens, files[1..]);
      }
    }
  }

  predicate HaveTokens(tokens: map<string, string>, files: seq<Outgoing>) {
    forall i :: 0 <= i < |files| ==> files[i].fileId in tokens
  }

  /** How a receiver ends that was running in `st` when `files` and the delimiter arrived. */
  predicate EndsWith(setup: Setup, st: Receiver, files: seq<Outgoing>, end: Receiver) {
    var closed := CloseFile(setup, st).replies;
    var clean := if files == [] then st.file.Some? else Fits(setup, files[|files| - 1]);
    && end.transfers == st.transfers + AllDelivered(setup, files)
    && end.replies == closed + RepliesTo(setup, files, |closed|)
    && end.run == if clean then Finished else Aborted
  }

  lemma {:induction false} EndsWithOneMore(setup: Setup, st: Receiver, next: Receiver, files: seq<Outgoing>,
                                           end: Receiver)
    requires files != [] && EndsWith(setup, next, files[1..], end)
    requires next.transfers == st.transfers + DeliveredOf(setup, files[0])
    requires next.replies == CloseFile(setup, st).replies
    requires next.file.Some? == Fits(setup, files[0])
    requires next.file.Some? ==> next.file.value.fileId == files[0].fileId
    ensures EndsWith(setup, st, files, end)
  {
    var rest := files[1..];
    assert |files| > 1 ==> rest[|rest| - 1] == files[|files| - 1];
    Assoc(st.transfers, DeliveredOf(setup, files[0]), AllDelivered(setup, rest));
    NextReplies(setup, CloseFile(setup, st).replies, CloseFile(setup, next).replies, files);
  }

  lemma {:induction false} NextReplies(setup: Setup, closed: seq<Payload>, closed': seq<Payload>, files: seq<Outgoing>)
    requires files != []
    requires closed'
             == if Fits(setup, files[0]) then closed + [ReplyFor(setup.results, files[0].fileId, |closed|)] else closed
    ensures closed' + RepliesTo(setup, files[1..], |closed'|) == closed + RepliesTo(setup, files, |closed|)
  {
    if Fits(setup, files[0]) {
      Assoc(closed, [ReplyFor(setup.results, files[0].fileId, |closed|)], RepliesTo(setup, files[1..], |closed'|));
    }
  }

  /** The rest of a stream, from any running state. */
  lemma {:induction false} ReceivesRest(setup: Setup, st: Receiver, files: seq<Outgoing>)
    requires Faithful(setup.codec) && st.run == Running && (st.file.Some? ==> st.transfers != [])
    requires HaveTokens(setup.tokens, files)
    ensures EndsWith(setup, st, files, Receive(setup, st, Emit(setup.codec, setup.tokens, files)))
    decreases |files|
  {
    if files == [] {
      var end := OnMessage(setup, st, DELIMITER);
      assert [DELIMITER][1..] == [];
    } else {
      var own := EmitFile(setup.codec, setup.tokens, files[0]);
      var rest := Emit(setup.codec, setup.tokens, files[1..]);
      var next := Receive(setup, st, own);
      ReceivesFile(setup, st, files[0]);
      ReceiveAppend(setup, st, own, rest);
      ReceivesRest(setup, next, files[1..]);
      EndsWithOneMore(setup, st, next, files, Receive(setup, next, rest));
    }
  }

  /** Round trip for every selection and every content, files that were never
      offered and oversized ones included. The stream of the send loop opens the
      selected files that were offered, in order, each with the chunks that fit
      its declared size, and answers each file that fits with its result. It ends cleanly
      exactly when a file was streamed and the last one was offered and fits: a
      delimiter without an open file reads as a broken header. */
  lemma {:induction false} StreamOutcome(setup: Setup, files: seq<Outgoing>)
    requires Faithful(setup.codec)
    ensures var picked := Selected(setup.tokens, files);
            var end := Receive(setup, START, Emit(setup.codec, setup.tokens, files));
            && end.transfers == AllDelivered(setup, picked)
            && |end.replies| == |Fitting(setup, picked)|
            && (forall i :: 0 <= i < |end.replies| ==>
                  Reports(end.replies[i], Fitting(setup, picked)[i].fileId, setup.results, i))
            && end.replies == RepliesTo(setup, picked, 0)
            && end.run != Running
            && (end.run == Finished <==> picked != [] && Fits(setup, picked[|picked| - 1]))
  {
    var picked := Selected(setup.tokens, files);
    SelectedHaveTokens(setup.tokens, files);
    EmitsSelected(setup.codec, setup.tokens, files);
    ReceivesRest(setup, START, picked);
    EndsFromStart(setup, picked, Receive(setup, START, Emit(setup.codec, setup.tokens, picked)));
  }

  lemma {:induction false} EndsFromStart(setup: Setup, files: seq<Outgoing>, end: Receiver)
    requires EndsWith(setup, START, files, end)
    ensures end.transfers == AllDelivered(setup, files) && end.replies == RepliesTo(setup, files, 0)
    ensures |end.replies| == |Fitting(setup, files)|
    ensures forall i :: 0 <= i < |end.replies| ==>
              Reports(end.replies[i], Fitting(setup, files)[i].fileId, setup.results, i)
    ensures end.run == if files != [] && Fits(setup, files[|files| - 1]) then Finished else Aborted
  {
    assert CloseFile(setup, START).replies == [];
    assert [] + AllDelivered(setup, files) == AllDelivered(setup, files);
    assert [] + RepliesTo(setup, files, 0) == RepliesTo(setup, files, 0);
    RepliesReport(setup, files, 0);
  }

  lemma {:induction false} FitsEntirely(chunks: seq<Bytes>, room: nat)
    requires Total(chunks) <= room
    ensures Fit(chunks, room) == chunks
  {
    if chunks != [] {
      FitsEntirely(chunks[1..], room - |chunks[0]|);
    }
  }

  predicate AllFit(setup: Setup, files: seq<Outgoing>) {
    forall i :: 0 <= i < |files| ==> Fits(setup, files[i])
  }

  lemma {:induction false} DeliveredAt(setup: Setup, files: seq<Outgoing>, i: nat)
    requires i < |files| && AllFit(setup, files)
    ensures |AllDelivered(setup, files)| == |files|
    ensures AllDelivered(setup, files)[i] == Delivered(setup, files[i])
  {
    if i > 0 {
      DeliveredAt(setup, files[1..], i - 1);
    } else if |files| > 1 {
      DeliveredAt(setup, files[1..], 0);
    }
  }

  lemma {:induction false} RepliedAt(setup: Setup, files: seq<Outgoing>, k: nat, i: nat)
    requires i < |files| && AllFit(setup, files)
    ensures |RepliesTo(setup, files, k)| == |files|
    ensures RepliesTo(setup, files, k)[i] == ReplyFor(setup.results, files[i].fileId, k + i)
  {
    if i > 0 {
      RepliedAt(setup, files[1..], k + 1, i - 1);
    } else if |files| > 1 {
      RepliedAt(setup, files[1..], k + 1, 0);
    }
  }

  lemma {:induction false} DeliveredInFull(setup: Setup, file: Outgoing)
    requires Fits(setup, file)
    ensures Concat(Delivered(setup, file).chunks) == ContentOf(file)
  {
    var content := ContentOf(file);
    ChunksAreCanonical(content);
    TotalOfSplit(Chunks(content));
    FitsEntirely(Chunks(content), SizeOf(setup.files, file.fileId).value);
  }

  /** The `i`-th file arrived whole, and was answered with its result. */
  predicate ArrivedWhole(results: seq<FileResult>, transfers: seq<Transfer>, replies: seq<Payload>, file: Outgoing,
                         i: nat)
  {
    && i < |transfers| && transfers[i].fileId == file.fileId && Concat(transfers[i].chunks) == ContentOf(file)
    && i < |replies| && Reports(replies[i], file.fileId, results, i)
  }

  lemma {:induction false} ArrivesWhole(setup: Setup, files: seq<Outgoing>, i: nat)
    requires i < |files| && AllFit(setup, files)
    ensures |AllDelivered(setup, files)| == |RepliesTo(setup, files, 0)| == |files|
    ensures ArrivedWhole(setup.results, AllDelivered(setup, files), RepliesTo(setup, files, 0), files[i], i)
  {
    DeliveredAt(setup, files, i);
    RepliedAt(setup, files, 0, i);
    DeliveredInFull(setup, files[i]);
  }

  /** Files within their declared sizes: whatever pieces they came in, exactly
      their ids and contents arrive, in order, each is answered with its
      result, and the loop stops cleanly. */
  lemma {:induction false} FileStreamRoundTrip(setup: Setup, files: seq<Outgoing>)
    requires Faithful(setup.codec) && files != [] && HaveTokens(setup.tokens, files) && AllFit(setup, files)
    ensures var end := Receive(setup, START, Emit(setup.codec, setup.tokens, files));
            && end.run == Finished
            && |end.transfers| == |end.replies| == |files|
            && forall i :: 0 <= i < |files| ==> ArrivedWhole(setup.results, end.transfers, end.replies, files[i], i)
  {
    AllSelected(setup.tokens, files);
    StreamOutcome(setup, files);
    forall i | 0 <= i < |files|
      ensures ArrivedWhole(setup.results, AllDelivered(setup, files), RepliesTo(setup, files, 0), files[i], i)
    {
      ArrivesWhole(setup, files, i);
    }
    ArrivesWhole(setup, files, 0);
  }

  lemma {:induction false} AllSelected(tokens: map<string, string>, files: seq<Outgoing>)
    requires HaveTokens(tokens, files)
    ensures Selected(tokens, files) == files
  {
    if files != [] {
      AllSelected(tokens, files[1..]);
    }
  }
}
