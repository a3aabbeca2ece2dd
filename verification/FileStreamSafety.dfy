/** What the receive loop does with any message sequence whatsoever, read off
    the sequence itself. */
module FileStreamSafety {
  import opened Options
  import opened Framing
  import opened Wire
  import opened FileStream
  import opened FileRoundTrip

  datatype Opening = Opening(id: string, size: nat)

  /** The file a text message opens: a header for a selected file, with the
      token issued for it, and a declared size. */
  function HeaderIn(setup: Setup, msg: Message): Option<Opening> {
    if msg.Binary? then None
    else match setup.codec.decode(msg.data)
      case Some(FileHeader(id, token)) =>
        if id in setup.tokens && setup.tokens[id] == token && SizeOf(setup.files, id).Some?
        then Some(Opening(id, SizeOf(setup.files, id).value)) else None
      case _ => None
  }

  /** Where the valid headers are, in order. */
  function Headers(setup: Setup, seen: seq<Message>): (hs: seq<nat>)
    ensures AreHeaders(setup, seen, hs)
  {
    if seen == [] then []
    else
      var n := |seen| - 1;
      Headers(setup, seen[..n]) + if HeaderIn(setup, seen[n]).Some? then [n] else []
  }

  /** The binaries from `from` up to the next text message. */
  function BinaryRun(seen: seq<Message>, from: nat): (run: seq<Bytes>)
    ensures from <= |seen| ==> from + |run| <= |seen|
    decreases |seen| - from
  {
    if from >= |seen| || seen[from].Text? then [] else [seen[from].data] + BinaryRun(seen, from + 1)
  }

  predicate ClosedAt(seen: seq<Message>, h: nat) {
    h + 1 + |BinaryRun(seen, h + 1)| < |seen|
  }

  function TransferAt(setup: Setup, seen: seq<Message>, h: nat): Transfer
    requires h < |seen| && HeaderIn(setup, seen[h]).Some?
  {
    var opening := HeaderIn(setup, seen[h]).value;
    Transfer(opening.id, Fit(BinaryRun(seen, h + 1), opening.size))
  }

  /** The payload never went over the declared size. */
  predicate WithinSize(setup: Setup, seen: seq<Message>, h: nat)
    requires h < |seen| && HeaderIn(setup, seen[h]).Some?
  {
    Total(BinaryRun(seen, h + 1)) <= HeaderIn(setup, seen[h]).value.size
  }

  predicate AreHeaders(setup: Setup, seen: seq<Message>, hs: seq<nat>) {
    forall j :: 0 <= j < |hs| ==> hs[j] < |seen| && HeaderIn(setup, seen[hs[j]]).Some?
  }

  function Transfers(setup: Setup, seen: seq<Message>, hs: seq<nat>): seq<Transfer>
    requires AreHeaders(setup, seen, hs)
  {
    seq(|hs|, j requires 0 <= j < |hs| => TransferAt(setup, seen, hs[j]))
  }

  /** The ids of the files that a later text message closed within their size. */
  function Answered(setup: Setup, seen: seq<Message>, hs: seq<nat>): seq<string>
    requires AreHeaders(setup, seen, hs)
  {
    if hs == [] then []
    else
      var n := |hs| - 1;
      Answered(setup, seen, hs[..n])
      + if ClosedAt(seen, hs[n]) && WithinSize(setup, seen, hs[n]) then [HeaderIn(setup, seen[hs[n]]).value.id] else []
  }

  function RepliesFor(results: seq<FileResult>, ids: seq<string>): seq<Payload> {
    seq(|ids|, k requires 0 <= k < |ids| => ReplyFor(results, ids[k], k))
  }

  function OpenAt(setup: Setup, seen: seq<Message>, hs: seq<nat>): Option<FileState>
    requires AreHeaders(setup, seen, hs)
  {
    if hs == [] || ClosedAt(seen, hs[|hs| - 1]) || !WithinSize(setup, seen, hs[|hs| - 1]) then None
    else
      var h := hs[|hs| - 1];
      var opening := HeaderIn(setup, seen[h]).value;
      Some(FileState(opening.id, opening.size, Total(BinaryRun(seen, h + 1))))
  }

  /** The receiver as a function of what it has read. */
  predicate Explains(setup: Setup, seen: seq<Message>, st: Receiver) {
    var hs := Headers(setup, seen);
    && st.transfers == Transfers(setup, seen, hs)
    && st.replies == RepliesFor(setup.results, Answered(setup, seen, hs))
    && st.file == OpenAt(setup, seen, hs)
  }

  lemma {:induction false} RunAfter(seen: seq<Message>, msg: Message, from: nat)
    requires from <= |seen|
    ensures var run := BinaryRun(seen, from);
            BinaryRun(seen + [msg], from) == if from + |run| == |seen| && msg.Binary? then run + [msg.data] else run
    decreases |seen| - from
  {
    if from < |seen| && seen[from].Binary? {
      RunAfter(seen, msg, from + 1);
    } else if from == |seen| && msg.Binary? {
      assert BinaryRun(seen + [msg], from + 1) == [];
    }
  }

  lemma {:induction false} HeadersAfter(setup: Setup, seen: seq<Message>, msg: Message)
    ensures Headers(setup, seen + [msg]) == Headers(setup, seen) + if HeaderIn(setup, msg).Some? then [|seen|] else []
  {
    assert (seen + [msg])[..|seen|] == seen;
  }

  lemma {:induction false} HeadersAscend(setup: Setup, seen: seq<Message>, i: nat, j: nat)
    requires i < j < |Headers(setup, seen)|
    ensures Headers(setup, seen)[i] < Headers(setup, seen)[j]
  {
    var n := |seen| - 1;
    if j < |Headers(setup, seen[..n])| {
      HeadersAscend(setup, seen[..n], i, j);
    }
  }

  lemma {:induction false} BinaryCons(data: Bytes, rest: seq<Bytes>)
    ensures AsBinary([data] + rest) == [Binary(data)] + AsBinary(rest)
  {
  }

  lemma {:induction false} SliceCons(seen: seq<Message>, from: nat, n: nat)
    requires from + 1 + n <= |seen|
    ensures seen[from..from + 1 + n] == [seen[from]] + seen[from + 1..from + 1 + n]
  {
  }

  /** The run is what it says: binaries, up to a text message or the end. */
  lemma {:induction false} RunIsBinary(seen: seq<Message>, from: nat)
    requires from <= |seen|
    ensures var run := BinaryRun(seen, from);
            && seen[from..from + |run|] == AsBinary(run)
            && (from + |run| < |seen| ==> seen[from + |run|].Text?)
    decreases |seen| - from
  {
    if from < |seen| && seen[from].Binary? {
      RunIsBinary(seen, from + 1);
      var rest := BinaryRun(seen, from + 1);
      BinaryCons(seen[from].data, rest);
      SliceCons(seen, from, |rest|);
    }
  }

  lemma {:induction false} RunStopsBefore(seen: seq<Message>, from: nat, text: nat)
    requires from <= text < |seen| && seen[text].Text?
    ensures from + |BinaryRun(seen, from)| <= text
    decreases text - from
  {
    if seen[from].Binary? {
      RunStopsBefore(seen, from + 1, text);
    }
  }

  /** All but the last opened file are closed. */
  lemma {:induction false} EarlierClosed(setup: Setup, seen: seq<Message>, j: nat)
    requires j + 1 < |Headers(setup, seen)|
    ensures ClosedAt(seen, Headers(setup, seen)[j])
  {
    var h, later := Headers(setup, seen)[j], Headers(setup, seen)[j + 1];
    HeadersAscend(setup, seen, j, j + 1);
    RunStopsBefore(seen, h + 1, later);
  }

  lemma {:induction false} TransferStays(setup: Setup, seen: seq<Message>, msg: Message, h: nat)
    requires h < |seen| && HeaderIn(setup, seen[h]).Some? && (ClosedAt(seen, h) || msg.Text?)
    ensures TransferAt(setup, seen + [msg], h) == TransferAt(setup, seen, h)
    ensures WithinSize(setup, seen + [msg], h) == WithinSize(setup, seen, h)
    ensures ClosedAt(seen + [msg], h)
  {
    RunAfter(seen, msg, h + 1);
  }

  lemma {:induction false} AnsweredStays(setup: Setup, seen: seq<Message>, msg: Message, hs: seq<nat>)
    requires AreHeaders(setup, seen, hs) && forall j :: 0 <= j < |hs| ==> ClosedAt(seen, hs[j])
    ensures Answered(setup, seen + [msg], hs) == Answered(setup, seen, hs)
  {
    if hs != [] {
      var n := |hs| - 1;
      AnsweredStays(setup, seen, msg, hs[..n]);
      TransferStays(setup, seen, msg, hs[n]);
    }
  }

  lemma {:induction false} TransfersStay(setup: Setup, seen: seq<Message>, msg: Message, hs: seq<nat>)
    requires AreHeaders(setup, seen, hs) && (msg.Text? || forall j :: 0 <= j < |hs| ==> ClosedAt(seen, hs[j]))
    ensures Transfers(setup, seen + [msg], hs) == Transfers(setup, seen, hs)
  {
    forall j | 0 <= j < |hs|
      ensures TransferAt(setup, seen + [msg], hs[j]) == TransferAt(setup, seen, hs[j])
    {
      TransferStays(setup, seen, msg, hs[j]);
    }
  }

  /** A text message closes the open file: it is answered if it kept its size. */
  lemma {:induction false} AnsweredByText(setup: Setup, seen: seq<Message>, msg: Message)
    requires msg.Text?
    ensures var hs := Headers(setup, seen);
            Answered(setup, seen + [msg], hs)
            == Answered(setup, seen, hs)
               + match OpenAt(setup, seen, hs) case Some(file) => [file.fileId] case None => []
  {
    var hs := Headers(setup, seen);
    if hs != [] {
      var n := |hs| - 1;
      forall j | 0 <= j < n
        ensures ClosedAt(seen, hs[..n][j])
      {
        EarlierClosed(setup, seen, j);
      }
      AnsweredStays(setup, seen, msg, hs[..n]);
      TransferStays(setup, seen, msg, hs[n]);
    }
  }

  lemma {:induction false} RepliesOneMore(results: seq<FileResult>, ids: seq<string>, id: string)
    ensures RepliesFor(results, ids + [id]) == RepliesFor(results, ids) + [ReplyFor(results, id, |ids|)]
  {
  }

  lemma {:induction false} ClosingExplained(setup: Setup, seen: seq<Message>, st: Receiver, msg: Message)
    requires msg.Text? && Explains(setup, seen, st)
    ensures var hs := Headers(setup, seen);
            && CloseFile(setup, st).transfers == Transfers(setup, seen + [msg], hs)
            && CloseFile(setup, st).replies == RepliesFor(setup.results, Answered(setup, seen + [msg], hs))
            && OpenAt(setup, seen + [msg], hs) == None
  {
    var hs := Headers(setup, seen);
    TransfersStay(setup, seen, msg, hs);
    AnsweredByText(setup, seen, msg);
    var ids := Answered(setup, seen, hs);
    if st.file.Some? {
      RepliesOneMore(setup.results, ids, st.file.value.fileId);
    } else {
      assert ids + [] == ids;
    }
    if hs != [] {
      TransferStays(setup, seen, msg, hs[|hs| - 1]);
    }
  }

  lemma {:induction false} HeaderExplained(setup: Setup, seen: seq<Message>, hs: seq<nat>, opening: Opening)
    requires AreHeaders(setup, seen, hs) && seen != [] && HeaderIn(setup, seen[|seen| - 1]) == Some(opening)
    ensures var n := |seen| - 1;
            && Transfers(setup, seen, hs + [n]) == Transfers(setup, seen, hs) + [Transfer(opening.id, [])]
            && Answered(setup, seen, hs + [n]) == Answered(setup, seen, hs)
            && OpenAt(setup, seen, hs + [n]) == Some(FileState(opening.id, opening.size, 0))
  {
    var n := |seen| - 1;
    assert BinaryRun(seen, n + 1) == [];
    assert (hs + [n])[..|hs|] == hs;
    assert TransferAt(setup, seen, n) == Transfer(opening.id, []);
  }

  lemma {:induction false} OpensOrNot(setup: Setup, st: Receiver, msg: Message)
    requires Faithful(setup.codec) && msg.Text?
    ensures var closed, next := CloseFile(setup, st), OnText(setup, st, msg);
            && next.replies == closed.replies
            && match HeaderIn(setup, msg)
               case Some(opening) =>
                 next.file == Some(FileState(opening.id, opening.size, 0))
                 && next.transfers == closed.transfers + [Transfer(opening.id, [])]
               case None => next.file == None && next.transfers == closed.transfers
  {
  }

  lemma {:induction false} TextExplained(setup: Setup, seen: seq<Message>, st: Receiver, msg: Message)
    requires Faithful(setup.codec) && msg.Text? && Explains(setup, seen, st)
    ensures Explains(setup, seen + [msg], OnText(setup, st, msg))
  {
    var hs, now := Headers(setup, seen), seen + [msg];
    ClosingExplained(setup, seen, st, msg);
    OpensOrNot(setup, st, msg);
    HeadersAfter(setup, seen, msg);
    if HeaderIn(setup, msg).Some? {
      HeaderExplained(setup, now, hs, HeaderIn(setup, msg).value);
    } else {
      assert Headers(setup, now) == hs;
    }
  }

  lemma {:induction false} FitOneMore(chunks: seq<Bytes>, data: Bytes, room: nat)
    ensures Total(chunks + [data]) == Total(chunks) + |data|
    ensures Total(chunks) > room ==> Fit(chunks + [data], room) == Fit(chunks, room)
    ensures Total(chunks) <= room ==>
              Fit(chunks, room) == chunks
              && Fit(chunks + [data], room) == if Total(chunks) + |data| <= room then chunks + [data] else chunks
  {
    var all := chunks + [data];
    if chunks == [] {
      assert all == [data] && all[1..] == [];
      assert Total(all) == |data| + Total([]);
    } else {
      assert all[0] == chunks[0] && all[1..] == chunks[1..] + [data];
      FitOneMore(chunks[1..], data, if |chunks[0]| <= room then room - |chunks[0]| else 0);
    }
  }

  /** A binary after the open file was closed, or before any was opened. */
  lemma {:induction false} StrayBinaryExplained(setup: Setup, seen: seq<Message>, msg: Message, hs: seq<nat>)
    requires AreHeaders(setup, seen, hs) && forall j :: 0 <= j < |hs| ==> ClosedAt(seen, hs[j])
    ensures Transfers(setup, seen + [msg], hs) == Transfers(setup, seen, hs)
    ensures Answered(setup, seen + [msg], hs) == Answered(setup, seen, hs)
    ensures OpenAt(setup, seen, hs) == None && OpenAt(setup, seen + [msg], hs) == None
  {
    TransfersStay(setup, seen, msg, hs);
    AnsweredStays(setup, seen, msg, hs);
    if hs != [] {
      TransferStays(setup, seen, msg, hs[|hs| - 1]);
    }
  }

  /** A binary for the file opened last, which no text has closed yet. */
  lemma {:induction false} LastFileExplained(setup: Setup, seen: seq<Message>, msg: Message, h: nat)
    requires msg.Binary? && h < |seen| && HeaderIn(setup, seen[h]).Some? && !ClosedAt(seen, h)
    ensures var now, size, received := seen + [msg], HeaderIn(setup, seen[h]).value.size, Total(BinaryRun(seen, h + 1));
            var before, after := TransferAt(setup, seen, h), TransferAt(setup, now, h);
            && !ClosedAt(now, h) && Total(BinaryRun(now, h + 1)) == received + |msg.data|
            && after == if received + |msg.data| <= size then before.(chunks := before.chunks + [msg.data]) else before
  {
    RunAfter(seen, msg, h + 1);
    FitOneMore(BinaryRun(seen, h + 1), msg.data, HeaderIn(setup, seen[h]).value.size);
  }

  lemma {:induction false} SplitLast(setup: Setup, seen: seq<Message>, hs: seq<nat>)
    requires AreHeaders(setup, seen, hs) && hs != []
    ensures var n := |hs| - 1;
            && Transfers(setup, seen, hs) == Transfers(setup, seen, hs[..n]) + [TransferAt(setup, seen, hs[n])]
            && (!ClosedAt(seen, hs[n]) ==> Answered(setup, seen, hs) == Answered(setup, seen, hs[..n]))
  {
  }

  lemma {:induction false} BinaryExplained(setup: Setup, seen: seq<Message>, st: Receiver, msg: Message)
    requires msg.Binary? && Explains(setup, seen, st)
    requires st.file.Some? ==> st.transfers != []
    ensures Explains(setup, seen + [msg], OnBinary(st, msg.data))
  {
    var hs, now := Headers(setup, seen), seen + [msg];
    HeadersAfter(setup, seen, msg);
    assert Headers(setup, now) == hs;
    forall j | 0 <= j < |hs| - 1
      ensures ClosedAt(seen, hs[j])
    {
      EarlierClosed(setup, seen, j);
    }
    if hs == [] || ClosedAt(seen, hs[|hs| - 1]) {
      StrayBinaryExplained(setup, seen, msg, hs);
    } else {
      ForwardedBinaryExplained(setup, seen, st, msg, hs);
    }
  }

  lemma {:induction false} ForwardedBinaryExplained(setup: Setup, seen: seq<Message>, st: Receiver, msg: Message,
                                                    hs: seq<nat>)
    requires msg.Binary? && AreHeaders(setup, seen, hs) && hs != [] && !ClosedAt(seen, hs[|hs| - 1])
    requires forall j :: 0 <= j < |hs| - 1 ==> ClosedAt(seen, hs[j])
    requires st.transfers == Transfers(setup, seen, hs) && st.file == OpenAt(setup, seen, hs)
    ensures var now, next := seen + [msg], OnBinary(st, msg.data);
            && next.transfers == Transfers(setup, now, hs)
            && next.replies == st.replies && Answered(setup, now, hs) == Answered(setup, seen, hs)
            && next.file == OpenAt(setup, now, hs)
  {
    var n := |hs| - 1;
    StrayBinaryExplained(setup, seen, msg, hs[..n]);
    LastFileExplained(setup, seen, msg, hs[n]);
    SplitLast(setup, seen, hs);
    SplitLast(setup, seen + [msg], hs);
    OpenBinaryExplained(setup, seen, st, msg, hs);
  }

  lemma {:induction false} OpenBinaryExplained(setup: Setup, seen: seq<Message>, st: Receiver, msg: Message,
                                               hs: seq<nat>)
    requires msg.Binary? && AreHeaders(setup, seen, hs) && AreHeaders(setup, seen + [msg], hs) && hs != []
    requires st.file == OpenAt(setup, seen, hs) && st.transfers != []
    requires var n, now := |hs| - 1, seen + [msg];
             var h := hs[n];
             var size, received := HeaderIn(setup, seen[h]).value.size, Total(BinaryRun(seen, h + 1));
             && !ClosedAt(seen, h) && !ClosedAt(now, h) && HeaderIn(setup, now[h]) == HeaderIn(setup, seen[h])
             && Total(BinaryRun(now, h + 1)) == received + |msg.data|
    ensures var h := hs[|hs| - 1];
            var size, received := HeaderIn(setup, seen[h]).value.size, Total(BinaryRun(seen, h + 1));
            var next := OnBinary(st, msg.data);
            && next.file == OpenAt(setup, seen + [msg], hs) && next.replies == st.replies
            && next.transfers == if received + |msg.data| <= size then Forward(st.transfers, msg.data) else st.transfers
  {
  }

  /** How much of `msgs` the loop reads before it ends. */
  function Read(setup: Setup, st: Receiver, msgs: seq<Message>): (n: nat)
    requires st.file.Some? ==> st.transfers != []
    ensures n <= |msgs|
    decreases msgs
  {
    if msgs == [] || st.run != Running then 0
    else 1 + Read(setup, OnMessage(setup, st, msgs[0]), msgs[1..])
  }

  lemma {:induction false} MessageExplained(setup: Setup, seen: seq<Message>, st: Receiver, msg: Message)
    requires Faithful(setup.codec) && Explains(setup, seen, st) && (st.file.Some? ==> st.transfers != [])
    ensures Explains(setup, seen + [msg], OnMessage(setup, st, msg))
  {
    if msg.Text? {
      TextExplained(setup, seen, st, msg);
    } else {
      BinaryExplained(setup, seen, st, msg);
    }
  }

  // ----- Errors, and the end of the loop -----

  /** The file that is open once `seen` is read. */
  function OpenAfter(setup: Setup, seen: seq<Message>): Option<FileState> {
    OpenAt(setup, seen, Headers(setup, seen))
  }

  /** What is wrong with a message that follows `seen`: a header of a file that
      was not selected, has another token or no known size, or a binary that
      belongs to no file or is too many bytes for the open one. */
  function ErrorAt(setup: Setup, seen: seq<Message>, msg: Message): seq<FileError> {
    match msg
    case Text(data) =>
      if OpenAfter(setup, seen).Some? && |msg.data| <= 1 then []
      else (match setup.codec.decode(data)
            case Some(FileHeader(id, token)) =>
              if id !in setup.tokens then [FileError(id, FileNotFound)]
              else if token != setup.tokens[id] then [FileError(id, InvalidToken)]
              else if SizeOf(setup.files, id).None? then [FileError(id, SizeUnknown)]
              else []
            case _ => [])
    case Binary(data) =>
      match OpenAfter(setup, seen)
      case None => [FileError("unknown", NoHeader)]
      case Some(file) => if file.received + |data| > file.size then [FileError(file.fileId, TooManyBytes)] else []
  }

  function ErrorsIn(setup: Setup, seen: seq<Message>): seq<FileError> {
    if seen == [] then []
    else
      var n := |seen| - 1;
      ErrorsIn(setup, seen[..n]) + ErrorAt(setup, seen[..n], seen[n])
  }

  /** A text of at most one byte behind an open file is the clean end; any other
      text has to be a header. */
  function RunAt(setup: Setup, seen: seq<Message>, msg: Message): Run {
    if msg.Binary? then Running
    else if OpenAfter(setup, seen).Some? && |msg.data| <= 1 then Finished
    else if setup.codec.decode(msg.data).Some? && setup.codec.decode(msg.data).value.FileHeader? then Running
    else Aborted
  }

  function RunIn(setup: Setup, seen: seq<Message>): Run {
    if seen == [] then Running else RunAt(setup, seen[..|seen| - 1], seen[|seen| - 1])
  }

  predicate EndExplained(setup: Setup, seen: seq<Message>, st: Receiver) {
    && Explains(setup, seen, st)
    && st.errors == ErrorsIn(setup, seen)
    && st.run == RunIn(setup, seen)
  }

  lemma {:induction false} OneMessageEnds(setup: Setup, seen: seq<Message>, st: Receiver, msg: Message)
    requires Faithful(setup.codec) && st.run == Running && st.file == OpenAfter(setup, seen)
    requires st.file.Some? ==> st.transfers != []
    ensures OnMessage(setup, st, msg).errors == st.errors + ErrorAt(setup, seen, msg)
    ensures OnMessage(setup, st, msg).run == RunAt(setup, seen, msg)
  {
    assert st.errors + [] == st.errors;
  }

  lemma {:induction false} EndStaysExplained(setup: Setup, seen: seq<Message>, st: Receiver, msg: Message)
    requires Faithful(setup.codec) && EndExplained(setup, seen, st) && st.run == Running
    requires st.file.Some? ==> st.transfers != []
    ensures EndExplained(setup, seen + [msg], OnMessage(setup, st, msg))
  {
    MessageExplained(setup, seen, st, msg);
    OneMessageEnds(setup, seen, st, msg);
    assert (seen + [msg])[..|seen|] == seen;
  }

  /** What every message keeps, every stream keeps. */
  lemma {:induction false} ReceiveKeeps(setup: Setup, inv: (seq<Message>, Receiver) -> bool, seen: seq<Message>,
                                        st: Receiver, msgs: seq<Message>)
    requires forall s, r, m {:trigger inv(s + [m], OnMessage(setup, r, m))} ::
               inv(s, r) && r.run == Running && (r.file.Some? ==> r.transfers != []) ==>
                 inv(s + [m], OnMessage(setup, r, m))
    requires inv(seen, st) && (st.file.Some? ==> st.transfers != [])
    ensures inv(seen + msgs[..Read(setup, st, msgs)], Receive(setup, st, msgs))
    decreases msgs
  {
    if msgs == [] || st.run != Running {
      assert seen + msgs[..0] == seen;
    } else {
      var next := OnMessage(setup, st, msgs[0]);
      assert inv(seen + [msgs[0]], next);
      ReceiveKeeps(setup, inv, seen + [msgs[0]], next, msgs[1..]);
      var n := Read(setup, next, msgs[1..]);
      assert seen + [msgs[0]] + msgs[1..][..n] == seen + msgs[..n + 1];
    }
  }

  lemma {:induction false} StreamExplained(setup: Setup, msgs: seq<Message>)
    requires Faithful(setup.codec)
    ensures EndExplained(setup, msgs[..Read(setup, START, msgs)], Receive(setup, START, msgs))
  {
    assert EndExplained(setup, [], START);
    var inv := (seen, st) => EndExplained(setup, seen, st);
    forall seen, st: Receiver, msg | inv(seen, st) && st.run == Running && (st.file.Some? ==> st.transfers != [])
      ensures inv(seen + [msg], OnMessage(setup, st, msg))
    {
      EndStaysExplained(setup, seen, st, msg);
    }
    ReceiveKeeps(setup, inv, [], START, msgs);
    assert [] + msgs[..Read(setup, START, msgs)] == msgs[..Read(setup, START, msgs)];
  }

  lemma {:induction false} ReadsOnWhileRunning(setup: Setup, st: Receiver, msgs: seq<Message>)
    requires st.file.Some? ==> st.transfers != []
    ensures Receive(setup, st, msgs).run == Running ==> Read(setup, st, msgs) == |msgs|
    decreases msgs
  {
    if msgs != [] && st.run == Running {
      ReadsOnWhileRunning(setup, OnMessage(setup, st, msgs[0]), msgs[1..]);
    }
  }

  /** Whatever arrives, the files opened are exactly the valid headers read,
      each gets exactly the payload after its header up to its declared size,
      and exactly those closed by a later text within that size are answered,
      in order, each with its own result. */
  lemma {:induction false} ReceiverOnAnyInput(setup: Setup, msgs: seq<Message>)
    requires Faithful(setup.codec)
    ensures var seen := msgs[..Read(setup, START, msgs)];
            var end := Receive(setup, START, msgs);
            var hs := Headers(setup, seen);
            var answered := Answered(setup, seen, hs);
            && end.transfers == Transfers(setup, seen, hs)
            && |end.replies| == |answered|
            && forall k :: 0 <= k < |answered| ==> Reports(end.replies[k], answered[k], setup.results, k)
  {
    StreamExplained(setup, msgs);
  }

  /** Whatever arrives: each message read that fits nowhere is reported as what
      it is, in order and nothing else, and the loop stops at the first text
      message that is no header, which is a clean end if it is a delimiter behind
      an open file, and otherwise reads everything. */
  lemma {:induction false} EndOnAnyInput(setup: Setup, msgs: seq<Message>)
    requires Faithful(setup.codec)
    ensures var n, end := Read(setup, START, msgs), Receive(setup, START, msgs);
            && end.errors == ErrorsIn(setup, msgs[..n])
            && end.run == RunIn(setup, msgs[..n])
            && (end.run == Running ==> n == |msgs|)
  {
    StreamExplained(setup, msgs);
    ReadsOnWhileRunning(setup, START, msgs);
  }

  lemma {:induction false} FitIsPrefix(chunks: seq<Bytes>, room: nat)
    ensures Fit(chunks, room) <= chunks && Total(Fit(chunks, room)) <= room
  {
    if chunks != [] && |chunks[0]| <= room {
      FitIsPrefix(chunks[1..], room - |chunks[0]|);
    }
  }

  /** No file is opened that was not selected or came with a wrong token, and
      none is handed more than its declared size or anything but the binaries
      right behind its header. */
  lemma {:induction false} OnlySelectedWithinSize(setup: Setup, msgs: seq<Message>, j: nat)
    requires Faithful(setup.codec) && j < |Receive(setup, START, msgs).transfers|
    ensures var t := Receive(setup, START, msgs).transfers[j];
            exists h: nat, size: nat ::
              && h + |t.chunks| < |msgs|
              && t.fileId in setup.tokens && SizeOf(setup.files, t.fileId) == Some(size)
              && msgs[h].Text? && setup.codec.decode(msgs[h].data) == Some(FileHeader(t.fileId, setup.tokens[t.fileId]))
              && msgs[h + 1..h + 1 + |t.chunks|] == AsBinary(t.chunks)
              && Total(t.chunks) <= size
  {
    var h, n := SourceOf(setup, msgs, j);
    var t := Receive(setup, START, msgs).transfers[j];
    TransferIsJustified(setup, msgs[..n], h);
    SliceOfPrefix(msgs, n, h + 1, h + 1 + |t.chunks|);
  }

  lemma {:induction false} SliceOfPrefix(msgs: seq<Message>, n: nat, from: nat, to: nat)
    requires from <= to <= n <= |msgs|
    ensures msgs[..n][from..to] == msgs[from..to]
  {
  }

  lemma {:induction false} SourceOf(setup: Setup, msgs: seq<Message>, j: nat) returns (h: nat, n: nat)
    requires Faithful(setup.codec) && j < |Receive(setup, START, msgs).transfers|
    ensures h < n <= |msgs| && HeaderIn(setup, msgs[h]).Some?
    ensures Receive(setup, START, msgs).transfers[j] == TransferAt(setup, msgs[..n], h)
  {
    ReceiverOnAnyInput(setup, msgs);
    n := Read(setup, START, msgs);
    h := Headers(setup, msgs[..n])[j];
  }

  lemma {:induction false} TransferIsJustified(setup: Setup, seen: seq<Message>, h: nat)
    requires h < |seen| && HeaderIn(setup, seen[h]).Some?
    ensures var t, size := TransferAt(setup, seen, h), HeaderIn(setup, seen[h]).value.size;
            && h + |t.chunks| < |seen|
            && t.fileId in setup.tokens && SizeOf(setup.files, t.fileId) == Some(size)
            && seen[h].Text? && setup.codec.decode(seen[h].data) == Some(FileHeader(t.fileId, setup.tokens[t.fileId]))
            && seen[h + 1..h + 1 + |t.chunks|] == AsBinary(t.chunks)
            && Total(t.chunks) <= size
  {
    var run, size := BinaryRun(seen, h + 1), HeaderIn(setup, seen[h]).value.size;
    var chunks := Fit(run, size);
    FitIsPrefix(run, size);
    RunIsBinary(seen, h + 1);
    assert seen[h + 1..h + 1 + |chunks|] == seen[h + 1..h + 1 + |run|][..|chunks|];
    assert AsBinary(chunks) == AsBinary(run)[..|chunks|];
  }
}
