/** The last phase of a transfer: the loop that streams the files and the loop
    that takes them apart again. */
module FileStream {
  import opened Options
  import opened Framing
  import opened Wire

  datatype FileState = FileState(fileId: string, size: nat, received: nat)

  /** What the receiving app gets to see of one file: its id and the binaries
      handed to it, in order. */
  datatype Transfer = Transfer(fileId: string, chunks: seq<Bytes>)

  datatype ErrorKind = InvalidToken | FileNotFound | SizeUnknown | TooManyBytes | NoHeader

  datatype FileError = FileError(fileId: string, kind: ErrorKind)

  /** The app's verdict on a file it received. */
  datatype FileResult = FileResult(success: bool, error: Option<string>)

  datatype Run = Running | Finished | Aborted

  /** What the loop starts from: the offered files, the tokens issued for the
      selected ones, and the results the app will report. */
  datatype Setup = Setup(codec: Codec, files: seq<FileDto>, tokens: map<string, string>, results: seq<FileResult>)

  datatype Receiver = Receiver(
    file: Option<FileState>, transfers: seq<Transfer>, replies: seq<Payload>, errors: seq<FileError>, run: Run)

  const START: Receiver := Receiver(None, [], [], [], Running)

  function SizeOf(files: seq<FileDto>, id: string): Option<nat> {
    if files == [] then None
    else if files[0].id == id then Some(files[0].size)
    else SizeOf(files[1..], id)
  }

  /** The reply to a file, given how many results the app has reported before. */
  function ReplyFor(results: seq<FileResult>, id: string, k: nat): (reply: Payload)
    ensures Reports(reply, id, results, k)
  {
    var error :=
      if k >= |results| then Some("Failed to receive file result")
      else if results[k].success then None
      else if results[k].error.Some? then results[k].error
      else Some("Unknown error");
    FileStatus(id, error.None?, error)
  }

  /** The reply reports the `k`-th result, or that there is none. */
  predicate Reports(reply: Payload, id: string, results: seq<FileResult>, k: nat) {
    && reply.FileStatus? && reply.id == id
    && (reply.success <==> k < |results| && results[k].success)
    && (reply.success ==> reply.error == None)
    && (k < |results| && !results[k].success && results[k].error.Some? ==> reply.error == results[k].error)
    && (k < |results| && !results[k].success && results[k].error.None? ==> reply.error == Some("Unknown error"))
    && (k >= |results| ==> reply.error == Some("Failed to receive file result"))
  }

  function CloseFile(setup: Setup, st: Receiver): Receiver {
    match st.file
    case None => st
    case Some(file) => st.(file := None, replies := st.replies + [ReplyFor(setup.results, file.fileId, |st.replies|)])
  }

  function Report(st: Receiver, id: string, kind: ErrorKind): Receiver {
    st.(errors := st.errors + [FileError(id, kind)])
  }

  function OpenFile(setup: Setup, st: Receiver, id: string, token: string): Receiver {
    if id !in setup.tokens then Report(st, id, FileNotFound)
    else if setup.tokens[id] != token then Report(st, id, InvalidToken)
    else match SizeOf(setup.files, id)
      case None => Report(st, id, SizeUnknown)
      case Some(size) => st.(file := Some(FileState(id, size, 0)), transfers := st.transfers + [Transfer(id, [])])
  }

  function OnText(setup: Setup, st: Receiver, msg: Message): Receiver {
    var closed := CloseFile(setup, st);
    if st.file.Some? && IsDelimiter(msg) then closed.(run := Finished)
    else match setup.codec.decode(msg.data)
      case Some(FileHeader(id, token)) => OpenFile(setup, closed, id, token)
      case _ => closed.(run := Aborted)
  }

  function Forward(transfers: seq<Transfer>, data: Bytes): seq<Transfer>
    requires transfers != []
  {
    var last := |transfers| - 1;
    transfers[last := transfers[last].(chunks := transfers[last].chunks + [data])]
  }

  function OnBinary(st: Receiver, data: Bytes): Receiver
    requires st.file.Some? ==> st.transfers != []
  {
    match st.file
    case None => Report(st, "unknown", NoHeader)
    case Some(file) =>
      var received := file.received + |data|;
      if received > file.size then Report(st, file.fileId, TooManyBytes).(file := None)
      else st.(file := Some(file.(received := received)), transfers := Forward(st.transfers, data))
  }

  function OnMessage(setup: Setup, st: Receiver, msg: Message): (r: Receiver)
    requires st.file.Some? ==> st.transfers != []
    ensures r.file.Some? ==> r.transfers != []
  {
    if msg.Text? then OnText(setup, st, msg) else OnBinary(st, msg.data)
  }

  /** The loop on a whole stream; whatever follows its end is not read. */
  function Receive(setup: Setup, st: Receiver, msgs: seq<Message>): (r: Receiver)
    requires st.file.Some? ==> st.transfers != []
    ensures r.file.Some? ==> r.transfers != []
    decreases msgs
  {
    if msgs == [] || st.run != Running then st
    else Receive(setup, OnMessage(setup, st, msgs[0]), msgs[1..])
  }

  /** The receive loop, message by message. */
  method ReceiveFiles(setup: Setup, inbox: Inbox) returns (end: Receiver)
    modifies inbox
    ensures end == Receive(setup, START, old(inbox.pending))
  {
    var fileState: Option<FileState> := None;
    var transfers: seq<Transfer>, replies: seq<Payload>, errors: seq<FileError> := [], [], [];
    ghost var all := Receive(setup, START, inbox.pending);
    while true
      invariant fileState.Some? ==> transfers != []
      invariant all == Receive(setup, Receiver(fileState, transfers, replies, errors, Running), inbox.pending)
      decreases |inbox.pending|
    {
      var next := inbox.Recv();
      if next.None? {
        return Receiver(fileState, transfers, replies, errors, Running);
      }
      var msg := next.value;
      if msg.Text? {
        var lastFile := fileState;
        fileState := None;
        if lastFile.Some? {
          replies := replies + [ReplyFor(setup.results, lastFile.value.fileId, |replies|)];
          if IsDelimiter(msg) {
            return Receiver(None, transfers, replies, errors, Finished);
          }
        }
        var header := setup.codec.decode(msg.data);
        if header.None? || !header.value.FileHeader? {
          return Receiver(None, transfers, replies, errors, Aborted);
        }
        var id := header.value.id;
        if id !in setup.tokens {
          errors := errors + [FileError(id, FileNotFound)];
          continue;
        }
        if setup.tokens[id] != header.value.headerToken {
          errors := errors + [FileError(id, InvalidToken)];
          continue;
        }
        var size := SizeOf(setup.files, id);
        if size.None? {
          errors := errors + [FileError(id, SizeUnknown)];
          continue;
        }
        fileState := Some(FileState(id, size.value, 0));
        transfers := transfers + [Transfer(id, [])];
      } else if fileState.None? {
        errors := errors + [FileError("unknown", NoHeader)];
      } else {
        var file := fileState.value;
        file := file.(received := file.received + |msg.data|);
        if file.received > file.size {
          errors := errors + [FileError(file.fileId, TooManyBytes)];
          fileState := None;
          continue;
        }
        fileState := Some(file);
        transfers := Forward(transfers, msg.data);
      }
    }
  }
}
