/** The receiving app: the request waiting for an answer, the active session
    with its counters, and the summaries it prints. */
module ReceiveSession {
  import opened Options

  type SessionId = string
  type FileId = string

  datatype FileDto = FileDto(fileType: string, size: nat, preview: Option<string>)
  type Files = map<FileId, FileDto>

  datatype Reason = Finished | CancelledBySender

  datatype Pending = Pending(sessionId: SessionId, files: Files)

  datatype Session = Session(
    sessionId: SessionId, files: Files, finishedFiles: nat, failedFiles: nat, finalizedBytes: nat,
    inProgress: set<FileId>, ended: Option<Reason>)

  datatype Summary =
    | Ended(sessionId: SessionId, reason: Reason, finishedFiles: nat, failedFiles: nat, bytes: nat)
    | CancelledHere(sessionId: SessionId, finishedFiles: nat)

  datatype Answer = Accept | Decline | AcceptAndPair

  datatype AppState = AppState(receive: Option<Session>, pending: Option<Pending>, log: seq<Summary>)

  function NewSession(sessionId: SessionId, files: Files): Session {
    Session(sessionId, files, 0, 0, 0, {}, None)
  }

  predicate IsText(fileType: string) {
    fileType == "text" || "text/" <= fileType
  }

  /** A single text file whose content came along as a preview: nothing is
      left to transfer, and no session is started. */
  predicate IsMessage(files: Files) {
    |files| == 1 && exists id | id in files :: IsText(files[id].fileType) && files[id].preview.Some?
  }

  // ---- what the handlers do ----

  predicate IsActive(app: AppState, sessionId: SessionId) {
    app.receive.Some? && app.receive.value.sessionId == sessionId
  }

  predicate IsPending(app: AppState, sessionId: SessionId) {
    app.pending.Some? && app.pending.value.sessionId == sessionId
  }

  /** `delivered`: the decision still reached the server. */
  function Prepared(app: AppState, sessionId: SessionId, files: Files, paired: bool, delivered: bool): AppState {
    if IsMessage(files) then app
    else if !paired then app.(pending := Some(Pending(sessionId, files)))
    else if delivered then app.(receive := Some(NewSession(sessionId, files)))
    else app
  }

  function Answered(app: AppState, answer: Answer, delivered: bool): AppState {
    match app.pending
    case None => app
    case Some(pending) =>
      var receive := if answer.Decline? || !delivered then app.receive
        else Some(NewSession(pending.sessionId, pending.files));
      AppState(receive, None, app.log)
  }

  function Aborted(app: AppState, sessionId: SessionId): AppState {
    if IsPending(app, sessionId) then app.(pending := None) else app
  }

  function Uploading(session: Session, fileId: FileId): Session {
    session.(inProgress := session.inProgress + {fileId})
  }

  function Resulted(session: Session, fileId: FileId, ok: bool): Session {
    var size := if fileId in session.files then session.files[fileId].size else 0;
    if ok then
      session.(inProgress := session.inProgress - {fileId}, finishedFiles := session.finishedFiles + 1,
               finalizedBytes := session.finalizedBytes + size)
    else
      session.(inProgress := session.inProgress - {fileId}, failedFiles := session.failedFiles + 1)
  }

  predicate IsDone(session: Session) {
    session.ended.Some? && session.inProgress == {}
  }

  function SummaryOf(session: Session): Summary
    requires session.ended.Some?
  {
    Ended(session.sessionId, session.ended.value, session.finishedFiles, session.failedFiles, session.finalizedBytes)
  }

  /** The active session goes on as `session`, or ends with its summary. */
  function Continued(app: AppState, session: Session): AppState {
    if IsDone(session) then AppState(None, app.pending, app.log + [SummaryOf(session)])
    else AppState(Some(session), app.pending, app.log)
  }

  function Uploaded(app: AppState, sessionId: SessionId, fileId: FileId): AppState {
    if IsActive(app, sessionId) then app.(receive := Some(Uploading(app.receive.value, fileId))) else app
  }

  function FileResult(app: AppState, sessionId: SessionId, fileId: FileId, ok: bool): AppState {
    if IsActive(app, sessionId) then Continued(app, Resulted(app.receive.value, fileId, ok)) else app
  }

  function SessionEnded(app: AppState, sessionId: SessionId, reason: Reason): AppState {
    if IsActive(app, sessionId) then Continued(app, app.receive.value.(ended := Some(reason))) else app
  }

  function CancelledReceive(app: AppState): AppState {
    match app.receive
    case None => app
    case Some(session) =>
      AppState(None, app.pending, app.log + [CancelledHere(session.sessionId, session.finishedFiles)])
  }

  // ---- the handlers ----

  class App {
    var receive: Option<Session>
    var pending: Option<Pending>
    var log: seq<Summary>

    function Now(): AppState
      reads this
    {
      AppState(receive, pending, log)
    }

    constructor ()
      ensures Now() == AppState(None, None, [])
    {
      receive, pending, log := None, None, [];
    }

    method HandlePrepareUpload(sessionId: SessionId, files: Files, paired: bool, delivered: bool)
      modifies this
      ensures Now() == Prepared(old(Now()), sessionId, files, paired, delivered)
    {
      if IsMessage(files) {
        return;
      }
      if paired {
        if delivered {
          receive := Some(NewSession(sessionId, files));
        }
      } else {
        pending := Some(Pending(sessionId, files));
      }
    }

    method AnswerPending(answer: Answer, delivered: bool)
      modifies this
      ensures Now() == Answered(old(Now()), answer, delivered)
    {
      if pending.None? {
        return;
      }
      var request := pending.value;
      pending := None;
      if answer.Decline? {
        return;
      }
      if !delivered {
        return;
      }
      receive := Some(NewSession(request.sessionId, request.files));
    }

    method HandlePrepareUploadAborted(sessionId: SessionId)
      modifies this
      ensures Now() == Aborted(old(Now()), sessionId)
    {
      if pending.Some? && pending.value.sessionId == sessionId {
        pending := None;
      }
    }

    /** `accepted`: a target was handed out, so a result will be reported. */
    method HandleFileUpload(sessionId: SessionId, fileId: FileId) returns (accepted: bool)
      modifies this
      ensures Now() == Uploaded(old(Now()), sessionId, fileId)
      ensures accepted == IsActive(old(Now()), sessionId)
    {
      if receive.None? || receive.value.sessionId != sessionId {
        return false;
      }
      receive := Some(receive.value.(inProgress := receive.value.inProgress + {fileId}));
      accepted := true;
    }

    method ReceiveFileResult(sessionId: SessionId, fileId: FileId, ok: bool)
      modifies this
      ensures Now() == FileResult(old(Now()), sessionId, fileId, ok)
    {
      if receive.None? || receive.value.sessionId != sessionId {
        return;
      }
      var session := receive.value.(inProgress := receive.value.inProgress - {fileId});
      if ok {
        var size := if fileId in session.files then session.files[fileId].size else 0;
        session := session.(finishedFiles := session.finishedFiles + 1,
                                  finalizedBytes := session.finalizedBytes + size);
      } else {
        session := session.(failedFiles := session.failedFiles + 1);
      }
      receive := Some(session);
      FinishReceiveIfDone();
    }

    method HandleSessionEnd(sessionId: SessionId, reason: Reason)
      modifies this
      ensures Now() == SessionEnded(old(Now()), sessionId, reason)
    {
      if receive.None? || receive.value.sessionId != sessionId {
        return;
      }
      receive := Some(receive.value.(ended := Some(reason)));
      FinishReceiveIfDone();
    }

    method FinishReceiveIfDone()
      modifies this
      ensures Now() == if old(receive).Some? then Continued(old(Now()), old(receive).value) else old(Now())
    {
      if receive.None? || receive.value.ended.None? || receive.value.inProgress != {} {
        return;
      }
      var session := receive.value;
      receive := None;
      log := log + [SummaryOf(session)];
    }

    method CancelReceive()
      modifies this
      ensures Now() == CancelledReceive(old(Now()))
    {
      if receive.None? {
        return;
      }
      var session := receive.value;
      receive := None;
      log := log + [CancelledHere(session.sessionId, session.finishedFiles)];
    }
  }
}
