/** When the summary of a session can come before its last result, exactly. */
module EarlySummaries {
  import opened Options
  import opened ReceiveSession
  import opened ReceiveAccounting

  /** Nothing but ends and results: the session is only being wound up. */
  predicate IsClosing(events: seq<Event>) {
    forall i :: 0 <= i < |events| ==> events[i].End? || events[i].Result?
  }

  /** However the session is wound up, its end summary is complete. */
  ghost predicate ClosesSettled(w: World, s: SessionId) {
    forall events :: Follows(w, events) && IsClosing(events) ==> LogSettled(After(w, events), s)
  }

  lemma {:induction false} ClosingUploadsNothing(w: World, events: seq<Event>)
    requires IsClosing(events)
    ensures NeverTwice(w, events)
    decreases |events|
  {
    if events != [] {
      assert events[0].End? || events[0].Result?;
      ClosingUploadsNothing(Next(w, events[0]), events[1..]);
    }
  }

  lemma {:induction false} ExactClosesSettled(w: World, s: SessionId)
    requires IsActive(w.app, s) && Consistent(w, s) && IsExact(w, w.app.receive.value)
    ensures ClosesSettled(w, s)
  {
    NoSummaryOf(w.app.log, s);
    forall events | Follows(w, events) && IsClosing(events) ensures LogSettled(After(w, events), s) {
      ClosingUploadsNothing(w, events);
      RunKeeps(w, events, s);
    }
  }

  lemma {:induction false} OneEvent(w: World, event: Event)
    requires Allowed(w, event)
    ensures Follows(w, [event]) && After(w, [event]) == Next(w, event)
  {
    assert [event][1..] == [];
  }

  /** A summary logged while a result is outstanding is not complete. */
  lemma {:induction false} SummaryTooEarly(w: World, event: Event, session: Session)
    requires IsDone(session) && Next(w, event).app == Continued(w.app, session)
    requires Outstanding(Next(w, event), session.sessionId) != multiset{}
    ensures !LogSettled(Next(w, event), session.sessionId)
  {
    var log := Next(w, event).app.log;
    assert log[|log| - 1] == SummaryOf(session);
  }

  /** With a result outstanding that no file in progress stands for, reporting
      the results of the files in progress, and the end, prints the summary. */
  lemma {:induction false} WindUp(w: World, s: SessionId) returns (events: seq<Event>)
    requires IsActive(w.app, s) && Consistent(w, s) && !IsExact(w, w.app.receive.value)
    ensures Follows(w, events) && IsClosing(events) && !LogSettled(After(w, events), s)
    decreases |w.app.receive.value.inProgress|
  {
    var session := w.app.receive.value;
    if session.inProgress == {} {
      var event := End(s, Finished);
      OneEvent(w, event);
      SummaryTooEarly(w, event, session.(ended := Some(Finished)));
      return [event];
    }
    var fileId :| fileId in session.inProgress;
    var event := Result(Report(s, fileId, true));
    var after := Resulted(session, fileId, true);
    TakeOne(Outstanding(w, s), session.inProgress, fileId);
    if IsDone(after) {
      OneEvent(w, event);
      SummaryTooEarly(w, event, after);
      return [event];
    }
    StepKeeps(w, event, s);
    var rest := WindUp(Next(w, event), s);
    events := [event] + rest;
    assert events[1..] == rest;
  }

  /** In every world a run can reach, double uploads included: however the
      session is wound up its summary is complete, if and only if the files in
      progress are exactly the outstanding results. */
  lemma {:induction false} SummaryCompleteExactly(run: seq<Event>, s: SessionId)
    requires Follows(START, run) && IsActive(After(START, run).app, s)
    ensures var w := After(START, run);
      ClosesSettled(w, s) <==> Outstanding(w, s) == multiset(w.app.receive.value.inProgress)
  {
    var w := After(START, run);
    RunsAreConsistent(run, s);
    if IsExact(w, w.app.receive.value) {
      ExactClosesSettled(w, s);
    } else {
      var events := WindUp(w, s);
    }
  }

  /** A second upload of a file whose result is outstanding always makes an
      early summary possible. */
  lemma {:induction false} DoubleUploadIsSummarisedEarly(run: seq<Event>, s: SessionId, fileId: FileId)
    requires Follows(START, run) && IsActive(After(START, run).app, s) && fileId in Outstanding(After(START, run), s)
    ensures !ClosesSettled(Next(After(START, run), Upload(s, fileId)), s)
  {
    var w := After(START, run);
    RunsAreConsistent(run, s);
    var next := Next(w, Upload(s, fileId));
    StepKeeps(w, Upload(s, fileId), s);
    assert Outstanding(next, s)[fileId] >= 2;
    assert multiset(next.app.receive.value.inProgress)[fileId] <= 1;
    var events := WindUp(next, s);
  }

  /** Such a run: the retry of a failed upload is handed out before the first
      result arrives, and the end before the second. */
  function Retried(s: SessionId, files: Files, fileId: FileId): seq<Event> {
    [Prepare(s, files, true, true)] + TwoUploads(s, fileId)
  }

  function TwoUploads(s: SessionId, fileId: FileId): seq<Event> {
    [Upload(s, fileId)] + ([Upload(s, fileId)] + FailedThenEnd(s, fileId))
  }

  function FailedThenEnd(s: SessionId, fileId: FileId): seq<Event> {
    [Result(Report(s, fileId, false))] + [End(s, Finished)]
  }

  lemma {:induction false} FirstEvent(w: World, event: Event, rest: seq<Event>)
    requires Allowed(w, event)
    ensures Follows(w, [event] + rest) == Follows(Next(w, event), rest)
    ensures After(w, [event] + rest) == After(Next(w, event), rest)
  {
    assert ([event] + rest)[1..] == rest;
  }

  lemma {:induction false} FailureEndsEarly(w: World, s: SessionId, files: Files, fileId: FileId)
    requires w.app == AppState(Some(Uploading(NewSession(s, files), fileId)), None, [])
    requires Outstanding(w, s) == multiset{fileId, fileId}
    ensures var events := FailedThenEnd(s, fileId);
      && Follows(w, events)
      && After(w, events).app == AppState(None, None, [Ended(s, Finished, 0, 1, 0)])
      && Outstanding(After(w, events), s) == multiset{fileId}
  {
    var failed := Resulted(Uploading(NewSession(s, files), fileId), fileId, false);
    assert failed.inProgress == {};
    var next := Next(w, Result(Report(s, fileId, false)));
    assert next.app.receive == Some(failed);
    FirstEvent(w, Result(Report(s, fileId, false)), [End(s, Finished)]);
    OneEvent(next, End(s, Finished));
  }

  lemma {:induction false} TwoUploadsEndEarly(w: World, s: SessionId, files: Files, fileId: FileId)
    requires w.app == AppState(Some(NewSession(s, files)), None, []) && Outstanding(w, s) == multiset{}
    ensures var events := TwoUploads(s, fileId);
      && Follows(w, events)
      && After(w, events).app == AppState(None, None, [Ended(s, Finished, 0, 1, 0)])
      && Outstanding(After(w, events), s) == multiset{fileId}
  {
    var upload, once := Upload(s, fileId), Uploading(NewSession(s, files), fileId);
    assert Uploading(once, fileId) == once;
    FirstEvent(w, upload, [upload] + FailedThenEnd(s, fileId));
    FirstEvent(Next(w, upload), upload, FailedThenEnd(s, fileId));
    FailureEndsEarly(Next(Next(w, upload), upload), s, files, fileId);
  }

  /** The session is summarised as one failed file, although the retry's result
      is still to come; when it does come it is dropped. */
  lemma {:induction false} RetryIsCountedAsFailed(s: SessionId, files: Files, fileId: FileId)
    requires !IsMessage(files)
    ensures Follows(START, Retried(s, files, fileId))
    ensures var w := After(START, Retried(s, files, fileId));
      && w.app == AppState(None, None, [Ended(s, Finished, 0, 1, 0)])
      && Outstanding(w, s) == multiset{fileId} && Allowed(w, Result(Report(s, fileId, true)))
      && Next(w, Result(Report(s, fileId, true))).app == w.app
  {
    var prepare := Prepare(s, files, true, true);
    FirstEvent(START, prepare, TwoUploads(s, fileId));
    TwoUploadsEndEarly(Next(START, prepare), s, files, fileId);
  }
}
