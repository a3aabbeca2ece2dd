/** The app's counters against everything that really happened: uploads handed
    out, results reported, and results still to come. */
module ReceiveAccounting {
  import opened Options
  import opened ReceiveSession

  datatype Report = Report(sessionId: SessionId, fileId: FileId, ok: bool)

  datatype Event =
    | Prepare(sessionId: SessionId, files: Files, paired: bool, delivered: bool)
    | Decide(answer: Answer, delivered: bool)
    | Abort(sessionId: SessionId)
    | Upload(sessionId: SessionId, fileId: FileId)
    | Result(report: Report)
    | End(sessionId: SessionId, reason: Reason)
    | Cancel

  /** The app and its surroundings: the files of each request, the uploads
      handed out, the result reports on their way and those delivered, and the
      ends reported of active sessions, of each the last. */
  datatype World = World(
    app: AppState, offered: map<SessionId, Files>, handedOut: map<SessionId, nat>,
    outstanding: map<SessionId, multiset<FileId>>, reports: seq<Report>,
    ends: map<SessionId, Reason>)

  function HandedOut(w: World, s: SessionId): nat {
    if s in w.handedOut then w.handedOut[s] else 0
  }

  function Outstanding(w: World, s: SessionId): multiset<FileId> {
    if s in w.outstanding then w.outstanding[s] else multiset{}
  }

  function EndOf(w: World, s: SessionId): Option<Reason> {
    if s in w.ends then Some(w.ends[s]) else None
  }

  function Next(w: World, event: Event): World {
    match event
    case Prepare(s, files, paired, delivered) =>
      w.(app := Prepared(w.app, s, files, paired, delivered), offered := w.offered[s := files])
    case Decide(answer, delivered) => w.(app := Answered(w.app, answer, delivered))
    case Abort(s) => w.(app := Aborted(w.app, s))
    case Upload(s, fileId) =>
      if IsActive(w.app, s) then
        w.(app := Uploaded(w.app, s, fileId), handedOut := w.handedOut[s := HandedOut(w, s) + 1],
           outstanding := w.outstanding[s := Outstanding(w, s) + multiset{fileId}])
      else w.(app := Uploaded(w.app, s, fileId))
    case Result(r) =>
      w.(app := FileResult(w.app, r.sessionId, r.fileId, r.ok), reports := w.reports + [r],
         outstanding := w.outstanding[r.sessionId := Outstanding(w, r.sessionId) - multiset{r.fileId}])
    case End(s, reason) =>
      w.(app := SessionEnded(w.app, s, reason), ends := if IsActive(w.app, s) then w.ends[s := reason] else w.ends)
    case Cancel => w.(app := CancelledReceive(w.app))
  }

  /** Session ids are new, and each handed-out upload reports once. */
  predicate Allowed(w: World, event: Event) {
    && (event.Prepare? ==> event.sessionId !in w.offered)
    && (event.Result? ==> event.report.fileId in Outstanding(w, event.report.sessionId))
  }

  /** The upload is not of a file whose previous result is still outstanding. */
  predicate IsSingle(w: World, event: Event) {
    event.Upload? && IsActive(w.app, event.sessionId) ==> event.fileId !in Outstanding(w, event.sessionId)
  }

  // ---- what the counters should be ----

  function Count(reports: seq<Report>, s: SessionId, ok: bool): nat {
    if reports == [] then 0
    else
      var last := reports[|reports| - 1];
      Count(reports[..|reports| - 1], s, ok) + if last.sessionId == s && last.ok == ok then 1 else 0
  }

  function BytesOf(reports: seq<Report>, s: SessionId, files: Files): nat {
    if reports == [] then 0
    else
      var last := reports[|reports| - 1];
      BytesOf(reports[..|reports| - 1], s, files)
      + if last.sessionId == s && last.ok && last.fileId in files then files[last.fileId].size else 0
  }

  function Summaries(log: seq<Summary>, s: SessionId): nat {
    if log == [] then 0
    else Summaries(log[..|log| - 1], s) + if log[|log| - 1].sessionId == s then 1 else 0
  }

  predicate Tallied(w: World, s: SessionId, finished: nat, failed: nat, bytes: nat) {
    && s in w.offered
    && finished == Count(w.reports, s, true) && failed == Count(w.reports, s, false)
    && bytes == BytesOf(w.reports, s, w.offered[s])
  }

  /** Nothing happened for a session that was not accepted (yet). */
  predicate Untouched(w: World, s: SessionId) {
    && HandedOut(w, s) == 0 && Outstanding(w, s) == multiset{}
    && Count(w.reports, s, true) == 0 && Count(w.reports, s, false) == 0
    && Summaries(w.app.log, s) == 0 && EndOf(w, s) == None
    && !IsActive(w.app, s)
  }

  /** The counters of a session, however often a file is uploaded: every upload
      handed out is finished, failed or outstanding, and so is every file in
      progress. */
  predicate BooksBalance(w: World, session: Session) {
    && var s := session.sessionId;
    && Tallied(w, s, session.finishedFiles, session.failedFiles, session.finalizedBytes)
    && session.files == w.offered[s]
    && session.finishedFiles + session.failedFiles + |Outstanding(w, s)| == HandedOut(w, s)
    && (forall id :: id in session.inProgress ==> id in Outstanding(w, s))
    && session.ended == EndOf(w, s)
  }

  /** The files in progress are exactly the outstanding results. */
  predicate IsExact(w: World, session: Session) {
    Outstanding(w, session.sessionId) == multiset(session.inProgress)
  }

  /** What every run keeps of a session. */
  predicate Consistent(w: World, s: SessionId) {
    && (s !in w.offered || IsPending(w.app, s) ==> Untouched(w, s))
    && (IsPending(w.app, s) ==> s in w.offered && w.app.pending.value.files == w.offered[s])
    && (IsActive(w.app, s) ==>
          && BooksBalance(w, w.app.receive.value) && !IsDone(w.app.receive.value)
          && Summaries(w.app.log, s) == 0 && !IsPending(w.app, s))
    && Summaries(w.app.log, s) <= 1
  }

  /** An end summary accounts for every upload, comes after the end was
      reported and the last result arrived, and gives the reported reason. */
  predicate Settled(w: World, summary: Summary)
    requires summary.Ended?
  {
    && var s := summary.sessionId;
    && Tallied(w, s, summary.finishedFiles, summary.failedFiles, summary.bytes)
    && summary.finishedFiles + summary.failedFiles == HandedOut(w, s)
    && Outstanding(w, s) == multiset{}
    && EndOf(w, s) == Some(summary.reason)
    && !IsActive(w.app, s) && !IsPending(w.app, s)
  }

  predicate LogSettled(w: World, s: SessionId) {
    forall i :: 0 <= i < |w.app.log| && w.app.log[i].Ended? && w.app.log[i].sessionId == s ==> Settled(w, w.app.log[i])
  }

  /** What runs without double uploads keep of a session. */
  predicate Accounted(w: World, s: SessionId) {
    && Consistent(w, s)
    && (IsActive(w.app, s) ==> IsExact(w, w.app.receive.value))
    && LogSettled(w, s)
  }

  // ---- one more report, one more summary ----

  lemma {:induction false} CountAfter(reports: seq<Report>, r: Report, s: SessionId, ok: bool)
    ensures Count(reports + [r], s, ok) == Count(reports, s, ok) + if r.sessionId == s && r.ok == ok then 1 else 0
  {
    assert (reports + [r])[..|reports|] == reports;
  }

  lemma {:induction false} BytesAfter(reports: seq<Report>, r: Report, s: SessionId, files: Files)
    ensures BytesOf(reports + [r], s, files)
         == BytesOf(reports, s, files)
            + if r.sessionId == s && r.ok && r.fileId in files then files[r.fileId].size else 0
  {
    assert (reports + [r])[..|reports|] == reports;
  }

  lemma {:induction false} SummariesAfter(log: seq<Summary>, summary: Summary, s: SessionId)
    ensures Summaries(log + [summary], s) == Summaries(log, s) + if summary.sessionId == s then 1 else 0
  {
    assert (log + [summary])[..|log|] == log;
  }

  lemma {:induction false} NoSuccessNoBytes(reports: seq<Report>, s: SessionId, files: Files)
    requires Count(reports, s, true) == 0
    ensures BytesOf(reports, s, files) == 0
  {
    if reports != [] {
      NoSuccessNoBytes(reports[..|reports| - 1], s, files);
    }
  }

  lemma {:induction false} NoSummaryInLog(log: seq<Summary>, s: SessionId, i: nat)
    requires Summaries(log, s) == 0 && i < |log|
    ensures log[i].sessionId != s
  {
    if i < |log| - 1 {
      NoSummaryInLog(log[..|log| - 1], s, i);
    }
  }

  lemma {:induction false} NoSummaryOf(log: seq<Summary>, s: SessionId)
    requires Summaries(log, s) == 0
    ensures forall i :: 0 <= i < |log| ==> log[i].sessionId != s
  {
    forall i | 0 <= i < |log| ensures log[i].sessionId != s {
      NoSummaryInLog(log, s, i);
    }
  }

  // ---- events that leave a session alone ----

  predicate Touches(w: World, event: Event, s: SessionId) {
    match event
    case Prepare(id, _, _, _) => id == s
    case Decide(_, _) => IsPending(w.app, s)
    case Abort(id) => id == s && IsPending(w.app, s)
    case Upload(id, _) => id == s && IsActive(w.app, s)
    case Result(r) => r.sessionId == s
    case End(id, _) => id == s && IsActive(w.app, s)
    case Cancel => IsActive(w.app, s)
  }

  predicate SameBooks(w: World, next: World, s: SessionId) {
    && (s in next.offered <==> s in w.offered) && (s in w.offered ==> next.offered[s] == w.offered[s])
    && HandedOut(next, s) == HandedOut(w, s) && Outstanding(next, s) == Outstanding(w, s)
    && Count(next.reports, s, true) == Count(w.reports, s, true)
    && Count(next.reports, s, false) == Count(w.reports, s, false)
    && (s in w.offered ==> BytesOf(next.reports, s, w.offered[s]) == BytesOf(w.reports, s, w.offered[s]))
    && EndOf(next, s) == EndOf(w, s)
  }

  predicate SameApp(before: AppState, after: AppState, s: SessionId) {
    && (IsPending(after, s) ==> after.pending == before.pending)
    && (IsActive(after, s) ==> after.receive == before.receive)
    && Summaries(after.log, s) == Summaries(before.log, s)
    && (forall i :: 0 <= i < |after.log| && after.log[i].sessionId == s ==>
        i < |before.log| && after.log[i] == before.log[i])
  }

  lemma {:induction false} AppContinues(app: AppState, session: Session, s: SessionId)
    requires app.receive.Some? && session.sessionId == app.receive.value.sessionId && session.sessionId != s
    ensures SameApp(app, Continued(app, session), s)
  {
    if IsDone(session) {
      SummariesAfter(app.log, SummaryOf(session), s);
    }
  }

  lemma {:induction false} AppStaysSame(w: World, event: Event, s: SessionId)
    requires !Touches(w, event, s)
    ensures SameApp(w.app, Next(w, event).app, s)
  {
    match event
    case Result(r) =>
      if IsActive(w.app, r.sessionId) {
        AppContinues(w.app, Resulted(w.app.receive.value, r.fileId, r.ok), s);
      }
    case End(id, reason) =>
      if IsActive(w.app, id) {
        AppContinues(w.app, w.app.receive.value.(ended := Some(reason)), s);
      }
    case Cancel =>
      if w.app.receive.Some? {
        SummariesAfter(w.app.log, CancelledHere(w.app.receive.value.sessionId, w.app.receive.value.finishedFiles), s);
      }
    case _ =>
  }

  lemma {:induction false} ResultBooksStaySame(w: World, r: Report, s: SessionId)
    requires r.sessionId != s
    ensures SameBooks(w, Next(w, Result(r)), s)
  {
    var next := Next(w, Result(r));
    assert next.offered == w.offered && next.handedOut == w.handedOut && next.ends == w.ends;
    assert next.reports == w.reports + [r] && Outstanding(next, s) == Outstanding(w, s);
    CountAfter(w.reports, r, s, true);
    CountAfter(w.reports, r, s, false);
    if s in w.offered {
      BytesAfter(w.reports, r, s, w.offered[s]);
    }
  }

  lemma {:induction false} BooksStaySame(w: World, event: Event, s: SessionId)
    requires !Touches(w, event, s)
    ensures SameBooks(w, Next(w, event), s)
  {
    if event.Result? {
      ResultBooksStaySame(w, event.report, s);
    }
  }

  lemma {:induction false} FrameConsistent(w: World, next: World, s: SessionId)
    requires SameBooks(w, next, s) && SameApp(w.app, next.app, s) && Consistent(w, s)
    ensures Consistent(next, s)
  {
  }

  lemma {:induction false} FrameSettled(w: World, next: World, s: SessionId)
    requires SameBooks(w, next, s) && SameApp(w.app, next.app, s) && LogSettled(w, s)
    ensures LogSettled(next, s)
  {
    forall i | 0 <= i < |next.app.log| && next.app.log[i].Ended? && next.app.log[i].sessionId == s
      ensures Settled(next, next.app.log[i])
    {
      assert Settled(w, w.app.log[i]);
    }
  }

  // ---- events that start a session, or end it here ----

  lemma {:induction false} NewSessionBalanced(w: World, s: SessionId)
    requires Untouched(w, s) && s in w.offered
    ensures BooksBalance(w, NewSession(s, w.offered[s])) && IsExact(w, NewSession(s, w.offered[s]))
  {
    NoSuccessNoBytes(w.reports, s, w.offered[s]);
  }

  /** A request that is new, or was waiting, is active or waiting afterwards, or neither. */
  lemma {:induction false} StartKeeps(w: World, next: World, s: SessionId)
    requires Untouched(w, s) && SameBooks(w, next.(offered := w.offered), s) && s in next.offered
    requires next.app.log == w.app.log
    requires IsActive(next.app, s) ==>
              next.app.receive == Some(NewSession(s, next.offered[s])) && !IsPending(next.app, s)
    requires IsPending(next.app, s) ==> next.app.pending.value.files == next.offered[s] && !IsActive(next.app, s)
    ensures Accounted(next, s)
  {
    NoSummaryOf(w.app.log, s);
    if IsActive(next.app, s) {
      NewSessionBalanced(next.(app := w.app), s);
    }
  }

  lemma {:induction false} PrepareKeeps(w: World, event: Event, s: SessionId)
    requires event.Prepare? && Allowed(w, event) && Touches(w, event, s) && Consistent(w, s)
    ensures Accounted(Next(w, event), s)
  {
    StartKeeps(w, Next(w, event), s);
  }

  lemma {:induction false} DecisionKeeps(w: World, event: Event, s: SessionId)
    requires (event.Decide? || event.Abort?) && Touches(w, event, s) && Consistent(w, s)
    ensures Accounted(Next(w, event), s)
  {
    StartKeeps(w, Next(w, event), s);
  }

  lemma {:induction false} CancelKeeps(w: World, event: Event, s: SessionId)
    requires event.Cancel? && Touches(w, event, s) && Consistent(w, s)
    ensures Accounted(Next(w, event), s)
  {
    NoSummaryOf(w.app.log, s);
    SummariesAfter(w.app.log, CancelledHere(s, w.app.receive.value.finishedFiles), s);
  }

  // ---- events of the active session ----

  lemma {:induction false} UploadBalances(w: World, event: Event)
    requires event.Upload? && IsActive(w.app, event.sessionId) && BooksBalance(w, w.app.receive.value)
    ensures BooksBalance(Next(w, event), Uploading(w.app.receive.value, event.fileId))
  {
  }

  /** Of a session whose files in progress are the outstanding results, an
      upload keeps that, and with it the number of files it shows, if and only
      if no result of the same file is outstanding. */
  lemma {:induction false} BalanceNeedsSingleUploads(w: World, event: Event)
    requires event.Upload? && IsActive(w.app, event.sessionId)
    requires BooksBalance(w, w.app.receive.value) && IsExact(w, w.app.receive.value)
    ensures var next := Next(w, event);
      var after := next.app.receive.value;
      && (IsExact(next, after) <==> IsSingle(w, event))
      && (after.finishedFiles + after.failedFiles + |after.inProgress| == HandedOut(next, event.sessionId)
          <==> IsSingle(w, event))
  {
    var all, fileId := w.app.receive.value.inProgress, event.fileId;
    if fileId in all {
      assert fileId in multiset(all) && all + {fileId} == all;
      assert Outstanding(Next(w, event), event.sessionId)[fileId] == 2;
    } else {
      assert multiset(all + {fileId}) == multiset(all) + multiset{fileId};
    }
  }

  lemma {:induction false} UploadKeeps(w: World, event: Event, s: SessionId)
    requires event.Upload? && Touches(w, event, s) && Consistent(w, s)
    ensures Consistent(Next(w, event), s)
    ensures IsSingle(w, event) && IsExact(w, w.app.receive.value) ==> Accounted(Next(w, event), s)
  {
    UploadBalances(w, event);
    NoSummaryOf(w.app.log, s);
    if IsExact(w, w.app.receive.value) {
      BalanceNeedsSingleUploads(w, event);
    }
  }

  lemma {:induction false} TakeOne(all: multiset<FileId>, some: set<FileId>, fileId: FileId)
    requires fileId in all && forall id :: id in some ==> id in all
    ensures |all - multiset{fileId}| == |all| - 1
    ensures forall id :: id in some - {fileId} ==> id in all - multiset{fileId}
    ensures fileId in some ==> (all == multiset(some) <==> all - multiset{fileId} == multiset(some - {fileId}))
  {
    if fileId in some {
      assert all == (all - multiset{fileId}) + multiset{fileId};
      assert multiset(some) == multiset(some - {fileId}) + multiset{fileId};
    }
  }

  lemma {:induction false} ResultBalances(w: World, r: Report)
    requires IsActive(w.app, r.sessionId) && BooksBalance(w, w.app.receive.value)
    requires r.fileId in Outstanding(w, r.sessionId)
    ensures var after := Resulted(w.app.receive.value, r.fileId, r.ok);
      && BooksBalance(Next(w, Result(r)), after)
      && (IsExact(w, w.app.receive.value) ==> IsExact(Next(w, Result(r)), after))
  {
    var s, session := r.sessionId, w.app.receive.value;
    CountAfter(w.reports, r, s, true);
    CountAfter(w.reports, r, s, false);
    BytesAfter(w.reports, r, s, session.files);
    TakeOne(Outstanding(w, s), session.inProgress, r.fileId);
  }

  /** The active session with updated counters either goes on or is summarised. */
  lemma {:induction false} ContinueKeeps(next: World, before: AppState, session: Session)
    requires next.app == Continued(before, session) && BooksBalance(next, session)
    requires Summaries(before.log, session.sessionId) == 0 && !IsPending(before, session.sessionId)
    ensures Consistent(next, session.sessionId)
    ensures IsExact(next, session) ==> Accounted(next, session.sessionId)
  {
    NoSummaryOf(before.log, session.sessionId);
    if IsDone(session) {
      SummariesAfter(before.log, SummaryOf(session), session.sessionId);
      assert IsExact(next, session) ==> Settled(next, SummaryOf(session));
    }
  }

  lemma {:induction false} ResultOfActive(w: World, event: Event, s: SessionId)
    requires event.Result? && Allowed(w, event) && Touches(w, event, s) && IsActive(w.app, s) && Consistent(w, s)
    ensures Consistent(Next(w, event), s)
    ensures IsExact(w, w.app.receive.value) ==> Accounted(Next(w, event), s)
  {
    var r := event.report;
    ResultBalances(w, r);
    ContinueKeeps(Next(w, event), w.app, Resulted(w.app.receive.value, r.fileId, r.ok));
  }

  lemma {:induction false} ResultOfInactive(w: World, event: Event, s: SessionId)
    requires event.Result? && Allowed(w, event) && Touches(w, event, s) && !IsActive(w.app, s) && Consistent(w, s)
    ensures Consistent(Next(w, event), s)
    ensures LogSettled(w, s) ==> Accounted(Next(w, event), s)
  {
    assert s in w.offered && !IsPending(w.app, s);
    if LogSettled(w, s) {
      forall i | 0 <= i < |w.app.log| && w.app.log[i].sessionId == s ensures !w.app.log[i].Ended? {
        assert w.app.log[i].Ended? ==> Settled(w, w.app.log[i]);
      }
    }
  }

  lemma {:induction false} EndKeeps(w: World, event: Event, s: SessionId)
    requires event.End? && Touches(w, event, s) && Consistent(w, s)
    ensures Consistent(Next(w, event), s)
    ensures IsExact(w, w.app.receive.value) ==> Accounted(Next(w, event), s)
  {
    ContinueKeeps(Next(w, event), w.app, w.app.receive.value.(ended := Some(event.reason)));
  }

  // ---- every event ----

  lemma {:induction false} TouchKeeps(w: World, event: Event, s: SessionId)
    requires Allowed(w, event) && Touches(w, event, s) && Consistent(w, s)
    ensures Consistent(Next(w, event), s)
    ensures Accounted(w, s) && IsSingle(w, event) ==> Accounted(Next(w, event), s)
  {
    match event
    case Prepare(_, _, _, _) => PrepareKeeps(w, event, s);
    case Decide(_, _) => DecisionKeeps(w, event, s);
    case Abort(_) => DecisionKeeps(w, event, s);
    case Upload(_, _) => UploadKeeps(w, event, s);
    case Result(_) =>
      if IsActive(w.app, s) {
        ResultOfActive(w, event, s);
      } else {
        ResultOfInactive(w, event, s);
      }
    case End(_, _) => EndKeeps(w, event, s);
    case Cancel => CancelKeeps(w, event, s);
  }

  /** Every event keeps every session consistent, and accounted for unless it
      is the second upload of a file at once. */
  lemma {:induction false} StepKeeps(w: World, event: Event, s: SessionId)
    requires Allowed(w, event) && Consistent(w, s)
    ensures Consistent(Next(w, event), s)
    ensures Accounted(w, s) && IsSingle(w, event) ==> Accounted(Next(w, event), s)
  {
    if Touches(w, event, s) {
      TouchKeeps(w, event, s);
    } else {
      AppStaysSame(w, event, s);
      BooksStaySame(w, event, s);
      FrameConsistent(w, Next(w, event), s);
      if LogSettled(w, s) {
        FrameSettled(w, Next(w, event), s);
      }
    }
  }

  // ---- whole runs ----

  const START: World := World(AppState(None, None, []), map[], map[], map[], [], map[])

  function After(w: World, events: seq<Event>): World
    decreases |events|
  {
    if events == [] then w else After(Next(w, events[0]), events[1..])
  }

  predicate Follows(w: World, events: seq<Event>)
    decreases |events|
  {
    events == [] || (Allowed(w, events[0]) && Follows(Next(w, events[0]), events[1..]))
  }

  /** No file is uploaded twice at once. */
  predicate NeverTwice(w: World, events: seq<Event>)
    decreases |events|
  {
    events == [] || (IsSingle(w, events[0]) && NeverTwice(Next(w, events[0]), events[1..]))
  }

  lemma {:induction false} RunKeeps(w: World, events: seq<Event>, s: SessionId)
    requires Follows(w, events) && Consistent(w, s)
    ensures Consistent(After(w, events), s)
    ensures Accounted(w, s) && NeverTwice(w, events) ==> Accounted(After(w, events), s)
    decreases |events|
  {
    if events != [] {
      StepKeeps(w, events[0], s);
      RunKeeps(Next(w, events[0]), events[1..], s);
    }
  }

  /** At every point of every run, double uploads included, each upload of the
      active session is finished, failed or outstanding, and no session has two
      summaries. */
  lemma {:induction false} RunsAreConsistent(events: seq<Event>, s: SessionId)
    requires Follows(START, events)
    ensures Consistent(After(START, events), s)
  {
    RunKeeps(START, events, s);
  }

  /** Without double uploads the files in progress are those whose result is
      outstanding, and every end summary is complete. */
  lemma {:induction false} RunsAreAccounted(events: seq<Event>, s: SessionId)
    requires Follows(START, events) && NeverTwice(START, events)
    ensures var w := After(START, events);
      && Accounted(w, s)
      && (IsActive(w.app, s) ==>
            var session := w.app.receive.value;
            session.finishedFiles + session.failedFiles + |session.inProgress| == HandedOut(w, s))
  {
    RunKeeps(START, events, s);
  }
}
