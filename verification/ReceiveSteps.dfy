/** What one event does to the app in any reachable world, in terms of what
    happened around it. */
module ReceiveSteps {
  import opened Options
  import opened ReceiveSession
  import opened ReceiveAccounting

  /** A bare message is a request for a single file, of type "text" or one that
      starts with "text/", that carries its content along. */
  lemma {:induction false} MessageExactly(files: Files)
    ensures IsMessage(files) <==>
              exists id, file :: files == map[id := file] && file.preview.Some?
                && (file.fileType == "text" || (|file.fileType| >= 5 && file.fileType[..5] == "text/"))
  {
    if IsMessage(files) {
      var id :| id in files && IsText(files[id].fileType) && files[id].preview.Some?;
      OneKey(files.Keys, id);
      assert files == map[id := files[id]];
    }
    if id, file :| files == map[id := file] && file.preview.Some? && IsText(file.fileType) {
      assert id in files && files[id] == file && files.Keys == {id};
    }
  }

  lemma {:induction false} OneKey(keys: set<FileId>, id: FileId)
    requires |keys| == 1 && id in keys
    ensures keys == {id}
  {
    assert |keys - {id}| == 0;
  }

  /** A request that has to be answered: no bare message, and not from a paired
      sender. */
  predicate Asks(event: Event) {
    event.Prepare? && !event.paired && !IsMessage(event.files)
  }

  /** An answer, an abort by its own sender, or another request in its place. */
  predicate EndsWait(event: Event, s: SessionId) {
    event.Decide? || (event.Abort? && event.sessionId == s) || Asks(event)
  }

  ghost predicate WaitsSince(events: seq<Event>, s: SessionId, i: nat) {
    && i < |events| && Asks(events[i]) && events[i].sessionId == s
    && forall j :: i < j < |events| ==> !EndsWait(events[j], s)
  }

  lemma {:induction false} AfterOneMore(w: World, events: seq<Event>, event: Event)
    requires Follows(w, events + [event])
    ensures Follows(w, events) && Allowed(After(w, events), event)
    ensures After(w, events + [event]) == Next(After(w, events), event)
    decreases |events|
  {
    var all := events + [event];
    if events == [] {
      assert all[1..] == [];
    } else {
      assert all[1..] == events[1..] + [event];
      AfterOneMore(Next(w, events[0]), events[1..], event);
    }
  }

  lemma {:induction false} WaitOneMore(events: seq<Event>, event: Event, s: SessionId)
    ensures (exists i :: WaitsSince(events + [event], s, i)) <==>
              || (Asks(event) && event.sessionId == s)
              || (!EndsWait(event, s) && exists i :: WaitsSince(events, s, i))
  {
    var all, n := events + [event], |events|;
    if Asks(event) && event.sessionId == s {
      assert WaitsSince(all, s, n);
    }
    if i: nat :| WaitsSince(all, s, i) {
      if i < n {
        assert all[n] == event && all[i] == events[i];
        forall j | i < j < n ensures !EndsWait(events[j], s) {
          assert all[j] == events[j];
        }
        assert WaitsSince(events, s, i);
      }
    }
    if i: nat :| !EndsWait(event, s) && WaitsSince(events, s, i) {
      assert WaitsSince(all, s, i);
    }
  }

  lemma {:induction false} WaitStep(w: World, event: Event, s: SessionId)
    ensures IsPending(Next(w, event).app, s)
            <==> (Asks(event) && event.sessionId == s) || (!EndsWait(event, s) && IsPending(w.app, s))
  {
  }

  /** A request is waiting if and only if it was made to be answered, and since
      then neither answered nor aborted nor replaced by another one. */
  lemma {:induction false} WaitsUntilAnswered(events: seq<Event>, s: SessionId)
    requires Follows(START, events)
    ensures IsPending(After(START, events).app, s) <==> exists i :: WaitsSince(events, s, i)
    decreases |events|
  {
    if events != [] {
      var before, event := events[..|events| - 1], events[|events| - 1];
      assert before + [event] == events;
      AfterOneMore(START, before, event);
      WaitsUntilAnswered(before, s);
      WaitStep(After(START, before), event, s);
      WaitOneMore(before, event, s);
    }
  }

  /** The event is a decision for session `s` that reached the server: the user
      accepts the waiting request, or a paired sender makes one. */
  predicate Starts(w: World, event: Event, s: SessionId) {
    || (event.Prepare? && event.sessionId == s && event.paired && event.delivered && !IsMessage(event.files))
    || (event.Decide? && IsPending(w.app, s) && !event.answer.Decline? && event.delivered)
  }

  ghost predicate StartsAny(w: World, event: Event) {
    exists s :: Starts(w, event, s)
  }

  /** The event leaves the active session with a reported end and no file in
      progress. */
  predicate Closes(w: World, event: Event, session: Session) {
    match event
    case Result(r) => r.sessionId == session.sessionId && session.ended.Some? && session.inProgress <= {r.fileId}
    case End(id, _) => id == session.sessionId && session.inProgress == {}
    case _ => false
  }

  /** A session is active from the decision that starts it until it is closed,
      cancelled, or replaced by the next one. */
  lemma {:induction false} ActiveUntilClosed(w: World, event: Event, s: SessionId)
    ensures IsActive(Next(w, event).app, s) <==>
              || Starts(w, event, s)
              || (IsActive(w.app, s) && !StartsAny(w, event) && !event.Cancel?
                  && !Closes(w, event, w.app.receive.value))
  {
    match event
    case Prepare(id, files, paired, delivered) =>
      assert paired && delivered && !IsMessage(files) ==> Starts(w, event, id);
    case Decide(answer, delivered) =>
      assert w.app.pending.Some? && !answer.Decline? && delivered ==> Starts(w, event, w.app.pending.value.sessionId);
    case Result(r) =>
      if IsActive(w.app, r.sessionId) {
        assert w.app.receive.value.inProgress - {r.fileId} == {} <==> w.app.receive.value.inProgress <= {r.fileId};
      }
    case _ =>
  }

  /** A decision starts the session with the files of its request and nothing
      received yet. */
  lemma {:induction false} StartsWithRequest(events: seq<Event>, event: Event, s: SessionId)
    requires Follows(START, events) && Allowed(After(START, events), event)
    requires Starts(After(START, events), event, s)
    ensures var next := Next(After(START, events), event);
      && s in next.offered && next.app.receive == Some(Session(s, next.offered[s], 0, 0, 0, {}, None))
  {
    RunsAreConsistent(events, s);
  }

  /** The end summary a session would get: its last reported end, and the
      delivered results. */
  function DueSummary(w: World, s: SessionId): Summary
    requires s in w.offered && s in w.ends
  {
    Ended(s, w.ends[s], Count(w.reports, s, true), Count(w.reports, s, false), BytesOf(w.reports, s, w.offered[s]))
  }

  /** At every point of every run, double uploads included: exactly a cancelled
      and a closed session are summarised, when they are, and what the summary
      says is what was reported until then. */
  lemma {:induction false} LogGrowsExactly(events: seq<Event>, event: Event)
    requires Follows(START, events) && Allowed(After(START, events), event)
    ensures var w := After(START, events);
      var next := Next(w, event);
      match w.app.receive
      case None => next.app.log == w.app.log
      case Some(session) =>
        var s := session.sessionId;
        if event.Cancel? then next.app.log == w.app.log + [CancelledHere(s, Count(w.reports, s, true))]
        else if Closes(w, event, session) then
          s in next.offered && s in next.ends && next.app.log == w.app.log + [DueSummary(next, s)]
        else next.app.log == w.app.log
  {
    var w := After(START, events);
    if w.app.receive.Some? {
      var session := w.app.receive.value;
      RunsAreConsistent(events, session.sessionId);
      match event
      case Result(r) =>
        if IsActive(w.app, r.sessionId) {
          ResultBalances(w, r);
          assert session.inProgress - {r.fileId} == {} <==> session.inProgress <= {r.fileId};
        }
      case _ =>
    }
  }
}
