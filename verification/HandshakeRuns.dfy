/** Whole runs of the handshake: agreement, progress, termination, and the
    configurations for which they fail. */
module HandshakeRuns {
  import opened Options
  import opened Framing
  import opened Wire
  import opened Pins
  import opened Handshake
  import opened HandshakeSafety

  function Exec(s: Session, st: State, run: seq<Action>): Option<State>
    decreases run
  {
    if run == [] then Some(st)
    else if !Enabled(st, run[0]) then None
    else Exec(s, Step(s, st, run[0]), run[1..])
  }

  lemma {:induction false} StepView(s: Session, st: State, a: Action)
    requires Enabled(st, a)
    ensures ViewOf(Step(s, st, a))
            == match a
               case SenderReads => SenderReadsView(s, ViewOf(st))
               case ReceiverReads => ReceiverReadsView(s, ViewOf(st))
               case _ => ViewOf(st)
  {
    var next := Step(s, st, a);
    match a
    case SenderSends =>
      assert next.wireToReceiver + next.senderOut == st.wireToReceiver + st.senderOut;
    case ReceiverSends =>
      assert next.wireToSender + next.receiverOut == st.wireToSender + st.receiverOut;
    case SenderReads =>
      assert st.wireToReceiver + st.senderOut == st.wireToReceiver;
      assert (st.wireToSender + st.receiverOut)[0] == st.wireToSender[0];
      assert (st.wireToSender + st.receiverOut)[1..] == st.wireToSender[1..] + st.receiverOut;
    case ReceiverReads =>
      assert st.wireToSender + st.receiverOut == st.wireToSender;
      assert (st.wireToReceiver + st.senderOut)[0] == st.wireToReceiver[0];
      assert (st.wireToReceiver + st.senderOut)[1..] == st.wireToReceiver[1..] + st.senderOut;
  }

  lemma {:induction false} StepKeepsGood(s: Session, st: State, a: Action)
    requires Honest(s) && PinsUsable(s) && Good(s, ViewOf(st)) && Enabled(st, a)
    ensures Good(s, ViewOf(Step(s, st, a)))
  {
    StepView(s, st, a);
    var v := ViewOf(st);
    match a
    case SenderReads => SenderKeepsGood(s, v);
    case ReceiverReads => ReceiverKeepsGood(s, v);
    case _ =>
  }

  lemma {:induction false} InitiallyGood(s: Session)
    requires Honest(s)
    ensures Good(s, ViewOf(Initial(s)))
  {
    assert [] + [TextOf(s.codec, Nonce(s.sender.nonce))] == [TextOf(s.codec, Nonce(s.sender.nonce))];
  }

  lemma {:induction false} ReachableIsGood(s: Session, st: State, run: seq<Action>)
    requires Honest(s) && PinsUsable(s) && Good(s, ViewOf(st)) && Exec(s, st, run).Some?
    ensures Good(s, ViewOf(Exec(s, st, run).value))
    decreases run
  {
    if run != [] {
      StepKeepsGood(s, st, run[0]);
      ReachableIsGood(s, Step(s, st, run[0]), run[1..]);
    }
  }

  ghost predicate Stuck(st: State) {
    forall a :: !Enabled(st, a)
  }

  lemma {:induction false} GoodCanMove(s: Session, v: View)
    requires Good(s, v) && !(v.sender.pc.Done? && v.receiver.pc.Done?)
    ensures (v.toReceiver != [] && !v.receiver.pc.Done?) || (v.toSender != [] && !v.sender.pc.Done?)
  {
  }

  /** As long as a peer is unfinished, something can happen. */
  lemma {:induction false} Progress(s: Session, st: State)
    requires Good(s, ViewOf(st)) && !BothDone(st)
    ensures !Stuck(st)
  {
    GoodCanMove(s, ViewOf(st));
    assert Enabled(st, SenderSends) || Enabled(st, ReceiverSends)
           || Enabled(st, SenderReads) || Enabled(st, ReceiverReads);
  }

  ghost predicate TriesRespected(pin: Option<PinConfig>, asked: nat) {
    asked <= if pin.Some? then pin.value.maxTries as nat else 0
  }

  /** Both peers ended as they should, and nothing is left on the wires. */
  ghost predicate Concluded(s: Session, st: State) {
    && st.sender.pc == Done(Expected(s)) && st.receiver.pc == Done(Expected(s))
    && Silent(st)
    && TriesRespected(s.receiver.pin, st.sender.asked) && TriesRespected(s.sender.pin, st.receiver.asked)
  }

  ghost predicate UnexpectedRead(st: State) {
    || (st.sender.pc.Done? && st.sender.pc.outcome.Failed?)
    || (st.receiver.pc.Done? && st.receiver.pc.outcome.Failed?)
  }

  lemma {:induction false} GoodEnd(s: Session, st: State)
    requires Good(s, ViewOf(st)) && PinsUsable(s)
    ensures !UnexpectedRead(st)
    ensures BothDone(st) ==> Concluded(s, st)
  {
  }

  /** Agreement: in every interleaving, no message of an unexpected kind is
      ever read, and a run can stop only where both peers have reached the one
      outcome the configuration calls for, with every message consumed. */
  lemma {:induction false} HandshakeAgreement(s: Session, run: seq<Action>)
    requires Honest(s) && PinsUsable(s)
    requires Exec(s, Initial(s), run).Some?
    ensures var st := Exec(s, Initial(s), run).value;
            !UnexpectedRead(st) && (Stuck(st) <==> BothDone(st)) && (BothDone(st) ==> Concluded(s, st))
  {
    var st := Exec(s, Initial(s), run).value;
    InitiallyGood(s);
    ReachableIsGood(s, Initial(s), run);
    GoodEnd(s, st);
    if !BothDone(st) {
      Progress(s, st);
    }
  }

  // ----- Every run ends -----

  function MaxTries(pin: Option<PinConfig>): nat {
    if pin.Some? then pin.value.maxTries as nat else 0
  }

  function Left(max: nat, used: nat): nat {
    if used < max then max - used else 0
  }

  function SenderRank(s: Session, task: Task): nat {
    var r, p := MaxTries(s.receiver.pin), MaxTries(s.sender.pin);
    match task.pc
    case AwaitNonce => r + p + 6
    case AwaitTokenResponse => r + p + 5
    case AwaitPinResult(_) => Left(r, task.asked) + p + 4
    case AwaitPin(k) => Left(p, k) + 2
    case AwaitFileTokens(_) => 1
    case _ => 0
  }

  function ReceiverRank(s: Session, task: Task): nat {
    var r, p := MaxTries(s.receiver.pin), MaxTries(s.sender.pin);
    match task.pc
    case AwaitNonce => r + p + 6
    case AwaitToken => r + p + 5
    case AwaitPin(k) => Left(r, k) + p + 4
    case AwaitPinStatus(_) => p + 3
    case AwaitPinResult(_) => Left(p, task.asked) + 2
    case _ => 0
  }

  ghost predicate SenderDescends(s: Session, v: View)
    requires v.toSender != [] && !v.sender.pc.Done?
  {
    var (task, out) := SenderOn(s, v.sender, v.toSender[0]);
    || SenderRank(s, task) < SenderRank(s, v.sender)
    || (SenderRank(s, task) == SenderRank(s, v.sender) && out == [])
  }

  /** Another prompt can only come while tries are left. */
  lemma {:induction false} PromptedWhileTriesLeft(s: Session, v: View)
    requires Honest(s) && Good(s, v) && v.toSender != [] && v.sender.pc.AwaitPinResult?
    ensures s.codec.decode(v.toSender[0].data) == Some(PinRequired) ==> v.sender.asked < MaxTries(s.receiver.pin)
    ensures s.codec.decode(v.toSender[0].data) in {Some(PinRequired), Some(TooManyAttempts), Some(PinOk)}
  {
  }

  lemma {:induction false} SenderPinResultRanks(s: Session, task: Task, msg: Message)
    requires task.pc.AwaitPinResult?
    requires s.codec.decode(msg.data) == Some(PinRequired) ==> task.asked < MaxTries(s.receiver.pin)
    requires s.codec.decode(msg.data) in {Some(PinRequired), Some(TooManyAttempts), Some(PinOk)}
    ensures SenderRank(s, SenderOn(s, task, msg).0) < SenderRank(s, task)
  {
  }

  lemma {:induction false} SenderReadRanks(s: Session, v: View)
    requires Honest(s) && Good(s, v) && v.toSender != [] && !v.sender.pc.Done?
    ensures SenderDescends(s, v)
  {
    if v.sender.pc.AwaitPinResult? {
      PromptedWhileTriesLeft(s, v);
      SenderPinResultRanks(s, v.sender, v.toSender[0]);
    } else {
      SenderOtherRanks(s, v.sender, v.toSender[0]);
    }
  }

  lemma {:induction false} SenderOtherRanks(s: Session, task: Task, msg: Message)
    requires !task.pc.Done? && !task.pc.AwaitPinResult?
    requires task.pc.AwaitPin? ==> s.sender.pin.Some?
    ensures var (next, out) := SenderOn(s, task, msg);
            || SenderRank(s, next) < SenderRank(s, task)
            || (SenderRank(s, next) == SenderRank(s, task) && out == [])
  {
  }

  lemma {:induction false} TriesLeft(s: Session, v: View)
    requires Good(s, v) && v.toReceiver != []
    ensures v.receiver.pc.AwaitPin? ==> v.receiver.pc.tries < MaxTries(s.receiver.pin)
    ensures v.receiver.pc.AwaitPinResult? && v.sender.pc.AwaitPin? ==> v.receiver.asked < MaxTries(s.sender.pin)
    ensures v.receiver.pc.AwaitPinResult? ==>
              v.sender.pc.AwaitPin? || Carries(v.toReceiver, v.receiver.pc.buffer, s.codec.encode(TooManyAttempts))
              || Carries(v.toReceiver, v.receiver.pc.buffer, s.codec.encode(FileOffer(s.files)))
  {
  }

  lemma {:induction false} ReceiverPinResultRanks(s: Session, v: View)
    requires Faithful(s.codec) && v.toReceiver != [] && v.receiver.pc.AwaitPinResult?
    requires || v.receiver.asked < MaxTries(s.sender.pin)
             || Carries(v.toReceiver, v.receiver.pc.buffer, s.codec.encode(TooManyAttempts))
             || Carries(v.toReceiver, v.receiver.pc.buffer, s.codec.encode(FileOffer(s.files)))
    ensures ReceiverDescends(s, v.receiver, v.toReceiver[0])
  {
  }

  ghost predicate ReceiverDescends(s: Session, task: Task, msg: Message)
    requires !task.pc.Done?
  {
    var (next, out) := ReceiverOn(s, task, msg);
    || ReceiverRank(s, next) < ReceiverRank(s, task)
    || (ReceiverRank(s, next) == ReceiverRank(s, task) && out == [])
  }

  lemma {:induction false} ReceiverOtherRanks(s: Session, task: Task, msg: Message)
    requires !task.pc.Done? && !task.pc.AwaitPinResult?
    requires task.pc.AwaitPin? ==> task.pc.tries < MaxTries(s.receiver.pin)
    ensures ReceiverDescends(s, task, msg)
  {
  }

  lemma {:induction false} ReceiverReadRanks(s: Session, v: View)
    requires Honest(s) && Good(s, v) && v.toReceiver != [] && !v.receiver.pc.Done?
    ensures ReceiverDescends(s, v.receiver, v.toReceiver[0])
  {
    TriesLeft(s, v);
    if v.receiver.pc.AwaitPinResult? {
      ReceiverPinResultRanks(s, v);
    } else {
      ReceiverOtherRanks(s, v.receiver, v.toReceiver[0]);
    }
  }

  function Rank(s: Session, st: State): nat {
    SenderRank(s, st.sender) + ReceiverRank(s, st.receiver)
  }

  function Unread(st: State): nat {
    |st.wireToReceiver| + |st.senderOut| + |st.wireToSender| + |st.receiverOut|
  }

  function Unsent(st: State): nat {
    |st.senderOut| + |st.receiverOut|
  }

  lemma {:induction false} StepDescends(s: Session, st: State, a: Action)
    requires Honest(s) && Good(s, ViewOf(st)) && Enabled(st, a)
    ensures var next := Step(s, st, a);
            || Rank(s, next) < Rank(s, st)
            || (Rank(s, next) == Rank(s, st) && Unread(next) < Unread(st))
            || (Rank(s, next) == Rank(s, st) && Unread(next) == Unread(st) && Unsent(next) < Unsent(st))
  {
    match a
    case SenderReads => SenderReadRanks(s, ViewOf(st));
    case ReceiverReads => ReceiverReadRanks(s, ViewOf(st));
    case _ =>
  }

  /** Any scheduler at all drives the two tasks to the agreed end. */
  method RunToEnd(s: Session, schedule: nat -> Action) returns (st: State)
    requires Honest(s) && PinsUsable(s)
    ensures Concluded(s, st)
  {
    st := Initial(s);
    InitiallyGood(s);
    var i := 0;
    while !BothDone(st)
      invariant Good(s, ViewOf(st))
      decreases Rank(s, st), Unread(st), Unsent(st)
    {
      Progress(s, st);
      var a := schedule(i);
      if !Enabled(st, a) {
        a :| Enabled(st, a);
      }
      StepDescends(s, st, a);
      StepKeepsGood(s, st, a);
      st, i := Step(s, st, a), i + 1;
    }
    GoodEnd(s, st);
  }
}
