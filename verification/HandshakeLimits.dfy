/** Which PIN configurations keep the handshake in agreement, exactly. */
module HandshakeLimits {
  import opened Options
  import opened Framing
  import opened Wire
  import opened Pins
  import opened Handshake
  import opened HandshakeSafety
  import opened HandshakeRuns

  ghost predicate Reachable(s: Session, st: State) {
    exists run :: Exec(s, Initial(s), run) == Some(st)
  }

  /** No run reads an unexpected message, and none ends in anything but agreement. */
  ghost predicate AlwaysAgrees(s: Session) {
    forall st :: Reachable(s, st) ==> !UnexpectedRead(st) && (BothDone(st) ==> Concluded(s, st))
  }

  function WithPins(s: Session, senderPins: nat -> string, receiverPins: nat -> string): Session {
    s.(sender := s.sender.(userPins := senderPins), receiver := s.receiver.(userPins := receiverPins))
  }

  lemma {:induction false} ExecOneMore(s: Session, st: State, run: seq<Action>, a: Action)
    requires Exec(s, st, run).Some? && Enabled(Exec(s, st, run).value, a)
    ensures Exec(s, st, run + [a]) == Some(Step(s, Exec(s, st, run).value, a))
    decreases run
  {
    if run == [] {
      assert (run + [a])[0] == a && (run + [a])[1..] == [];
    } else {
      assert (run + [a])[0] == run[0] && (run + [a])[1..] == run[1..] + [a];
      ExecOneMore(s, Step(s, st, run[0]), run[1..], a);
    }
  }

  lemma {:induction false} ReachStep(s: Session, st: State, a: Action) returns (next: State)
    requires Reachable(s, st) && Enabled(st, a)
    ensures next == Step(s, st, a) && Reachable(s, next)
  {
    var run :| Exec(s, Initial(s), run) == Some(st);
    ExecOneMore(s, Initial(s), run, a);
    next := Step(s, st, a);
  }

  /** What the receiver does with the token of the sender. */
  function AfterToken(s: Session): (Task, seq<Message>) {
    var nonce := s.sender.nonce + s.receiver.nonce;
    ReceiverOn(s, Task(AwaitToken, nonce, 0), TextOf(s.codec, TokenRequest(s.crypto.sign(s.sender.key, nonce))))
  }

  lemma {:induction false} Opening(s: Session) returns (st: State)
    requires Honest(s)
    ensures Reachable(s, st)
    ensures st == State(Task(AwaitTokenResponse, JointNonce(s), 0), [], [], AfterToken(s).0, AfterToken(s).1, [])
  {
    st := Initial(s);
    assert Exec(s, Initial(s), []) == Some(st);
    st := ReachStep(s, st, SenderSends);
    st := ReachStep(s, st, ReceiverReads);
    assert st.receiver == Task(AwaitToken, JointNonce(s), 0)
           && st.receiverOut == [TextOf(s.codec, Nonce(s.receiver.nonce))];
    st := ReachStep(s, st, ReceiverSends);
    st := ReachStep(s, st, SenderReads);
    assert st.sender == Task(AwaitTokenResponse, JointNonce(s), 0);
    st := ReachStep(s, st, SenderSends);
    st := ReachStep(s, st, ReceiverReads);
  }

  lemma {:induction false} EmptyReceiverPinFails(s: Session) returns (st: State)
    requires Honest(s) && ReceiverTrusts(s)
    requires s.receiver.pin.Some? && s.receiver.pin.value.pin == ""
    ensures Reachable(s, st) && UnexpectedRead(st)
  {
    st := Opening(s);
    assert st.receiver.pc == AwaitPinStatus([]) && |st.receiverOut| == 2;
    st := ReachStep(s, st, ReceiverSends);
    st := ReachStep(s, st, ReceiverSends);
    st := ReachStep(s, st, SenderReads);
    assert st.senderOut == [TextOf(s.codec, Pin(s.sender.userPins(0)))];
    st := ReachStep(s, st, SenderSends);
    st := ReachStep(s, st, ReceiverReads);
  }

  lemma {:induction false} ZeroReceiverTriesStrandAPin(s: Session) returns (st: State)
    requires Honest(s) && ReceiverTrusts(s)
    requires s.receiver.pin.Some? && s.receiver.pin.value.pin != "" && s.receiver.pin.value.maxTries == 0
    ensures Reachable(s, st) && BothDone(st) && st.wireToReceiver != []
  {
    st := Opening(s);
    assert st.receiver.pc == Done(PinRefused);
    assert st.receiverOut
              == [TextOf(s.codec, TokenPinRequired(s.crypto.sign(s.receiver.key, JointNonce(s)))),
                   TextOf(s.codec, TooManyAttempts)];
    st := ReachStep(s, st, ReceiverSends);
    st := ReachStep(s, st, ReceiverSends);
    st := ReachStep(s, st, SenderReads);
    st := ReachStep(s, st, SenderSends);
    assert st.wireToSender == [TextOf(s.codec, TooManyAttempts)];
    st := ReachStep(s, st, SenderReads);
  }

  lemma {:induction false} Drained(s: Session, st: State, buffer: Bytes) returns (end: State)
    requires Faithful(s.codec) && Reachable(s, st)
    requires st.receiver.pc == AwaitPinStatus(buffer) && st.receiverOut == [] && st.wireToReceiver == []
    requires Carries(st.senderOut, buffer, s.codec.encode(TooManyAttempts))
    ensures Reachable(s, end) && UnexpectedRead(end)
    decreases |st.senderOut|
  {
    var msg, later := st.senderOut[0], st.senderOut[1..];
    end := ReachStep(s, st, SenderSends);
    assert end.wireToReceiver == [msg];
    end := ReachStep(s, end, ReceiverReads);
    if msg.Binary? {
      end := Drained(s, end, buffer + msg.data);
    }
  }

  /** A receiver that got past its own challenge, with the sender about to
      give up without having asked. */
  lemma {:induction false} ZeroSenderTriesSurprise(s: Session, st: State) returns (end: State)
    requires Honest(s) && Reachable(s, st)
    requires s.sender.pin.Some? && s.sender.pin.value.pin != "" && s.sender.pin.value.maxTries == 0
    requires (st.sender.pc.AwaitTokenResponse?
                && st.receiverOut == [TextOf(s.codec, TokenOk(s.crypto.sign(s.receiver.key, JointNonce(s))))])
          || (st.sender.pc.AwaitPinResult? && st.receiverOut == [TextOf(s.codec, PinOk)])
    requires st.sender.nonce == JointNonce(s) && st.receiver.pc == AwaitPinStatus([])
    requires st.senderOut == [] && st.wireToReceiver == [] && st.wireToSender == []
    ensures Reachable(s, end) && UnexpectedRead(end)
  {
    end := ReachStep(s, st, ReceiverSends);
    end := ReachStep(s, end, SenderReads);
    FrameCarries(s.codec.encode(TooManyAttempts));
    end := Drained(s, end, []);
  }

  lemma {:induction false} ZeroSenderTriesFail(s: Session) returns (end: State)
    requires Honest(s) && ReceiverTrusts(s)
    requires s.sender.pin.Some? && s.sender.pin.value.pin != "" && s.sender.pin.value.maxTries == 0
    requires s.receiver.pin.Some? ==> Usable(s.receiver.pin.value) && s.sender.userPins(0) == s.receiver.pin.value.pin
    ensures Reachable(s, end) && UnexpectedRead(end)
  {
    var st := Opening(s);
    if s.receiver.pin.Some? {
      assert st.receiver.pc == AwaitPin(0);
      st := ReachStep(s, st, ReceiverSends);
      st := ReachStep(s, st, SenderReads);
      st := ReachStep(s, st, SenderSends);
      assert st.wireToReceiver == [TextOf(s.codec, Pin(s.sender.userPins(0)))];
      st := ReachStep(s, st, ReceiverReads);
    }
    end := ZeroSenderTriesSurprise(s, st);
  }

  /** Whatever the users type, the peers agree: exactly when the configured
      PINs are usable. */
  lemma {:induction false} AgreementNeedsUsablePins(s: Session)
    requires Honest(s) && ReceiverTrusts(s)
    ensures (forall p: nat -> string, q: nat -> string :: AlwaysAgrees(WithPins(s, p, q))) <==> PinsUsable(s)
  {
    if PinsUsable(s) {
      forall p: nat -> string, q: nat -> string
        ensures AlwaysAgrees(WithPins(s, p, q))
      {
        UsableAgrees(WithPins(s, p, q));
      }
    } else {
      var right := if s.receiver.pin.Some? then s.receiver.pin.value.pin else "";
      var pins: nat -> string := _ => right;
      var t := WithPins(s, pins, pins);
      UnusableDisagrees(t);
    }
  }

  lemma {:induction false} UsableAgrees(s: Session)
    requires Honest(s) && PinsUsable(s)
    ensures AlwaysAgrees(s)
  {
    forall st | Reachable(s, st)
      ensures !UnexpectedRead(st) && (BothDone(st) ==> Concluded(s, st))
    {
      var run :| Exec(s, Initial(s), run) == Some(st);
      HandshakeAgreement(s, run);
    }
  }

  lemma {:induction false} UnusableDisagrees(s: Session)
    requires Honest(s) && ReceiverTrusts(s) && !PinsUsable(s)
    requires s.receiver.pin.Some? ==> s.sender.userPins(0) == s.receiver.pin.value.pin
    ensures !AlwaysAgrees(s)
  {
    if s.receiver.pin.Some? && s.receiver.pin.value.pin == "" {
      var st := EmptyReceiverPinFails(s);
    } else if s.receiver.pin.Some? && s.receiver.pin.value.maxTries == 0 {
      var st := ZeroReceiverTriesStrandAPin(s);
    } else {
      var st := ZeroSenderTriesFail(s);
    }
  }

  // ----- Matching keys -----

  /** The one assumption on the signatures: verification accepts what was signed. */
  ghost predicate Verifies(crypto: Crypto) {
    forall key, nonce :: crypto.verify(crypto.publicKey(key), crypto.sign(key, nonce), nonce)
  }

  predicate KeysMatch(s: Session) {
    && (s.sender.expecting.Some? ==> s.sender.expecting.value == s.crypto.publicKey(s.receiver.key))
    && (s.receiver.expecting.Some? ==> s.receiver.expecting.value == s.crypto.publicKey(s.sender.key))
  }

  /** With matching keys every finished run has one of three ends: both peers
      refused over the PIN, both declined, or both holding the same nonce, file
      list and tokens. */
  lemma {:induction false} ThreeOutcomes(s: Session, run: seq<Action>)
    requires Faithful(s.codec) && IsValidNonce(s.sender.nonce) && IsValidNonce(s.receiver.nonce)
    requires Verifies(s.crypto) && KeysMatch(s) && PinsUsable(s)
    requires Exec(s, Initial(s), run).Some? && Stuck(Exec(s, Initial(s), run).value)
    ensures var st := Exec(s, Initial(s), run).value;
            && Silent(st) && st.sender.pc == st.receiver.pc
            && st.sender.pc == Done(
                 if !SenderPasses(s) || !ReceiverPasses(s) then PinRefused
                 else if s.selection.None? then UserDeclined
                 else Agreed(s.sender.nonce + s.receiver.nonce, s.files, Tokens(s, s.selection.value)))
  {
    assert Honest(s) && ReceiverTrusts(s);
    HandshakeAgreement(s, run);
  }
}
