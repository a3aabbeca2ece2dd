/** Runs in which a signature or a nonce is refused. */
module HandshakeTrust {
  import opened Options
  import opened Framing
  import opened Wire
  import opened Pins
  import opened Handshake
  import opened HandshakeSafety
  import opened HandshakeRuns
  import opened HandshakeLimits

  predicate WrongSize(nonce: Bytes) {
    |nonce| < 16 || |nonce| > 128
  }

  /** The peer expects a key under which the signature of the other one does
      not verify. */
  predicate Rejects(crypto: Crypto, expecting: Option<string>, otherKey: string, nonce: Bytes) {
    expecting.Some? && !crypto.verify(expecting.value, crypto.sign(otherKey, nonce), nonce)
  }

  ghost predicate SenderRejects(s: Session) {
    Rejects(s.crypto, s.sender.expecting, s.receiver.key, JointNonce(s))
  }

  ghost predicate ReceiverRejects(s: Session) {
    Rejects(s.crypto, s.receiver.expecting, s.sender.key, JointNonce(s))
  }

  function NonceOf(s: Session, peer: Peer): Message {
    TextOf(s.codec, Nonce(peer.nonce))
  }

  ghost function TokenOf(s: Session): Message {
    TextOf(s.codec, TokenRequest(s.crypto.sign(s.sender.key, JointNonce(s))))
  }

  /** What is under way while, and after, the tokens are exchanged. The sender
      has sent nothing but its nonce and its token. */
  ghost predicate OnlyOpening(s: Session, v: View) {
    match v.sender.pc
    case AwaitNonce =>
      || (v.receiver.pc == AwaitNonce && v.receiver.asked == 0 && OnlyToReceiver(v, [NonceOf(s, s.sender)]))
      || (v.receiver == Task(AwaitToken, JointNonce(s), 0) && OnlyToSender(v, [NonceOf(s, s.receiver)]))
    case AwaitTokenResponse =>
      && v.sender.nonce == JointNonce(s)
      && ((v.receiver == Task(AwaitToken, JointNonce(s), 0) && OnlyToReceiver(v, [TokenOf(s)]))
          || (v.receiver == AfterToken(s).0 && OnlyToSender(v, AfterToken(s).1)))
    case Done(outcome) =>
      && outcome == Untrusted && v.receiver == AfterToken(s).0
      && AfterToken(s).1 != [] && OnlyToSender(v, AfterToken(s).1[1..])
    case _ => false
  }

  ghost predicate Opens(s: Session) {
    Faithful(s.codec) && !WrongSize(s.sender.nonce) && !WrongSize(s.receiver.nonce)
  }

  /** What the receiver answers the token with. */
  lemma {:induction false} TokenAnswer(s: Session)
    requires Faithful(s.codec)
    ensures AfterToken(s).1 != []
    ensures ReceiverRejects(s) ==>
              AfterToken(s) == (Task(Done(Untrusted), JointNonce(s), 0), [TextOf(s.codec, InvalidSignature)])
    ensures !ReceiverRejects(s) ==>
              var own := s.crypto.sign(s.receiver.key, JointNonce(s));
              AfterToken(s).1[0]
              == TextOf(s.codec, if s.receiver.pin.Some? then TokenPinRequired(own) else TokenOk(own))
  {
  }

  lemma {:induction false} SenderRefusesToken(s: Session, task: Task)
    requires Opens(s) && (SenderRejects(s) || ReceiverRejects(s))
    requires task.pc == AwaitTokenResponse && task.nonce == JointNonce(s)
    ensures AfterToken(s).1 != [] && SenderOn(s, task, AfterToken(s).1[0]) == (task.(pc := Done(Untrusted)), [])
  {
    TokenAnswer(s);
  }

  lemma {:induction false} SenderKeepsOpening(s: Session, v: View)
    requires Opens(s) && (SenderRejects(s) || ReceiverRejects(s))
    requires OnlyOpening(s, v) && v.toSender != [] && !v.sender.pc.Done?
    ensures OnlyOpening(s, SenderReadsView(s, v))
  {
    if v.sender.pc.AwaitTokenResponse? {
      SenderRefusesToken(s, v.sender);
      assert [] + SenderOn(s, v.sender, v.toSender[0]).1 == [];
    } else {
      var token := [TokenOf(s)];
      assert [] + token == token;
    }
  }

  lemma {:induction false} ReceiverKeepsOpening(s: Session, v: View)
    requires Opens(s) && OnlyOpening(s, v) && v.toReceiver != [] && !v.receiver.pc.Done?
    ensures OnlyOpening(s, ReceiverReadsView(s, v))
  {
    if v.receiver.pc.AwaitToken? {
      assert [] + AfterToken(s).1 == AfterToken(s).1;
    } else {
      var nonce := [NonceOf(s, s.receiver)];
      assert [] + nonce == nonce;
    }
  }

  lemma {:induction false} StepKeepsOpening(s: Session, st: State, a: Action)
    requires Opens(s) && (SenderRejects(s) || ReceiverRejects(s)) && OnlyOpening(s, ViewOf(st)) && Enabled(st, a)
    ensures OnlyOpening(s, ViewOf(Step(s, st, a)))
  {
    StepView(s, st, a);
    match a
    case SenderReads => SenderKeepsOpening(s, ViewOf(st));
    case ReceiverReads => ReceiverKeepsOpening(s, ViewOf(st));
    case _ =>
  }

  lemma {:induction false} RunKeepsOpening(s: Session, st: State, run: seq<Action>)
    requires Opens(s) && (SenderRejects(s) || ReceiverRejects(s)) && OnlyOpening(s, ViewOf(st))
    requires Exec(s, st, run).Some?
    ensures OnlyOpening(s, ViewOf(Exec(s, st, run).value))
    decreases run
  {
    if run != [] {
      StepKeepsOpening(s, st, run[0]);
      RunKeepsOpening(s, Step(s, st, run[0]), run[1..]);
    }
  }

  lemma {:induction false} StuckIsDone(s: Session, st: State)
    requires Opens(s) && OnlyOpening(s, ViewOf(st)) && Stuck(st)
    ensures st.sender.pc == Done(Untrusted)
  {
    assert !Enabled(st, SenderSends) && !Enabled(st, ReceiverSends);
    assert !Enabled(st, SenderReads) && !Enabled(st, ReceiverReads);
    TokenAnswer(s);
  }

  /** Whatever the receiver's signature is worth: if one of the two peers
      expects a key and the other one's signature does not verify under it, the
      sender sends its nonce and its token and nothing else, gets no further
      than waiting for the answer, and ends refusing. If it is the receiver who
      refuses, it gets no further than waiting for the token and ends so too. */
  lemma {:induction false} BadSignatureEndsTheRun(s: Session, run: seq<Action>)
    requires Faithful(s.codec) && !WrongSize(s.sender.nonce) && !WrongSize(s.receiver.nonce)
    requires SenderRejects(s) || ReceiverRejects(s)
    requires Exec(s, Initial(s), run).Some?
    ensures var st := Exec(s, Initial(s), run).value;
            && st.sender.pc in {AwaitNonce, AwaitTokenResponse, Done(Untrusted)}
            && (forall m :: m in st.senderOut + st.wireToReceiver ==> m == NonceOf(s, s.sender) || m == TokenOf(s))
            && (ReceiverRejects(s) ==>
                  && st.receiver.pc in {AwaitNonce, AwaitToken, Done(Untrusted)}
                  && forall m :: m in st.receiverOut + st.wireToSender ==>
                       m == NonceOf(s, s.receiver) || m == TextOf(s.codec, InvalidSignature))
            && (Stuck(st) ==> st.sender.pc == Done(Untrusted))
            && (Stuck(st) && ReceiverRejects(s) ==> st.receiver.pc == Done(Untrusted))
  {
    var st := Exec(s, Initial(s), run).value;
    assert [] + [NonceOf(s, s.sender)] == [NonceOf(s, s.sender)];
    RunKeepsOpening(s, Initial(s), run);
    TokenAnswer(s);
    OpeningMessages(s, st);
    if Stuck(st) {
      StuckIsDone(s, st);
    }
  }

  lemma {:induction false} OpeningMessages(s: Session, st: State)
    requires Opens(s) && OnlyOpening(s, ViewOf(st))
    ensures forall m :: m in st.senderOut + st.wireToReceiver ==> m == NonceOf(s, s.sender) || m == TokenOf(s)
    ensures ReceiverRejects(s) ==>
              forall m :: m in st.receiverOut + st.wireToSender ==>
                m == NonceOf(s, s.receiver) || m == TextOf(s.codec, InvalidSignature)
  {
    var v := ViewOf(st);
    TokenAnswer(s);
    assert forall m :: m in st.senderOut + st.wireToReceiver ==> m in v.toReceiver;
    assert forall m :: m in st.receiverOut + st.wireToSender ==> m in v.toSender;
  }

  /** With usable PINs, a run that stops stops because of a signature if and
      only if one of the two does not verify. */
  lemma {:induction false} UntrustedExactly(s: Session, run: seq<Action>)
    requires Faithful(s.codec) && !WrongSize(s.sender.nonce) && !WrongSize(s.receiver.nonce) && PinsUsable(s)
    requires Exec(s, Initial(s), run).Some? && Stuck(Exec(s, Initial(s), run).value)
    ensures Exec(s, Initial(s), run).value.sender.pc == Done(Untrusted) <==> SenderRejects(s) || ReceiverRejects(s)
  {
    if SenderRejects(s) || ReceiverRejects(s) {
      BadSignatureEndsTheRun(s, run);
    } else {
      HandshakeAgreement(s, run);
    }
  }

  // ----- Nonces of the wrong size -----

  /** A nonce of the wrong size is refused where it is read, and the run goes no
      further. */
  ghost predicate OnlyNonces(s: Session, v: View) {
    match v.sender.pc
    case AwaitNonce =>
      || (v.receiver.pc == AwaitNonce && OnlyToReceiver(v, [NonceOf(s, s.sender)]))
      || (WrongSize(s.sender.nonce) && v.receiver.pc == Done(Failed(BadNonce))
          && v.toReceiver == [] && v.toSender == [])
      || (!WrongSize(s.sender.nonce) && v.receiver.pc == AwaitToken && OnlyToSender(v, [NonceOf(s, s.receiver)]))
    case Done(outcome) =>
      !WrongSize(s.sender.nonce) && outcome == Failed(BadNonce) && v.receiver.pc == AwaitToken
      && v.toReceiver == [] && v.toSender == []
    case _ => false
  }

  lemma {:induction false} StepKeepsNonces(s: Session, st: State, a: Action)
    requires Faithful(s.codec) && (WrongSize(s.sender.nonce) || WrongSize(s.receiver.nonce))
    requires OnlyNonces(s, ViewOf(st)) && Enabled(st, a)
    ensures OnlyNonces(s, ViewOf(Step(s, st, a)))
  {
    StepView(s, st, a);
    var nonce := [NonceOf(s, s.receiver)];
    assert [] + nonce == nonce;
  }

  lemma {:induction false} RunKeepsNonces(s: Session, st: State, run: seq<Action>)
    requires Faithful(s.codec) && (WrongSize(s.sender.nonce) || WrongSize(s.receiver.nonce))
    requires OnlyNonces(s, ViewOf(st)) && Exec(s, st, run).Some?
    ensures OnlyNonces(s, ViewOf(Exec(s, st, run).value))
    decreases run
  {
    if run != [] {
      StepKeepsNonces(s, st, run[0]);
      RunKeepsNonces(s, Step(s, st, run[0]), run[1..]);
    }
  }

  lemma {:induction false} BadNonceEndsTheRun(s: Session, run: seq<Action>)
    requires Faithful(s.codec) && (WrongSize(s.sender.nonce) || WrongSize(s.receiver.nonce))
    requires Exec(s, Initial(s), run).Some?
    ensures var st := Exec(s, Initial(s), run).value;
            && st.sender.pc in {AwaitNonce, Done(Failed(BadNonce))}
            && st.receiver.pc in {AwaitNonce, AwaitToken, Done(Failed(BadNonce))}
            && (Stuck(st) ==>
                  if WrongSize(s.sender.nonce) then st.receiver.pc == Done(Failed(BadNonce))
                  else st.sender.pc == Done(Failed(BadNonce)))
  {
    var st := Exec(s, Initial(s), run).value;
    assert [] + [NonceOf(s, s.sender)] == [NonceOf(s, s.sender)];
    RunKeepsNonces(s, Initial(s), run);
    assert Stuck(st) ==> !Enabled(st, SenderSends) && !Enabled(st, ReceiverSends) && !Enabled(st, SenderReads)
                         && !Enabled(st, ReceiverReads);
  }
}
