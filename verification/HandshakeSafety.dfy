/** What every interleaving of the two handshake tasks keeps, and where every run ends. */
module HandshakeSafety {
  import opened Options
  import opened Framing
  import opened Wire
  import opened Pins
  import opened Handshake

  ghost function JointNonce(s: Session): Bytes {
    s.sender.nonce + s.receiver.nonce
  }

  ghost predicate ReceiverTrusts(s: Session) {
    Trusts(s.crypto, s.receiver.expecting, s.crypto.sign(s.sender.key, JointNonce(s)), JointNonce(s))
  }

  /** Honest peers: a faithful codec, nonces of a legal size, and a receiver
      whose signature the sender accepts. */
  ghost predicate Honest(s: Session) {
    && Faithful(s.codec)
    && IsValidNonce(s.sender.nonce) && IsValidNonce(s.receiver.nonce)
    && Trusts(s.crypto, s.sender.expecting, s.crypto.sign(s.receiver.key, JointNonce(s)), JointNonce(s))
  }

  /** The configurations whose challenges stay in lockstep. An empty PIN is
      harmless only on the sender, who then never prompts. */
  predicate PinsUsable(s: Session) {
    && (s.receiver.pin.Some? ==> Usable(s.receiver.pin.value))
    && (s.sender.pin.Some? ==> s.sender.pin.value.pin == "" || s.sender.pin.value.maxTries > 0)
  }

  predicate ReceiverChallenges(s: Session) {
    s.receiver.pin.Some?
  }

  predicate SenderChallenges(s: Session) {
    s.sender.pin.Some? && s.sender.pin.value.pin != ""
  }

  ghost predicate SenderPasses(s: Session) {
    ReceiverChallenges(s) ==> Passes(s.receiver.pin.value, s.sender.userPins)
  }

  ghost predicate ReceiverPasses(s: Session) {
    SenderChallenges(s) ==> Passes(s.sender.pin.value, s.receiver.userPins)
  }

  /** Where the run has to end, for both peers alike. */
  ghost function Expected(s: Session): Outcome {
    if !ReceiverTrusts(s) then Untrusted
    else if !SenderPasses(s) || !ReceiverPasses(s) then PinRefused
    else match s.selection
      case None => UserDeclined
      case Some(ids) => Agreed(JointNonce(s), s.files, Tokens(s, ids))
  }

  /** A state with sent and still unsent messages taken together. */
  datatype View = View(sender: Task, receiver: Task, toReceiver: seq<Message>, toSender: seq<Message>)

  function ViewOf(st: State): View {
    View(st.sender, st.receiver, st.wireToReceiver + st.senderOut, st.wireToSender + st.receiverOut)
  }

  /** `msgs` is the rest of one framed string of which `buffer` was read. */
  predicate Carries(msgs: seq<Message>, buffer: Bytes, data: Bytes): (r: bool)
    ensures r ==> msgs != []
  {
    && msgs != []
    && if msgs[0].Text? then |msgs| == 1 && buffer == data
       else Carries(msgs[1..], buffer + msgs[0].data, data)
  }

  lemma {:induction false} BinaryCarries(chunks: seq<Bytes>, buffer: Bytes)
    ensures Carries(AsBinary(chunks) + [DELIMITER], buffer, buffer + Concat(chunks))
  {
    var msgs := AsBinary(chunks) + [DELIMITER];
    if chunks == [] {
      assert buffer + [] == buffer;
    } else {
      assert msgs[0] == Binary(chunks[0]) && msgs[1..] == AsBinary(chunks[1..]) + [DELIMITER];
      BinaryCarries(chunks[1..], buffer + chunks[0]);
      assert buffer + Concat(chunks) == buffer + chunks[0] + Concat(chunks[1..]);
    }
  }

  lemma {:induction false} FrameCarries(data: Bytes)
    ensures Carries(Frame(data), [], data)
  {
    ChunksAreCanonical(data);
    BinaryCarries(Chunks(data), []);
    assert [] + data == data;
  }

  /** The PINs the sender has sent settle the challenge of the receiver. */
  ghost predicate SenderSettled(s: Session, asked: nat) {
    if ReceiverChallenges(s) then Consumes(s.receiver.pin.value, s.sender.userPins, asked) else asked == 0
  }

  ghost predicate ReceiverSettled(s: Session, asked: nat) {
    if SenderChallenges(s) then Consumes(s.sender.pin.value, s.receiver.userPins, asked) else asked == 0
  }

  /** The receiver challenges; `k` wrong PINs were read by it. */
  ghost predicate ChallengingSender(s: Session, v: View, k: nat) {
    && ReceiverChallenges(s) && ReceiverTrusts(s) && v.receiver.asked == 0
    && k < s.receiver.pin.value.maxTries as nat
    && Missed(s.receiver.pin.value, s.sender.userPins, k)
  }

  ghost predicate ChallengingReceiver(s: Session, v: View, k: nat) {
    && SenderChallenges(s) && ReceiverTrusts(s) && SenderPasses(s) && SenderSettled(s, v.sender.asked)
    && k < s.sender.pin.value.maxTries as nat
    && Missed(s.sender.pin.value, s.receiver.userPins, k)
  }

  ghost predicate Settled(s: Session, v: View) {
    ReceiverTrusts(s) && SenderSettled(s, v.sender.asked) && ReceiverSettled(s, v.receiver.asked)
  }

  ghost predicate OnlyToReceiver(v: View, msgs: seq<Message>) {
    v.toReceiver == msgs && v.toSender == []
  }

  ghost predicate OnlyToSender(v: View, msgs: seq<Message>) {
    v.toReceiver == [] && v.toSender == msgs
  }

  ghost predicate FrameToReceiver(s: Session, v: View, buffer: Bytes, p: Payload) {
    Carries(v.toReceiver, buffer, s.codec.encode(p)) && v.toSender == []
  }

  ghost predicate Agreeing(s: Session, v: View) {
    Settled(s, v) && SenderPasses(s) && ReceiverPasses(s)
  }

  ghost predicate NoPinsYet(v: View) {
    v.sender.asked == 0 && v.receiver.asked == 0
  }

  ghost predicate NonceKnown(s: Session, v: View) {
    && (v.sender.pc.AwaitNonce? || v.sender.nonce == JointNonce(s))
    && (v.receiver.pc.AwaitNonce? || v.receiver.nonce == JointNonce(s))
  }

  /** Which pairs of waiting points are possible, and what is then under way. */
  ghost predicate Phase(s: Session, v: View) {
    match (v.sender.pc, v.receiver.pc)
    case (AwaitNonce, AwaitNonce) =>
      NoPinsYet(v) && OnlyToReceiver(v, [TextOf(s.codec, Nonce(s.sender.nonce))])
    case (AwaitNonce, AwaitToken) =>
      NoPinsYet(v) && OnlyToSender(v, [TextOf(s.codec, Nonce(s.receiver.nonce))])
    case (AwaitTokenResponse, AwaitToken) =>
      NoPinsYet(v) && OnlyToReceiver(v, [TextOf(s.codec, TokenRequest(s.crypto.sign(s.sender.key, JointNonce(s))))])
    case (AwaitTokenResponse, Done(outcome)) =>
      NoPinsYet(v) && !ReceiverTrusts(s) && outcome == Untrusted && OnlyToSender(v, [TextOf(s.codec, InvalidSignature)])
    case (AwaitTokenResponse, AwaitPinStatus(buffer)) =>
      NoPinsYet(v) && !ReceiverChallenges(s) && ReceiverTrusts(s) && buffer == []
      && OnlyToSender(v, [TextOf(s.codec, TokenOk(s.crypto.sign(s.receiver.key, JointNonce(s))))])
    case (AwaitTokenResponse, AwaitPin(k)) =>
      NoPinsYet(v) && k == 0 && ChallengingSender(s, v, k)
      && OnlyToSender(v, [TextOf(s.codec, TokenPinRequired(s.crypto.sign(s.receiver.key, JointNonce(s))))])
    case (AwaitPinResult(_), AwaitPin(k)) =>
      ChallengingSender(s, v, k)
      && if v.toSender == [] then
           v.sender.asked == k + 1 && OnlyToReceiver(v, [TextOf(s.codec, Pin(s.sender.userPins(k)))])
         else v.sender.asked == k && k > 0 && OnlyToSender(v, [TextOf(s.codec, PinRequired)])
    case (AwaitPinResult(_), Done(outcome)) =>
      SenderSettled(s, v.sender.asked) && ReceiverTrusts(s) && !SenderPasses(s) && v.receiver.asked == 0
      && outcome == PinRefused && OnlyToSender(v, [TextOf(s.codec, TooManyAttempts)])
    case (AwaitPinResult(_), AwaitPinStatus(buffer)) =>
      ReceiverTrusts(s) && SenderSettled(s, v.sender.asked) && SenderPasses(s) && v.receiver.asked == 0
      && buffer == [] && OnlyToSender(v, [TextOf(s.codec, PinOk)])
    case (AwaitPin(k), AwaitPinStatus(buffer)) =>
      k == 0 && v.receiver.asked == 0 && ChallengingReceiver(s, v, k) && FrameToReceiver(s, v, buffer, PinRequired)
    case (AwaitPin(k), AwaitPinResult(buffer)) =>
      ChallengingReceiver(s, v, k)
      && if v.toReceiver == [] then
           buffer == [] && v.receiver.asked == k + 1 && OnlyToSender(v, [TextOf(s.codec, Pin(s.receiver.userPins(k)))])
         else v.receiver.asked == k && k > 0 && FrameToReceiver(s, v, buffer, PinRequired)
    case (Done(outcome), AwaitPinResult(buffer)) =>
      Settled(s, v) && SenderPasses(s) && !ReceiverPasses(s) && outcome == PinRefused
      && FrameToReceiver(s, v, buffer, TooManyAttempts)
    case (AwaitFileTokens(own), AwaitPinStatus(buffer)) =>
      Agreeing(s, v) && !SenderChallenges(s) && own == [] && FrameToReceiver(s, v, buffer, FileOffer(s.files))
    case (AwaitFileTokens(own), AwaitPinResult(buffer)) =>
      Agreeing(s, v) && own == [] && FrameToReceiver(s, v, buffer, FileOffer(s.files))
    case (AwaitFileTokens(own), Done(outcome)) =>
      Agreeing(s, v) && outcome == Expected(s) && v.toReceiver == []
      && Carries(v.toSender, own, s.codec.encode(Answer(s)))
    case (Done(o1), Done(o2)) =>
      o1 == Expected(s) && o2 == Expected(s) && v.toReceiver == [] && v.toSender == []
      && if ReceiverTrusts(s) then
           SenderSettled(s, v.sender.asked)
           && (if SenderPasses(s) then ReceiverSettled(s, v.receiver.asked) else v.receiver.asked == 0)
         else NoPinsYet(v)
    case _ => false
  }

  ghost predicate Good(s: Session, v: View) {
    NonceKnown(s, v) && Phase(s, v)
  }

  function ReceiverReadsView(s: Session, v: View): View
    requires v.toReceiver != [] && !v.receiver.pc.Done?
  {
    var (task, out) := ReceiverOn(s, v.receiver, v.toReceiver[0]);
    View(v.sender, task, v.toReceiver[1..], v.toSender + out)
  }

  function SenderReadsView(s: Session, v: View): View
    requires v.toSender != [] && !v.sender.pc.Done?
  {
    var (task, out) := SenderOn(s, v.sender, v.toSender[0]);
    View(task, v.receiver, v.toReceiver + out, v.toSender[1..])
  }

  /** What a frame put on a quiet wire carries. */
  lemma {:induction false} OutgoingFrame(s: Session, p: Payload)
    ensures [] + FrameOf(s.codec, p) == FrameOf(s.codec, p)
    ensures Carries(FrameOf(s.codec, p), [], s.codec.encode(p))
  {
    FrameCarries(s.codec.encode(p));
  }

  lemma {:induction false} ReceiverReadsOpening(s: Session, v: View)
    requires Honest(s) && PinsUsable(s) && Good(s, v) && v.toReceiver != []
    requires (v.receiver.pc.AwaitNonce? || v.receiver.pc.AwaitToken?)
    ensures Good(s, ReceiverReadsView(s, v))
  {
  }

  lemma {:induction false} ReceiverReadsPin(s: Session, v: View, k: nat)
    requires Honest(s) && PinsUsable(s) && Good(s, v) && v.toReceiver != [] && v.receiver.pc == AwaitPin(k)
    ensures Good(s, ReceiverReadsView(s, v))
  {
    if s.sender.userPins(k) == s.receiver.pin.value.pin {
      RightPin(s.receiver.pin.value, s.sender.userPins, k);
    } else {
      WrongPin(s.receiver.pin.value, s.sender.userPins, k);
    }
  }

  /** A chunk is only buffered. */
  lemma {:induction false} ReceiverReadsChunk(s: Session, v: View)
    requires Good(s, v) && v.toReceiver != [] && v.toReceiver[0].Binary?
    requires v.receiver.pc.AwaitPinStatus? || v.receiver.pc.AwaitPinResult?
    ensures Good(s, ReceiverReadsView(s, v))
  {
    assert v.toSender + [] == v.toSender;
  }

  lemma {:induction false} ReceiverReadsPrompt(s: Session, v: View)
    requires Honest(s) && PinsUsable(s) && Good(s, v) && v.toReceiver != [] && v.toReceiver[0].Text?
    requires (v.receiver.pc.AwaitPinStatus? || v.receiver.pc.AwaitPinResult?) && v.sender.pc.AwaitPin?
    ensures Good(s, ReceiverReadsView(s, v))
  {
  }

  lemma {:induction false} ReceiverReadsRefusal(s: Session, v: View)
    requires Honest(s) && Good(s, v) && v.toReceiver != [] && v.toReceiver[0].Text?
    requires v.receiver.pc.AwaitPinResult? && v.sender.pc.Done?
    ensures Good(s, ReceiverReadsView(s, v))
  {
  }

  lemma {:induction false} ReceiverReadsFileList(s: Session, v: View)
    requires Honest(s) && Good(s, v) && v.toReceiver != [] && v.toReceiver[0].Text?
    requires (v.receiver.pc.AwaitPinStatus? || v.receiver.pc.AwaitPinResult?) && v.sender.pc.AwaitFileTokens?
    ensures Good(s, ReceiverReadsView(s, v))
  {
    OutgoingFrame(s, Answer(s));
  }

  lemma {:induction false} SenderReadsNonce(s: Session, v: View)
    requires Honest(s) && PinsUsable(s) && Good(s, v) && v.toSender != [] && (v.sender.pc.AwaitNonce?)
    ensures Good(s, SenderReadsView(s, v))
  {
  }

  lemma {:induction false} SenderReadsRejection(s: Session, v: View)
    requires Honest(s) && PinsUsable(s) && Good(s, v) && v.toSender != []
    requires v.sender.pc.AwaitTokenResponse? && v.receiver.pc.Done?
    ensures Good(s, SenderReadsView(s, v))
  {
  }

  lemma {:induction false} SenderReadsTokenAndIsAsked(s: Session, v: View)
    requires Honest(s) && PinsUsable(s) && Good(s, v) && v.toSender != []
    requires v.sender.pc.AwaitTokenResponse? && v.receiver.pc.AwaitPin?
    ensures Good(s, SenderReadsView(s, v))
  {
  }

  lemma {:induction false} SenderReadsTokenAndChallenges(s: Session, v: View)
    requires Honest(s) && PinsUsable(s) && Good(s, v) && v.toSender != []
    requires v.sender.pc.AwaitTokenResponse? && v.receiver.pc.AwaitPinStatus? && SenderChallenges(s)
    ensures Good(s, SenderReadsView(s, v))
  {
    OutgoingFrame(s, PinRequired);
  }

  lemma {:induction false} SenderReadsTokenAndOffers(s: Session, v: View)
    requires Honest(s) && PinsUsable(s) && Good(s, v) && v.toSender != []
    requires v.sender.pc.AwaitTokenResponse? && v.receiver.pc.AwaitPinStatus? && !SenderChallenges(s)
    ensures Good(s, SenderReadsView(s, v))
  {
    OutgoingFrame(s, FileOffer(s.files));
  }

  lemma {:induction false} SenderIsAskedAgain(s: Session, v: View)
    requires Honest(s) && PinsUsable(s) && Good(s, v) && v.toSender != []
    requires v.sender.pc.AwaitPinResult? && v.receiver.pc.AwaitPin?
    ensures Good(s, SenderReadsView(s, v))
  {
  }

  lemma {:induction false} SenderIsRefused(s: Session, v: View)
    requires Honest(s) && PinsUsable(s) && Good(s, v) && v.toSender != []
    requires v.sender.pc.AwaitPinResult? && v.receiver.pc.Done?
    ensures Good(s, SenderReadsView(s, v))
  {
  }

  ghost predicate AcceptanceOnTheWay(s: Session, v: View) {
    && NonceKnown(s, v) && v.sender.pc.AwaitPinResult? && v.receiver.pc == AwaitPinStatus([])
    && ReceiverTrusts(s) && SenderSettled(s, v.sender.asked) && SenderPasses(s) && v.receiver.asked == 0
    && OnlyToSender(v, [TextOf(s.codec, PinOk)])
  }

  lemma {:induction false} AcceptanceIsOnTheWay(s: Session, v: View)
    requires Good(s, v) && v.sender.pc.AwaitPinResult? && v.receiver.pc.AwaitPinStatus?
    ensures AcceptanceOnTheWay(s, v)
  {
  }

  lemma {:induction false} SenderOnAcceptance(s: Session, task: Task)
    requires Faithful(s.codec) && task.pc.AwaitPinResult?
    ensures SenderOn(s, task, TextOf(s.codec, PinOk)) == AfterReceiverChallenge(s, task)
  {
    assert s.codec.decode(s.codec.encode(PinOk)) == Some(PinOk);
  }

  lemma {:induction false} SenderMovesOn(s: Session, v: View)
    requires Faithful(s.codec) && AcceptanceOnTheWay(s, v)
    ensures var (task, out) := AfterReceiverChallenge(s, v.sender);
            SenderReadsView(s, v) == View(task, v.receiver, out, [])
  {
    SenderOnAcceptance(s, v.sender);
    var (task, out) := AfterReceiverChallenge(s, v.sender);
    assert v.toSender[0] == TextOf(s.codec, PinOk) && v.toSender[1..] == [];
    assert v.toReceiver + out == out;
  }

  lemma {:induction false} SenderAcceptedAndChallenges(s: Session, v: View)
    requires Honest(s) && PinsUsable(s) && AcceptanceOnTheWay(s, v) && SenderChallenges(s)
    ensures Good(s, SenderReadsView(s, v))
  {
    SenderMovesOn(s, v);
    OutgoingFrame(s, PinRequired);
  }

  lemma {:induction false} SenderAcceptedAndOffers(s: Session, v: View)
    requires Honest(s) && PinsUsable(s) && AcceptanceOnTheWay(s, v) && !SenderChallenges(s)
    ensures Good(s, SenderReadsView(s, v))
  {
    SenderMovesOn(s, v);
    OutgoingFrame(s, FileOffer(s.files));
  }

  lemma {:induction false} SenderIsAccepted(s: Session, v: View)
    requires Honest(s) && PinsUsable(s) && Good(s, v) && v.sender.pc.AwaitPinResult? && v.receiver.pc.AwaitPinStatus?
    ensures v.toSender != [] && Good(s, SenderReadsView(s, v))
  {
    AcceptanceIsOnTheWay(s, v);
    if SenderChallenges(s) {
      SenderAcceptedAndChallenges(s, v);
    } else {
      SenderAcceptedAndOffers(s, v);
    }
  }

  ghost predicate PinOnTheWay(s: Session, v: View, k: nat) {
    && NonceKnown(s, v) && ChallengingReceiver(s, v, k)
    && v.sender.pc == AwaitPin(k) && v.receiver.pc == AwaitPinResult([]) && v.receiver.asked == k + 1
    && OnlyToSender(v, [TextOf(s.codec, Pin(s.receiver.userPins(k)))])
  }

  lemma {:induction false} PinIsOnTheWay(s: Session, v: View, k: nat)
    requires Good(s, v) && v.sender.pc == AwaitPin(k) && v.toSender != []
    ensures PinOnTheWay(s, v, k)
  {
  }

  lemma {:induction false} SenderJudges(s: Session, v: View, k: nat)
    requires Faithful(s.codec) && PinOnTheWay(s, v, k)
    ensures var (task, out) := JudgePinOfReceiver(s, v.sender, s.sender.pin.value, s.receiver.userPins(k), k + 1);
            SenderReadsView(s, v) == View(task, v.receiver, out, [])
  {
    var (task, out) := JudgePinOfReceiver(s, v.sender, s.sender.pin.value, s.receiver.userPins(k), k + 1);
    assert [] + out == out;
  }

  lemma {:induction false} SenderReadsRightPin(s: Session, v: View, k: nat)
    requires Honest(s) && PinOnTheWay(s, v, k) && s.receiver.userPins(k) == s.sender.pin.value.pin
    ensures Good(s, SenderReadsView(s, v))
  {
    SenderJudges(s, v, k);
    RightPin(s.sender.pin.value, s.receiver.userPins, k);
    OutgoingFrame(s, FileOffer(s.files));
  }

  lemma {:induction false} SenderReadsWrongPin(s: Session, v: View, k: nat)
    requires Honest(s) && PinOnTheWay(s, v, k) && s.receiver.userPins(k) != s.sender.pin.value.pin
    requires k + 1 < s.sender.pin.value.maxTries as nat
    ensures Good(s, SenderReadsView(s, v))
  {
    SenderJudges(s, v, k);
    WrongPin(s.sender.pin.value, s.receiver.userPins, k);
    OutgoingFrame(s, PinRequired);
  }

  lemma {:induction false} SenderReadsLastWrongPin(s: Session, v: View, k: nat)
    requires Honest(s) && PinOnTheWay(s, v, k) && s.receiver.userPins(k) != s.sender.pin.value.pin
    requires k + 1 >= s.sender.pin.value.maxTries as nat
    ensures Good(s, SenderReadsView(s, v))
  {
    SenderJudges(s, v, k);
    WrongPin(s.sender.pin.value, s.receiver.userPins, k);
    OutgoingFrame(s, TooManyAttempts);
  }

  lemma {:induction false} SenderReadsFileTokens(s: Session, v: View)
    requires Honest(s) && PinsUsable(s) && Good(s, v) && v.toSender != [] && (v.sender.pc.AwaitFileTokens?)
    ensures Good(s, SenderReadsView(s, v))
  {
  }

  lemma {:induction false} ReceiverReadsString(s: Session, v: View)
    requires Honest(s) && PinsUsable(s) && Good(s, v) && v.toReceiver != []
    requires v.receiver.pc.AwaitPinStatus? || v.receiver.pc.AwaitPinResult?
    ensures Good(s, ReceiverReadsView(s, v))
  {
    if v.toReceiver[0].Binary? {
      ReceiverReadsChunk(s, v);
    } else if v.sender.pc.AwaitPin? {
      ReceiverReadsPrompt(s, v);
    } else if v.sender.pc.Done? {
      ReceiverReadsRefusal(s, v);
    } else {
      ReceiverReadsFileList(s, v);
    }
  }

  lemma {:induction false} ReceiverKeepsGood(s: Session, v: View)
    requires Honest(s) && PinsUsable(s) && Good(s, v) && v.toReceiver != [] && !v.receiver.pc.Done?
    ensures Good(s, ReceiverReadsView(s, v))
  {
    match v.receiver.pc
    case AwaitNonce => ReceiverReadsOpening(s, v);
    case AwaitToken => ReceiverReadsOpening(s, v);
    case AwaitPin(k) => ReceiverReadsPin(s, v, k);
    case AwaitPinStatus(_) => ReceiverReadsString(s, v);
    case AwaitPinResult(_) => ReceiverReadsString(s, v);
    case _ =>
  }

  lemma {:induction false} SenderKeepsGood(s: Session, v: View)
    requires Honest(s) && PinsUsable(s) && Good(s, v) && v.toSender != [] && !v.sender.pc.Done?
    ensures Good(s, SenderReadsView(s, v))
  {
    match v.sender.pc
    case AwaitNonce => SenderReadsNonce(s, v);
    case AwaitTokenResponse =>
      if v.receiver.pc.Done? {
        SenderReadsRejection(s, v);
      } else if v.receiver.pc.AwaitPin? {
        SenderReadsTokenAndIsAsked(s, v);
      } else if SenderChallenges(s) {
        SenderReadsTokenAndChallenges(s, v);
      } else {
        SenderReadsTokenAndOffers(s, v);
      }
    case AwaitPinResult(_) =>
      if v.receiver.pc.AwaitPin? {
        SenderIsAskedAgain(s, v);
      } else if v.receiver.pc.Done? {
        SenderIsRefused(s, v);
      } else {
        SenderIsAccepted(s, v);
      }
    case AwaitPin(k) =>
      PinIsOnTheWay(s, v, k);
      if s.receiver.userPins(k) == s.sender.pin.value.pin {
        SenderReadsRightPin(s, v, k);
      } else if k + 1 < s.sender.pin.value.maxTries as nat {
        SenderReadsWrongPin(s, v, k);
      } else {
        SenderReadsLastWrongPin(s, v, k);
      }
    case _ => SenderReadsFileTokens(s, v);
  }
}
