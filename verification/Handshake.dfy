/** The bodies of the sending and the receiving task up to the file tokens, as
    step machines over two FIFO wires. */
module Handshake {
  import opened Options
  import opened Framing
  import opened Wire
  import opened Pins

  datatype Error = ExpectedText | BadMessage | BadNonce | UnexpectedRefusal

  /** How a task ends. Both peers use the same words. */
  datatype Outcome =
    | Agreed(nonce: Bytes, files: seq<FileDto>, tokens: map<string, string>)
    | UserDeclined
    | PinRefused
    | Untrusted
    | Failed(error: Error)

  datatype Crypto = Crypto(
    sign: (string, Bytes) -> string,
    verify: (string, string, Bytes) -> bool,
    publicKey: string -> string)

  /** What one peer brings along. `userPins(k)` is the answer of its user to
      the k-th PIN prompt. */
  datatype Peer = Peer(nonce: Bytes, key: string, expecting: Option<string>, pin: Option<PinConfig>,
                       userPins: nat -> string)

  /** `selection` is the decision of the receiving user, `None` to decline;
      `tokenOf` draws the random token of each selected file. */
  datatype Session = Session(
    codec: Codec, crypto: Crypto, sender: Peer, receiver: Peer,
    files: seq<FileDto>, selection: Option<set<string>>, tokenOf: string -> string)

  /** Where a task waits for its next message. */
  datatype Pc =
    | AwaitNonce
    | AwaitToken
    | AwaitTokenResponse
    | AwaitPin(tries: nat)
    | AwaitPinResult(buffer: Bytes)
    | AwaitPinStatus(buffer: Bytes)
    | AwaitFileTokens(buffer: Bytes)
    | Done(outcome: Outcome)

  /** `nonce` is the agreed nonce once known, `asked` counts the PINs sent. */
  datatype Task = Task(pc: Pc, nonce: Bytes, asked: nat)

  predicate IsValidNonce(nonce: Bytes) {
    16 <= |nonce| <= 128
  }

  function Trusts(crypto: Crypto, expecting: Option<string>, token: string, nonce: Bytes): bool {
    expecting.Some? ==> crypto.verify(expecting.value, token, nonce)
  }

  function End(task: Task, outcome: Outcome): Task {
    task.(pc := Done(outcome))
  }

  function Fail(task: Task, error: Error): (Task, seq<Message>) {
    (End(task, Failed(error)), [])
  }

  // ----- The sending task -----

  function OfferFiles(s: Session, task: Task): (Task, seq<Message>) {
    (task.(pc := AwaitFileTokens([])), FrameOf(s.codec, FileOffer(s.files)))
  }

  /** The verdict of the sender on the PINs of the receiver, `tries` of them
      read; the first prompt is an explicit notice. */
  function JudgePinOfReceiver(s: Session, task: Task, cfg: PinConfig, pin: string, tries: nat): (Task, seq<Message>) {
    match Judge(cfg, pin, tries)
    case Accept => OfferFiles(s, task)
    case Exhausted => (End(task, PinRefused), FrameOf(s.codec, TooManyAttempts))
    case Ask => (task.(pc := AwaitPin(tries)), FrameOf(s.codec, PinRequired))
  }

  function AfterReceiverChallenge(s: Session, task: Task): (Task, seq<Message>) {
    match s.sender.pin
    case Some(cfg) => JudgePinOfReceiver(s, task, cfg, "", 0)
    case None => OfferFiles(s, task)
  }

  function EnterPin(s: Session, peer: Peer, task: Task): (Task, seq<Message>) {
    (task.(pc := AwaitPinResult([]), asked := task.asked + 1), [TextOf(s.codec, Pin(peer.userPins(task.asked)))])
  }

  function SenderOn(s: Session, task: Task, msg: Message): (Task, seq<Message>)
    requires !task.pc.Done?
  {
    match task.pc
    case AwaitNonce =>
      if msg.Binary? then Fail(task, ExpectedText)
      else (match s.codec.decode(msg.data)
        case Some(Nonce(remote)) =>
          if !IsValidNonce(remote) then Fail(task, BadNonce)
          else
            var nonce := s.sender.nonce + remote;
            (task.(pc := AwaitTokenResponse, nonce := nonce),
             [TextOf(s.codec, TokenRequest(s.crypto.sign(s.sender.key, nonce)))])
        case _ => Fail(task, BadMessage))
    case AwaitTokenResponse =>
      if msg.Binary? then Fail(task, ExpectedText)
      else (match s.codec.decode(msg.data)
        case Some(TokenOk(token)) =>
          if !Trusts(s.crypto, s.sender.expecting, token, task.nonce) then (End(task, Untrusted), [])
          else AfterReceiverChallenge(s, task)
        case Some(TokenPinRequired(token)) =>
          if !Trusts(s.crypto, s.sender.expecting, token, task.nonce) then (End(task, Untrusted), [])
          else EnterPin(s, s.sender, task)
        case Some(InvalidSignature) => (End(task, Untrusted), [])
        case _ => Fail(task, BadMessage))
    case AwaitPinResult(_) =>
      if msg.Binary? then Fail(task, ExpectedText)
      else (match s.codec.decode(msg.data)
        case Some(p) =>
          (match StatusOf(p)
          case StatusOk => AfterReceiverChallenge(s, task)
          case StatusPinRequired => EnterPin(s, s.sender, task)
          case StatusTooManyAttempts => (End(task, PinRefused), [])
          case StatusOther => Fail(task, BadMessage))
        case None => Fail(task, BadMessage))
    case AwaitPin(tries) =>
      // The one read that does not look at the kind of the message.
      (match (PinOf(s.codec, msg), s.sender.pin)
      case (Some(pin), Some(cfg)) => JudgePinOfReceiver(s, task, cfg, pin, tries + 1)
      case _ => Fail(task, BadMessage))
    case AwaitFileTokens(buffer) =>
      if msg.Binary? then (task.(pc := AwaitFileTokens(buffer + msg.data)), [])
      else (match s.codec.decode(buffer)
        case Some(FileTokens(tokens)) => (End(task, Agreed(task.nonce, s.files, tokens)), [])
        case Some(Declined) => (End(task, UserDeclined), [])
        case Some(InvalidSignature) => (End(task, Untrusted), [])
        case _ => Fail(task, BadMessage))
    case _ => Fail(task, BadMessage)
  }

  // ----- The receiving task -----

  function Tokens(s: Session, selection: set<string>): map<string, string> {
    map id | id in selection :: s.tokenOf(id)
  }

  function Answer(s: Session): Payload {
    match s.selection
    case None => Declined
    case Some(ids) => FileTokens(Tokens(s, ids))
  }

  function GotFileList(s: Session, task: Task, files: seq<FileDto>): (Task, seq<Message>) {
    match s.selection
    case None => (End(task, UserDeclined), FrameOf(s.codec, Declined))
    case Some(ids) =>
      (End(task, Agreed(task.nonce, files, Tokens(s, ids))), FrameOf(s.codec, FileTokens(Tokens(s, ids))))
  }

  /** The verdict of the receiver on the PINs of the sender: no initial notice,
      because the token response already asked. */
  function JudgePinOfSender(s: Session, task: Task, cfg: PinConfig, pin: string, tries: nat): (Task, seq<Message>) {
    match Judge(cfg, pin, tries)
    case Accept => (task.(pc := AwaitPinStatus([])), [TextOf(s.codec, PinOk)])
    case Exhausted => (End(task, PinRefused), [TextOf(s.codec, TooManyAttempts)])
    case Ask => (task.(pc := AwaitPin(tries)), if tries > 0 then [TextOf(s.codec, PinRequired)] else [])
  }

  function ReceiverOn(s: Session, task: Task, msg: Message): (Task, seq<Message>)
    requires !task.pc.Done?
  {
    match task.pc
    case AwaitNonce =>
      if msg.Binary? then Fail(task, ExpectedText)
      else (match s.codec.decode(msg.data)
        case Some(Nonce(remote)) =>
          if !IsValidNonce(remote) then Fail(task, BadNonce)
          else (task.(pc := AwaitToken, nonce := remote + s.receiver.nonce), [TextOf(s.codec, Nonce(s.receiver.nonce))])
        case _ => Fail(task, BadMessage))
    case AwaitToken =>
      if msg.Binary? then Fail(task, ExpectedText)
      else (match s.codec.decode(msg.data)
        case Some(TokenRequest(token)) =>
          if !Trusts(s.crypto, s.receiver.expecting, token, task.nonce) then
            (End(task, Untrusted), [TextOf(s.codec, InvalidSignature)])
          else
            var own := s.crypto.sign(s.receiver.key, task.nonce);
            (match s.receiver.pin
            case None => (task.(pc := AwaitPinStatus([])), [TextOf(s.codec, TokenOk(own))])
            case Some(cfg) =>
              var (next, out) := JudgePinOfSender(s, task, cfg, "", 0);
              (next, [TextOf(s.codec, TokenPinRequired(own))] + out))
        case _ => Fail(task, BadMessage))
    case AwaitPin(tries) =>
      (match (PinOf(s.codec, msg), s.receiver.pin)
      case (Some(pin), Some(cfg)) => JudgePinOfSender(s, task, cfg, pin, tries + 1)
      case _ => Fail(task, BadMessage))
    case AwaitPinStatus(buffer) =>
      if msg.Binary? then (task.(pc := AwaitPinStatus(buffer + msg.data)), [])
      else (match s.codec.decode(buffer)
        case Some(FileOffer(files)) => GotFileList(s, task, files)
        case Some(p) =>
          (match StatusOf(p)
          case StatusPinRequired => EnterPin(s, s.receiver, task)
          case StatusTooManyAttempts => Fail(task, UnexpectedRefusal)
          case _ => Fail(task, BadMessage))
        case None => Fail(task, BadMessage))
    case AwaitPinResult(buffer) =>
      if msg.Binary? then (task.(pc := AwaitPinResult(buffer + msg.data)), [])
      else (match s.codec.decode(buffer)
        case Some(FileOffer(files)) => GotFileList(s, task, files)
        case Some(p) =>
          (match StatusOf(p)
          case StatusPinRequired => EnterPin(s, s.receiver, task)
          case StatusTooManyAttempts => (End(task, PinRefused), [])
          case _ => Fail(task, BadMessage))
        case None => Fail(task, BadMessage))
    case _ => Fail(task, BadMessage)
  }

  // ----- The two tasks and the wires between them -----

  /** `senderOut` and `receiverOut` are what a task still has to send before it
      reads again; each send is a step of its own. */
  datatype State = State(
    sender: Task, senderOut: seq<Message>, wireToReceiver: seq<Message>,
    receiver: Task, receiverOut: seq<Message>, wireToSender: seq<Message>)

  datatype Action = SenderSends | SenderReads | ReceiverSends | ReceiverReads

  function Initial(s: Session): State {
    State(Task(AwaitNonce, [], 0), [TextOf(s.codec, Nonce(s.sender.nonce))], [],
          Task(AwaitNonce, [], 0), [], [])
  }

  predicate Enabled(st: State, a: Action) {
    match a
    case SenderSends => st.senderOut != []
    case ReceiverSends => st.receiverOut != []
    case SenderReads => st.senderOut == [] && !st.sender.pc.Done? && st.wireToSender != []
    case ReceiverReads => st.receiverOut == [] && !st.receiver.pc.Done? && st.wireToReceiver != []
  }

  function Step(s: Session, st: State, a: Action): State
    requires Enabled(st, a)
  {
    match a
    case SenderSends =>
      st.(senderOut := st.senderOut[1..], wireToReceiver := st.wireToReceiver + [st.senderOut[0]])
    case ReceiverSends =>
      st.(receiverOut := st.receiverOut[1..], wireToSender := st.wireToSender + [st.receiverOut[0]])
    case SenderReads =>
      var (task, out) := SenderOn(s, st.sender, st.wireToSender[0]);
      st.(sender := task, senderOut := out, wireToSender := st.wireToSender[1..])
    case ReceiverReads =>
      var (task, out) := ReceiverOn(s, st.receiver, st.wireToReceiver[0]);
      st.(receiver := task, receiverOut := out, wireToReceiver := st.wireToReceiver[1..])
  }

  predicate BothDone(st: State) {
    st.sender.pc.Done? && st.receiver.pc.Done?
  }

  predicate Silent(st: State) {
    st.senderOut == [] && st.receiverOut == [] && st.wireToSender == [] && st.wireToReceiver == []
  }
}
