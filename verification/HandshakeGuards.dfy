/** What a peer must have said, whoever it is, before a task trusts it. */
module HandshakeGuards {
  import opened Options
  import opened Framing
  import opened Wire
  import opened Pins
  import opened Handshake

  // ----- What the messages say -----

  /** A nonce of 16 to 128 bytes, in a text message. */
  function NonceIn(codec: Codec, msg: Message): Option<Bytes> {
    if msg.Binary? then None
    else match codec.decode(msg.data)
      case Some(Nonce(nonce)) => if 16 <= |nonce| <= 128 then Some(nonce) else None
      case _ => None
  }

  /** The token of the receiver, in a text message, asking for a PIN or not. */
  function TokenIn(codec: Codec, msg: Message): Option<string> {
    if msg.Binary? then None
    else match codec.decode(msg.data)
      case Some(TokenOk(token)) => Some(token)
      case Some(TokenPinRequired(token)) => Some(token)
      case _ => None
  }

  function RequestIn(codec: Codec, msg: Message): Option<string> {
    if msg.Binary? then None
    else match codec.decode(msg.data)
      case Some(TokenRequest(token)) => Some(token)
      case _ => None
  }

  predicate Verified(crypto: Crypto, expecting: Option<string>, token: string, nonce: Bytes) {
    expecting.None? || crypto.verify(expecting.value, token, nonce)
  }

  /** The first message is a nonce, the second a token that signs the joint one. */
  predicate SenderVouched(s: Session, seen: seq<Message>, nonce: Bytes) {
    && |seen| >= 2
    && NonceIn(s.codec, seen[0]).Some? && nonce == s.sender.nonce + NonceIn(s.codec, seen[0]).value
    && TokenIn(s.codec, seen[1]).Some?
    && Verified(s.crypto, s.sender.expecting, TokenIn(s.codec, seen[1]).value, nonce)
  }

  predicate ReceiverVouched(s: Session, seen: seq<Message>, nonce: Bytes) {
    && |seen| >= 2
    && NonceIn(s.codec, seen[0]).Some? && nonce == NonceIn(s.codec, seen[0]).value + s.receiver.nonce
    && RequestIn(s.codec, seen[1]).Some?
    && Verified(s.crypto, s.receiver.expecting, RequestIn(s.codec, seen[1]).value, nonce)
  }

  predicate WrongPins(codec: Codec, cfg: PinConfig, seen: seq<Message>, from: nat, to: nat) {
    from <= to <= |seen|
    && forall j :: from <= j < to ==> PinOf(codec, seen[j]).Some? && PinOf(codec, seen[j]).value != cfg.pin
  }

  /** The right PIN at `i`, as the try after `k` wrong ones in a row. */
  predicate RightPinAt(codec: Codec, cfg: PinConfig, seen: seq<Message>, i: nat, k: nat) {
    && k < cfg.maxTries as nat && 2 + k <= i < |seen|
    && PinOf(codec, seen[i]) == Some(cfg.pin) && WrongPins(codec, cfg, seen, i - k, i)
  }

  /** No PIN is configured, or an empty one, or it was given within the tries. */
  ghost predicate PinGiven(codec: Codec, pin: Option<PinConfig>, seen: seq<Message>) {
    pin.None? || pin.value.pin == "" || exists i: nat, k: nat :: RightPinAt(codec, pin.value, seen, i, k)
  }

  function Joined(msgs: seq<Message>): Bytes {
    if msgs == [] then [] else Joined(msgs[..|msgs| - 1]) + msgs[|msgs| - 1].data
  }

  /** `buffer` is the data of the binaries from `from` on. */
  predicate Buffered(seen: seq<Message>, from: nat, buffer: Bytes) {
    2 <= from <= |seen| && (forall i :: from <= i < |seen| ==> seen[i].Binary?) && buffer == Joined(seen[from..])
  }

  ghost predicate IsBuffer(seen: seq<Message>, buffer: Bytes) {
    exists from: nat :: Buffered(seen, from, buffer)
  }

  predicate StringAt(codec: Codec, seen: seq<Message>, from: nat, to: nat, p: Payload) {
    && from <= to < |seen| && seen[to].Text? && Buffered(seen[..to], from, Joined(seen[from..to]))
    && codec.decode(Joined(seen[from..to])) == Some(p)
  }

  /** `p` came as a string: binaries and then a text message. */
  ghost predicate CameAsString(codec: Codec, seen: seq<Message>, p: Payload) {
    exists from: nat, to: nat :: StringAt(codec, seen, from, to, p)
  }

  // ----- The tasks on any messages -----

  const START: Task := Task(AwaitNonce, [], 0)

  function SenderAfter(s: Session, seen: seq<Message>): Task {
    if seen == [] then START
    else
      var task := SenderAfter(s, seen[..|seen| - 1]);
      if task.pc.Done? then task else SenderOn(s, task, seen[|seen| - 1]).0
  }

  function ReceiverAfter(s: Session, seen: seq<Message>): Task {
    if seen == [] then START
    else
      var task := ReceiverAfter(s, seen[..|seen| - 1]);
      if task.pc.Done? then task else ReceiverOn(s, task, seen[|seen| - 1]).0
  }

  /** What must have been read for the sender to be where it is. */
  ghost predicate SenderGuarded(s: Session, seen: seq<Message>, task: Task) {
    match task.pc
    case AwaitNonce => seen == []
    case AwaitTokenResponse =>
      |seen| == 1 && NonceIn(s.codec, seen[0]).Some? && task.nonce == s.sender.nonce + NonceIn(s.codec, seen[0]).value
    case AwaitPinResult(_) => SenderVouched(s, seen, task.nonce)
    case AwaitPin(k) =>
      && SenderVouched(s, seen, task.nonce) && s.sender.pin.Some? && s.sender.pin.value.pin != ""
      && k < s.sender.pin.value.maxTries as nat && 2 + k <= |seen|
      && WrongPins(s.codec, s.sender.pin.value, seen, |seen| - k, |seen|)
    case AwaitFileTokens(buffer) =>
      SenderVouched(s, seen, task.nonce) && PinGiven(s.codec, s.sender.pin, seen) && IsBuffer(seen, buffer)
    case Done(Agreed(nonce, files, tokens)) =>
      && SenderVouched(s, seen, nonce) && PinGiven(s.codec, s.sender.pin, seen)
      && files == s.files && CameAsString(s.codec, seen, FileTokens(tokens))
    case Done(UserDeclined) =>
      && SenderVouched(s, seen, task.nonce) && PinGiven(s.codec, s.sender.pin, seen)
      && CameAsString(s.codec, seen, Declined)
    case Done(_) => true
    case _ => false
  }

  ghost predicate ReceiverGuarded(s: Session, seen: seq<Message>, task: Task) {
    match task.pc
    case AwaitNonce => seen == []
    case AwaitToken =>
      |seen| == 1 && NonceIn(s.codec, seen[0]).Some? && task.nonce == NonceIn(s.codec, seen[0]).value + s.receiver.nonce
    case AwaitPin(k) =>
      && ReceiverVouched(s, seen, task.nonce) && s.receiver.pin.Some? && s.receiver.pin.value.pin != ""
      && k < s.receiver.pin.value.maxTries as nat && 2 + k <= |seen|
      && WrongPins(s.codec, s.receiver.pin.value, seen, |seen| - k, |seen|)
    case AwaitPinStatus(buffer) =>
      ReceiverVouched(s, seen, task.nonce) && PinGiven(s.codec, s.receiver.pin, seen) && IsBuffer(seen, buffer)
    case AwaitPinResult(buffer) =>
      ReceiverVouched(s, seen, task.nonce) && PinGiven(s.codec, s.receiver.pin, seen) && IsBuffer(seen, buffer)
    case Done(Agreed(nonce, files, tokens)) =>
      && ReceiverVouched(s, seen, nonce) && PinGiven(s.codec, s.receiver.pin, seen)
      && CameAsString(s.codec, seen, FileOffer(files)) && s.selection.Some? && tokens == Tokens(s, s.selection.value)
    case Done(UserDeclined) =>
      && ReceiverVouched(s, seen, task.nonce) && PinGiven(s.codec, s.receiver.pin, seen)
      && s.selection.None? && exists files :: CameAsString(s.codec, seen, FileOffer(files))
    case Done(_) => true
    case _ => false
  }

  // ----- One more message -----

  lemma {:induction false} VouchedStays(s: Session, seen: seq<Message>, msg: Message, nonce: Bytes)
    ensures SenderVouched(s, seen, nonce) ==> SenderVouched(s, seen + [msg], nonce)
    ensures ReceiverVouched(s, seen, nonce) ==> ReceiverVouched(s, seen + [msg], nonce)
  {
  }

  lemma {:induction false} PinGivenStays(codec: Codec, pin: Option<PinConfig>, seen: seq<Message>, msg: Message)
    requires PinGiven(codec, pin, seen)
    ensures PinGiven(codec, pin, seen + [msg])
  {
    if pin.Some? && pin.value.pin != "" {
      var i: nat, k: nat :| RightPinAt(codec, pin.value, seen, i, k);
      assert RightPinAt(codec, pin.value, seen + [msg], i, k);
    }
  }

  lemma {:induction false} StringStays(codec: Codec, seen: seq<Message>, msg: Message, p: Payload)
    requires CameAsString(codec, seen, p)
    ensures CameAsString(codec, seen + [msg], p)
  {
    var from: nat, to: nat :| StringAt(codec, seen, from, to, p);
    assert (seen + [msg])[..to] == seen[..to] && (seen + [msg])[from..to] == seen[from..to];
    assert StringAt(codec, seen + [msg], from, to, p);
  }

  lemma {:induction false} BufferStarts(seen: seq<Message>)
    requires |seen| >= 2
    ensures IsBuffer(seen, [])
  {
    assert seen[|seen|..] == [];
    assert Buffered(seen, |seen|, []);
  }

  lemma {:induction false} BufferGrows(seen: seq<Message>, buffer: Bytes, msg: Message)
    requires IsBuffer(seen, buffer) && msg.Binary?
    ensures IsBuffer(seen + [msg], buffer + msg.data)
  {
    var from: nat :| Buffered(seen, from, buffer);
    var now := seen + [msg];
    assert now[from..] == seen[from..] + [msg];
    assert now[from..][..|now[from..]| - 1] == seen[from..];
    assert Buffered(now, from, buffer + msg.data);
  }

  lemma {:induction false} BufferCloses(codec: Codec, seen: seq<Message>, buffer: Bytes, msg: Message, p: Payload)
    requires IsBuffer(seen, buffer) && msg.Text? && codec.decode(buffer) == Some(p)
    ensures CameAsString(codec, seen + [msg], p)
  {
    var from: nat :| Buffered(seen, from, buffer);
    assert (seen + [msg])[..|seen|] == seen && (seen + [msg])[from..|seen|] == seen[from..];
    assert StringAt(codec, seen + [msg], from, |seen|, p);
  }

  /** A PIN that was read where `k` wrong ones were read before. */
  lemma {:induction false} OnePinMore(codec: Codec, cfg: PinConfig, seen: seq<Message>, k: nat, msg: Message,
                                      pin: string)
    requires 2 + k <= |seen| && k < cfg.maxTries as nat && WrongPins(codec, cfg, seen, |seen| - k, |seen|)
    requires PinOf(codec, msg) == Some(pin)
    ensures pin == cfg.pin ==> PinGiven(codec, Some(cfg), seen + [msg])
    ensures pin != cfg.pin ==> WrongPins(codec, cfg, seen + [msg], |seen| - k, |seen| + 1)
  {
    var now := seen + [msg];
    assert forall j :: 0 <= j < |seen| ==> now[j] == seen[j];
    if pin == cfg.pin {
      assert RightPinAt(codec, cfg, now, |seen|, k);
    }
  }

  // ----- The sender -----

  lemma {:induction false} SenderOffersGuarded(s: Session, seen: seq<Message>, task: Task)
    requires SenderVouched(s, seen, task.nonce) && PinGiven(s.codec, s.sender.pin, seen)
    ensures SenderGuarded(s, seen, OfferFiles(s, task).0)
  {
    BufferStarts(seen);
  }

  lemma {:induction false} SenderChallengesGuarded(s: Session, seen: seq<Message>, task: Task)
    requires SenderVouched(s, seen, task.nonce)
    ensures SenderGuarded(s, seen, AfterReceiverChallenge(s, task).0)
  {
    if s.sender.pin.None? || s.sender.pin.value.pin == "" {
      SenderOffersGuarded(s, seen, task);
    }
  }

  lemma {:induction false} SenderPinGuarded(s: Session, seen: seq<Message>, task: Task, msg: Message)
    requires task.pc.AwaitPin? && SenderGuarded(s, seen, task)
    ensures SenderGuarded(s, seen + [msg], SenderOn(s, task, msg).0)
  {
    VouchedStays(s, seen, msg, task.nonce);
    if PinOf(s.codec, msg).Some? {
      var cfg, pin := s.sender.pin.value, PinOf(s.codec, msg).value;
      OnePinMore(s.codec, cfg, seen, task.pc.tries, msg, pin);
      if pin == cfg.pin {
        SenderOffersGuarded(s, seen + [msg], task);
      }
    }
  }

  lemma {:induction false} SenderTokenGuarded(s: Session, seen: seq<Message>, task: Task, msg: Message)
    requires task.pc.AwaitTokenResponse? && SenderGuarded(s, seen, task)
    ensures SenderGuarded(s, seen + [msg], SenderOn(s, task, msg).0)
  {
    if TokenIn(s.codec, msg).Some? && Verified(s.crypto, s.sender.expecting, TokenIn(s.codec, msg).value, task.nonce) {
      SenderChallengesGuarded(s, seen + [msg], task);
    }
  }

  lemma {:induction false} SenderResultGuarded(s: Session, seen: seq<Message>, task: Task, msg: Message)
    requires task.pc.AwaitPinResult? && SenderGuarded(s, seen, task)
    ensures SenderGuarded(s, seen + [msg], SenderOn(s, task, msg).0)
  {
    VouchedStays(s, seen, msg, task.nonce);
    SenderChallengesGuarded(s, seen + [msg], task);
  }

  lemma {:induction false} SenderTokensGuarded(s: Session, seen: seq<Message>, task: Task, msg: Message)
    requires task.pc.AwaitFileTokens? && SenderGuarded(s, seen, task)
    ensures SenderGuarded(s, seen + [msg], SenderOn(s, task, msg).0)
  {
    VouchedStays(s, seen, msg, task.nonce);
    PinGivenStays(s.codec, s.sender.pin, seen, msg);
    if msg.Binary? {
      BufferGrows(seen, task.pc.buffer, msg);
    } else if s.codec.decode(task.pc.buffer).Some? {
      BufferCloses(s.codec, seen, task.pc.buffer, msg, s.codec.decode(task.pc.buffer).value);
    }
  }

  lemma {:induction false} SenderDoneGuarded(s: Session, seen: seq<Message>, task: Task, msg: Message)
    requires task.pc.Done? && SenderGuarded(s, seen, task)
    ensures SenderGuarded(s, seen + [msg], task)
  {
    match task.pc.outcome
    case Agreed(nonce, _, tokens) =>
      VouchedStays(s, seen, msg, nonce);
      PinGivenStays(s.codec, s.sender.pin, seen, msg);
      StringStays(s.codec, seen, msg, FileTokens(tokens));
    case UserDeclined =>
      VouchedStays(s, seen, msg, task.nonce);
      PinGivenStays(s.codec, s.sender.pin, seen, msg);
      StringStays(s.codec, seen, msg, Declined);
    case _ =>
  }

  lemma {:induction false} SenderNonceGuarded(s: Session, task: Task, msg: Message)
    requires task.pc.AwaitNonce?
    ensures SenderGuarded(s, [msg], SenderOn(s, task, msg).0)
  {
  }

  lemma {:induction false} SenderStepGuarded(s: Session, seen: seq<Message>, task: Task, msg: Message)
    requires !task.pc.Done? && SenderGuarded(s, seen, task)
    ensures SenderGuarded(s, seen + [msg], SenderOn(s, task, msg).0)
  {
    match task.pc
    case AwaitNonce =>
      assert seen + [msg] == [msg];
      SenderNonceGuarded(s, task, msg);
    case AwaitTokenResponse => SenderTokenGuarded(s, seen, task, msg);
    case AwaitPinResult(_) => SenderResultGuarded(s, seen, task, msg);
    case AwaitPin(_) => SenderPinGuarded(s, seen, task, msg);
    case _ => SenderTokensGuarded(s, seen, task, msg);
  }

  /** Whatever arrives, from whomever: the sender offers its files, and agrees,
      only after a nonce of a legal size, a token that verifies under the key it
      expects, and, if it has set a PIN, that PIN within the tries; the tokens it
      agrees on are the ones it was sent. */
  lemma {:induction false} SenderOnAnyInput(s: Session, seen: seq<Message>)
    ensures SenderGuarded(s, seen, SenderAfter(s, seen))
  {
    if seen != [] {
      var before, msg := seen[..|seen| - 1], seen[|seen| - 1];
      SenderOnAnyInput(s, before);
      assert before + [msg] == seen;
      if SenderAfter(s, before).pc.Done? {
        SenderDoneGuarded(s, before, SenderAfter(s, before), msg);
      } else {
        SenderStepGuarded(s, before, SenderAfter(s, before), msg);
      }
    }
  }

  /** What the sender sends on a message: its token, a PIN its user typed, a
      verdict on a PIN, or, exactly when it goes on to wait for the file
      tokens, the file list. */
  lemma {:induction false} SenderSends(s: Session, task: Task, msg: Message)
    requires !task.pc.Done?
    ensures var (next, out) := SenderOn(s, task, msg);
      || (next.pc == AwaitFileTokens([]) && !task.pc.AwaitFileTokens? && out == FrameOf(s.codec, FileOffer(s.files)))
      || (next.pc.AwaitFileTokens? && task.pc.AwaitFileTokens? && out == [])
      || (next.pc == AwaitTokenResponse
          && out == [TextOf(s.codec, TokenRequest(s.crypto.sign(s.sender.key, next.nonce)))])
      || (next.pc == AwaitPinResult([]) && out == [TextOf(s.codec, Pin(s.sender.userPins(task.asked)))])
      || (next.pc.AwaitPin? && out == FrameOf(s.codec, PinRequired))
      || (next.pc == Done(PinRefused) && out == FrameOf(s.codec, TooManyAttempts))
      || (next.pc.Done? && out == [])
  {
  }

  // ----- The receiver -----

  lemma {:induction false} ReceiverPinGuarded(s: Session, seen: seq<Message>, task: Task, msg: Message)
    requires task.pc.AwaitPin? && ReceiverGuarded(s, seen, task)
    ensures ReceiverGuarded(s, seen + [msg], ReceiverOn(s, task, msg).0)
  {
    VouchedStays(s, seen, msg, task.nonce);
    BufferStarts(seen + [msg]);
    if PinOf(s.codec, msg).Some? {
      OnePinMore(s.codec, s.receiver.pin.value, seen, task.pc.tries, msg, PinOf(s.codec, msg).value);
    }
  }

  lemma {:induction false} ReceiverTokenGuarded(s: Session, seen: seq<Message>, task: Task, msg: Message)
    requires task.pc.AwaitToken? && ReceiverGuarded(s, seen, task)
    ensures ReceiverGuarded(s, seen + [msg], ReceiverOn(s, task, msg).0)
  {
    BufferStarts(seen + [msg]);
  }

  /** The receiver waits for a string, `buffer` of it read. */
  predicate ReadsString(task: Task, buffer: Bytes) {
    task.pc == AwaitPinStatus(buffer) || task.pc == AwaitPinResult(buffer)
  }

  lemma {:induction false} ReceiverChunkGuarded(s: Session, seen: seq<Message>, task: Task, msg: Message, buffer: Bytes)
    requires ReadsString(task, buffer) && ReceiverGuarded(s, seen, task) && msg.Binary?
    ensures ReceiverGuarded(s, seen + [msg], ReceiverOn(s, task, msg).0)
  {
    VouchedStays(s, seen, msg, task.nonce);
    PinGivenStays(s.codec, s.receiver.pin, seen, msg);
    BufferGrows(seen, buffer, msg);
  }

  lemma {:induction false} ReceiverListGuarded(s: Session, seen: seq<Message>, task: Task, msg: Message, buffer: Bytes,
                                               files: seq<FileDto>)
    requires ReadsString(task, buffer) && ReceiverGuarded(s, seen, task) && msg.Text?
    requires s.codec.decode(buffer) == Some(FileOffer(files))
    ensures ReceiverGuarded(s, seen + [msg], ReceiverOn(s, task, msg).0)
  {
    VouchedStays(s, seen, msg, task.nonce);
    PinGivenStays(s.codec, s.receiver.pin, seen, msg);
    BufferCloses(s.codec, seen, buffer, msg, FileOffer(files));
    assert ReceiverOn(s, task, msg) == GotFileList(s, task, files);
  }

  lemma {:induction false} ReceiverTextGuarded(s: Session, seen: seq<Message>, task: Task, msg: Message, buffer: Bytes)
    requires ReadsString(task, buffer) && ReceiverGuarded(s, seen, task) && msg.Text?
    requires s.codec.decode(buffer).None? || !s.codec.decode(buffer).value.FileOffer?
    ensures ReceiverGuarded(s, seen + [msg], ReceiverOn(s, task, msg).0)
  {
    VouchedStays(s, seen, msg, task.nonce);
    PinGivenStays(s.codec, s.receiver.pin, seen, msg);
    BufferStarts(seen + [msg]);
  }

  lemma {:induction false} ReceiverStringGuarded(s: Session, seen: seq<Message>, task: Task, msg: Message,
                                                 buffer: Bytes)
    requires ReadsString(task, buffer) && ReceiverGuarded(s, seen, task)
    ensures ReceiverGuarded(s, seen + [msg], ReceiverOn(s, task, msg).0)
  {
    if msg.Binary? {
      ReceiverChunkGuarded(s, seen, task, msg, buffer);
    } else {
      match s.codec.decode(buffer)
      case Some(FileOffer(files)) => ReceiverListGuarded(s, seen, task, msg, buffer, files);
      case _ => ReceiverTextGuarded(s, seen, task, msg, buffer);
    }
  }

  lemma {:induction false} ReceiverDoneGuarded(s: Session, seen: seq<Message>, task: Task, msg: Message)
    requires task.pc.Done? && ReceiverGuarded(s, seen, task)
    ensures ReceiverGuarded(s, seen + [msg], task)
  {
    match task.pc.outcome
    case Agreed(nonce, files, _) =>
      VouchedStays(s, seen, msg, nonce);
      PinGivenStays(s.codec, s.receiver.pin, seen, msg);
      StringStays(s.codec, seen, msg, FileOffer(files));
    case UserDeclined =>
      VouchedStays(s, seen, msg, task.nonce);
      PinGivenStays(s.codec, s.receiver.pin, seen, msg);
      var files :| CameAsString(s.codec, seen, FileOffer(files));
      StringStays(s.codec, seen, msg, FileOffer(files));
    case _ =>
  }

  lemma {:induction false} ReceiverNonceGuarded(s: Session, task: Task, msg: Message)
    requires task.pc.AwaitNonce?
    ensures ReceiverGuarded(s, [msg], ReceiverOn(s, task, msg).0)
  {
  }

  lemma {:induction false} ReceiverStepGuarded(s: Session, seen: seq<Message>, task: Task, msg: Message)
    requires !task.pc.Done? && ReceiverGuarded(s, seen, task)
    ensures ReceiverGuarded(s, seen + [msg], ReceiverOn(s, task, msg).0)
  {
    match task.pc
    case AwaitNonce =>
      assert seen + [msg] == [msg];
      ReceiverNonceGuarded(s, task, msg);
    case AwaitToken => ReceiverTokenGuarded(s, seen, task, msg);
    case AwaitPin(_) => ReceiverPinGuarded(s, seen, task, msg);
    case AwaitPinStatus(buffer) => ReceiverStringGuarded(s, seen, task, msg, buffer);
    case AwaitPinResult(buffer) => ReceiverStringGuarded(s, seen, task, msg, buffer);
  }

  /** Whatever arrives, from whomever: the receiver takes a file list, answers it
      and agrees only after a nonce of a legal size, a token that verifies under
      the key it expects and, if it has set a PIN, that PIN within the tries; the
      list is the one it was sent, and the tokens are for what its user selected. */
  lemma {:induction false} ReceiverOnAnyInput(s: Session, seen: seq<Message>)
    ensures ReceiverGuarded(s, seen, ReceiverAfter(s, seen))
  {
    if seen != [] {
      var before, msg := seen[..|seen| - 1], seen[|seen| - 1];
      ReceiverOnAnyInput(s, before);
      assert before + [msg] == seen;
      if ReceiverAfter(s, before).pc.Done? {
        ReceiverDoneGuarded(s, before, ReceiverAfter(s, before), msg);
      } else {
        ReceiverStepGuarded(s, before, ReceiverAfter(s, before), msg);
      }
    }
  }

  /** What the receiver sends on a message: its nonce, its own token, a verdict
      on a PIN, a PIN its user typed, or, exactly when it ends, the answer to the
      file list or the refusal of a token or PIN. */
  lemma {:induction false} ReceiverSends(s: Session, task: Task, msg: Message)
    requires !task.pc.Done?
    ensures var (next, out) := ReceiverOn(s, task, msg);
      || (next.pc == AwaitToken && out == [TextOf(s.codec, Nonce(s.receiver.nonce))])
      || (task.pc.AwaitToken? && AnswersToken(s, task, next, out))
      || (task.pc.AwaitPin? && next.pc == AwaitPinStatus([]) && out == [TextOf(s.codec, PinOk)])
      || (task.pc.AwaitPin? && next.pc.AwaitPin? && out == [TextOf(s.codec, PinRequired)])
      || (task.pc.AwaitPin? && next.pc == Done(PinRefused) && out == [TextOf(s.codec, TooManyAttempts)])
      || (next.pc == AwaitPinResult([]) && out == [TextOf(s.codec, Pin(s.receiver.userPins(task.asked)))])
      || ((next.pc.AwaitPinStatus? || next.pc.AwaitPinResult?) && out == [])
      || (next.pc.Done? && next.pc.outcome.Agreed? && out == FrameOf(s.codec, FileTokens(next.pc.outcome.tokens)))
      || (next.pc == Done(UserDeclined) && out == FrameOf(s.codec, Declined))
      || (next.pc.Done? && out == [])
  {
  }

  /** The token is refused, or answered with the receiver's own, which asks for
      a PIN exactly when one is configured. */
  predicate AnswersToken(s: Session, task: Task, next: Task, out: seq<Message>) {
    if next.pc == Done(Untrusted) then out == [TextOf(s.codec, InvalidSignature)]
    else
      var own := s.crypto.sign(s.receiver.key, task.nonce);
      if s.receiver.pin.None? then next.pc == AwaitPinStatus([]) && out == [TextOf(s.codec, TokenOk(own))]
      else
        var asking := TextOf(s.codec, TokenPinRequired(own));
        || (next.pc == AwaitPin(0) && out == [asking])
        || (next.pc == AwaitPinStatus([]) && out == [asking, TextOf(s.codec, PinOk)])
        || (next.pc == Done(PinRefused) && out == [asking, TextOf(s.codec, TooManyAttempts)])
  }
}
