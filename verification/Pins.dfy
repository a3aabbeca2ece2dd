/** The PIN challenge: `verify_pin` on the side that set the PIN, `handle_pin` on the other. */
module Pins {
  import opened Options
  import opened Framing
  import opened Wire
  import opened Seqs

  newtype U8 = x: int | 0 <= x < 0x100

  datatype PinConfig = PinConfig(pin: string, maxTries: U8)

  datatype Judgement = Accept | Exhausted | Ask

  /** The top of the loop in `verify_pin`, after `tries` PINs were read. */
  function Judge(cfg: PinConfig, remotePin: string, tries: nat): Judgement {
    if remotePin == cfg.pin then Accept
    else if tries >= cfg.maxTries as nat then Exhausted
    else Ask
  }

  datatype VerifyEnd = Accepted | TooMany | Broken

  datatype Verification = Verification(end: VerifyEnd, replies: seq<Payload>, rest: seq<Message>)

  function PinOf(codec: Codec, msg: Message): Option<string> {
    match codec.decode(msg.data)
    case Some(Pin(pin)) => Some(pin)
    case _ => None
  }

  function Verify(codec: Codec, cfg: PinConfig, notice: bool, remotePin: string, tries: nat,
                  msgs: seq<Message>): Verification
    decreases |msgs|
  {
    match Judge(cfg, remotePin, tries)
    case Accept => Verification(Accepted, [], msgs)
    case Exhausted => Verification(TooMany, [TooManyAttempts], msgs)
    case Ask =>
      var asked := if notice || tries > 0 then [PinRequired] else [];
      if msgs == [] then Verification(Broken, asked, [])
      else match PinOf(codec, msgs[0])
        case None => Verification(Broken, asked, msgs[1..])
        case Some(pin) =>
          After(asked, Verify(codec, cfg, false, pin, tries + 1, msgs[1..]))
  }

  /** A verification with `replies` sent ahead of it. */
  function After(replies: seq<Payload>, v: Verification): Verification {
    Verification(v.end, replies + v.replies, v.rest)
  }

  lemma {:induction false} AfterTwice(first: seq<Payload>, second: seq<Payload>, v: Verification)
    ensures After(first, After(second, v)) == After(first + second, v)
  {
    Assoc(first, second, v.replies);
  }

  /** The loop itself. The try counter is a machine byte: that it never wraps
      is part of what is checked here. */
  method VerifyPin(codec: Codec, cfg: PinConfig, inbox: Inbox, sendInitialNotice: bool)
    returns (end: VerifyEnd, replies: seq<Payload>)
    modifies inbox
    ensures Verification(end, replies, inbox.pending)
            == Verify(codec, cfg, sendInitialNotice, "", 0, old(inbox.pending))
  {
    var remotePin, pinTry: U8, notice := "", 0, sendInitialNotice;
    replies := [];
    ghost var all := Verify(codec, cfg, notice, "", 0, inbox.pending);
    while true
      invariant pinTry <= cfg.maxTries
      invariant all == After(replies, Verify(codec, cfg, notice, remotePin, pinTry as nat, inbox.pending))
      decreases |inbox.pending|
    {
      ghost var before := replies;
      ghost var asked := if notice || pinTry > 0 then [PinRequired] else [];
      if remotePin == cfg.pin {
        end := Accepted;
        return;
      }
      if pinTry >= cfg.maxTries {
        replies := replies + [TooManyAttempts];
        end := TooMany;
        return;
      }
      if notice || pinTry > 0 {
        notice := false;
        replies := replies + [PinRequired];
      }
      assert replies == before + asked;
      var msg := inbox.Recv();
      var pin := if msg.None? then None else PinOf(codec, msg.value);
      if pin.None? {
        end := Broken;
        return;
      }
      remotePin, pinTry := pin.value, pinTry + 1;
      AfterTwice(before, asked, Verify(codec, cfg, notice, remotePin, pinTry as nat, inbox.pending));
    }
  }

  /** `k` PINs were tried and none of them is the right one. */
  predicate Missed(cfg: PinConfig, pins: nat -> string, k: nat) {
    k == 0 || (pins(k - 1) != cfg.pin && Missed(cfg, pins, k - 1))
  }

  lemma {:induction false} MissedMeansNone(cfg: PinConfig, pins: nat -> string, k: nat)
    ensures Missed(cfg, pins, k) <==> forall i :: 0 <= i < k ==> pins(i) != cfg.pin
  {
    if k > 0 {
      MissedMeansNone(cfg, pins, k - 1);
    }
  }

  lemma {:induction false} MissedEarlier(cfg: PinConfig, pins: nat -> string, j: nat, k: nat)
    requires j <= k && Missed(cfg, pins, k)
    ensures Missed(cfg, pins, j)
  {
    if j < k {
      MissedEarlier(cfg, pins, j, k - 1);
    }
  }

  /** One of the first `maxTries` PINs is right, or none was ever needed. */
  predicate Passes(cfg: PinConfig, pins: nat -> string) {
    cfg.pin == "" || !Missed(cfg, pins, cfg.maxTries as nat)
  }

  /** How many PINs a challenge consumes: up to the first right one, at most `maxTries`. */
  predicate Consumes(cfg: PinConfig, pins: nat -> string, n: nat) {
    && n <= cfg.maxTries as nat
    && if Passes(cfg, pins) then n > 0 && Missed(cfg, pins, n - 1) && pins(n - 1) == cfg.pin
       else n == cfg.maxTries as nat
  }

  datatype HandleEnd = Entered(reply: Payload) | Refused | Lost

  datatype Handling = Handling(end: HandleEnd, pins: seq<string>, rest: seq<Message>)

  /** One reply, as `handle_pin` reads it: a chunked string or a single text message. */
  function ReadReply(codec: Codec, inChunks: bool, msgs: seq<Message>): (r: (Option<Payload>, seq<Message>))
    ensures |r.1| <= |msgs|
  {
    if inChunks then
      var (bytes, rest) := ReadString(msgs);
      (codec.decode(bytes), rest)
    else if msgs == [] then (None, [])
    else if msgs[0].Binary? then (None, msgs[1..])
    else (codec.decode(msgs[0].data), msgs[1..])
  }

  /** Whether the reply parses as the acceptance the caller waits for; the
      file sender's acceptance has to carry the file list. */
  predicate IsAcceptance(inChunks: bool, reply: Payload) {
    if inChunks then reply.FileOffer? else StatusOf(reply) == StatusOk
  }

  function Handle(codec: Codec, inChunks: bool, user: seq<string>, msgs: seq<Message>): Handling
    decreases |user|
  {
    if user == [] then Handling(Lost, [], msgs)
    else
      var (reply, rest) := ReadReply(codec, inChunks, msgs);
      if reply.None? then Handling(Lost, [user[0]], rest)
      else if IsAcceptance(inChunks, reply.value) then Handling(Entered(reply.value), [user[0]], rest)
      else match StatusOf(reply.value)
        case StatusPinRequired =>
          var h := Handle(codec, inChunks, user[1..], rest);
          Handling(h.end, [user[0]] + h.pins, h.rest)
        case StatusTooManyAttempts => Handling(Refused, [user[0]], rest)
        case _ => Handling(Lost, [user[0]], rest)
  }

  method ReceiveReply(codec: Codec, inChunks: bool, inbox: Inbox) returns (reply: Option<Payload>)
    modifies inbox
    ensures (reply, inbox.pending) == ReadReply(codec, inChunks, old(inbox.pending))
  {
    if inChunks {
      var bytes := ReceiveStringFromChunks(inbox);
      reply := codec.decode(bytes);
    } else {
      var msg := inbox.Recv();
      reply := if msg.None? || msg.value.Binary? then None else codec.decode(msg.value.data);
    }
  }

  method HandlePin(codec: Codec, inChunks: bool, user: seq<string>, inbox: Inbox)
    returns (end: HandleEnd, pins: seq<string>)
    modifies inbox
    ensures Handling(end, pins, inbox.pending) == Handle(codec, inChunks, user, old(inbox.pending))
  {
    ghost var all := Handle(codec, inChunks, user, inbox.pending);
    pins := [];
    var i := 0;
    assert user[0..] == user;
    while i < |user|
      invariant 0 <= i <= |user|
      invariant var h := Handle(codec, inChunks, user[i..], inbox.pending);
                all == Handling(h.end, pins + h.pins, h.rest)
    {
      assert user[i..][1..] == user[i + 1..] && user[i..][0] == user[i];
      ghost var before := pins;
      pins := pins + [user[i]];
      var reply := ReceiveReply(codec, inChunks, inbox);
      if reply.None? {
        return Lost, pins;
      }
      if IsAcceptance(inChunks, reply.value) {
        return Entered(reply.value), pins;
      }
      match StatusOf(reply.value) {
        case StatusPinRequired =>
          i := i + 1;
          Assoc(before, [user[i - 1]], Handle(codec, inChunks, user[i..], inbox.pending).pins);
        case StatusTooManyAttempts =>
          return Refused, pins;
        case _ =>
          return Lost, pins;
      }
    }
    return Lost, pins;
  }

  // ----- What a challenge comes to -----

  /** A PIN that `verify_pin` really asks for. */
  predicate Usable(cfg: PinConfig) {
    cfg.pin != "" && cfg.maxTries > 0
  }

  function PinMessages(codec: Codec, pins: nat -> string, from: nat, to: nat): seq<Message>
    decreases to - from
  {
    if from >= to then [] else [TextOf(codec, Pin(pins(from)))] + PinMessages(codec, pins, from + 1, to)
  }

  function PinList(pins: nat -> string, from: nat, to: nat): seq<string>
    decreases to - from
  {
    if from >= to then [] else [pins(from)] + PinList(pins, from + 1, to)
  }

  function Repeated(n: nat): seq<Payload> {
    if n == 0 then [] else [PinRequired] + Repeated(n - 1)
  }

  function VerdictReplies(cfg: PinConfig, pins: nat -> string): seq<Payload> {
    if Passes(cfg, pins) then [] else [TooManyAttempts]
  }

  function ExpectedEnd(cfg: PinConfig, pins: nat -> string): VerifyEnd {
    if Passes(cfg, pins) then Accepted else TooMany
  }

  lemma {:induction false} RightPin(cfg: PinConfig, pins: nat -> string, k: nat)
    requires k < cfg.maxTries as nat && Missed(cfg, pins, k) && pins(k) == cfg.pin
    ensures Passes(cfg, pins) && Consumes(cfg, pins, k + 1)
  {
    if Missed(cfg, pins, cfg.maxTries as nat) {
      MissedEarlier(cfg, pins, k + 1, cfg.maxTries as nat);
    }
  }

  lemma {:induction false} WrongPin(cfg: PinConfig, pins: nat -> string, k: nat)
    requires k < cfg.maxTries as nat && Missed(cfg, pins, k) && pins(k) != cfg.pin
    ensures Missed(cfg, pins, k + 1)
    ensures k + 1 == cfg.maxTries as nat && cfg.pin != "" ==> !Passes(cfg, pins) && Consumes(cfg, pins, k + 1)
  {
  }

  /** Some number of PINs settles every usable challenge. */
  lemma {:induction false} ChallengeSettles(cfg: PinConfig, pins: nat -> string, k: nat) returns (n: nat)
    requires Usable(cfg) && k <= cfg.maxTries as nat && Missed(cfg, pins, k)
    ensures Consumes(cfg, pins, n)
    decreases cfg.maxTries as nat - k
  {
    if k == cfg.maxTries as nat {
      n := k;
    } else if pins(k) == cfg.pin {
      RightPin(cfg, pins, k);
      n := k + 1;
    } else {
      n := ChallengeSettles(cfg, pins, k + 1);
    }
  }

  lemma {:induction false} VerifyReads(codec: Codec, cfg: PinConfig, notice: bool, remote: string, t: nat, pin: string,
                                       msgs: seq<Message>)
    requires Faithful(codec) && Judge(cfg, remote, t) == Ask
    ensures Verify(codec, cfg, notice, remote, t, [TextOf(codec, Pin(pin))] + msgs)
            == After(if notice || t > 0 then [PinRequired] else [], Verify(codec, cfg, false, pin, t + 1, msgs))
  {
    var all := [TextOf(codec, Pin(pin))] + msgs;
    assert PinOf(codec, all[0]) == Some(pin) && all[1..] == msgs;
  }

  function RemoteAfter(pins: nat -> string, t: nat): string {
    if t == 0 then "" else pins(t - 1)
  }

  /** The replies still to come from a verifier that has read `t` of `n` PINs. */
  function RepliesAfter(cfg: PinConfig, notice: bool, pins: nat -> string, t: nat, n: nat): seq<Payload>
    requires t < n
    decreases n - t, 1
  {
    (if notice || t > 0 then [PinRequired] else []) + LaterReplies(cfg, pins, t, n)
  }

  function LaterReplies(cfg: PinConfig, pins: nat -> string, t: nat, n: nat): seq<Payload>
    requires t < n
    decreases n - t, 0
  {
    if t + 1 < n then RepliesAfter(cfg, false, pins, t + 1, n) else VerdictReplies(cfg, pins)
  }

  lemma {:induction false} VerifyFrom(codec: Codec, cfg: PinConfig, notice: bool, pins: nat -> string, t: nat, n: nat)
    requires Faithful(codec) && Usable(cfg) && Consumes(cfg, pins, n) && t < n
    ensures Verify(codec, cfg, notice, RemoteAfter(pins, t), t, PinMessages(codec, pins, t, n))
            == Verification(ExpectedEnd(cfg, pins), RepliesAfter(cfg, notice, pins, t, n), [])
    decreases n - t, 1
  {
    KeepsAsking(cfg, pins, t, n);
    LaterVerified(codec, cfg, pins, t, n);
    VerifyOneMore(codec, cfg, notice, pins, t, n,
                  Verification(ExpectedEnd(cfg, pins), LaterReplies(cfg, pins, t, n), []));
  }

  lemma {:induction false} LaterVerified(codec: Codec, cfg: PinConfig, pins: nat -> string, t: nat, n: nat)
    requires Faithful(codec) && Usable(cfg) && Consumes(cfg, pins, n) && t < n
    ensures Verify(codec, cfg, false, pins(t), t + 1, PinMessages(codec, pins, t + 1, n))
            == Verification(ExpectedEnd(cfg, pins), LaterReplies(cfg, pins, t, n), [])
    decreases n - t, 0
  {
    assert RemoteAfter(pins, t + 1) == pins(t);
    if t + 1 < n {
      VerifyFrom(codec, cfg, false, pins, t + 1, n);
    } else {
      assert PinMessages(codec, pins, t + 1, n) == [];
      LastPin(codec, cfg, pins, n);
    }
  }

  lemma {:induction false} VerifyOneMore(codec: Codec, cfg: PinConfig, notice: bool, pins: nat -> string, t: nat,
                                         n: nat, later: Verification)
    requires Faithful(codec) && t < n && Judge(cfg, RemoteAfter(pins, t), t) == Ask
    requires Verify(codec, cfg, false, pins(t), t + 1, PinMessages(codec, pins, t + 1, n)) == later
    ensures Verify(codec, cfg, notice, RemoteAfter(pins, t), t, PinMessages(codec, pins, t, n))
            == After(if notice || t > 0 then [PinRequired] else [], later)
  {
    VerifyReads(codec, cfg, notice, RemoteAfter(pins, t), t, pins(t), PinMessages(codec, pins, t + 1, n));
  }

  lemma {:induction false} KeepsAsking(cfg: PinConfig, pins: nat -> string, t: nat, n: nat)
    requires Usable(cfg) && Consumes(cfg, pins, n) && t < n
    ensures Judge(cfg, RemoteAfter(pins, t), t) == Ask
  {
    if t > 0 {
      MissedEarlier(cfg, pins, t, if Passes(cfg, pins) then n - 1 else n);
    }
  }

  lemma {:induction false} LastPin(codec: Codec, cfg: PinConfig, pins: nat -> string, n: nat)
    requires Usable(cfg) && Consumes(cfg, pins, n)
    ensures n > 0
    ensures Verify(codec, cfg, false, pins(n - 1), n, [])
            == Verification(ExpectedEnd(cfg, pins), VerdictReplies(cfg, pins), [])
  {
  }

  lemma {:induction false} RepliesCounted(cfg: PinConfig, pins: nat -> string, t: nat, n: nat)
    requires t < n
    ensures RepliesAfter(cfg, false, pins, t, n) == Repeated(if t > 0 then n - t else n - 1) + VerdictReplies(cfg, pins)
    decreases n - t
  {
    if t + 1 < n {
      RepliesCounted(cfg, pins, t + 1, n);
    }
  }

  function OneReply(codec: Codec, inChunks: bool, reply: Payload): seq<Message> {
    if inChunks then FrameOf(codec, reply) else [TextOf(codec, reply)]
  }

  /** The replies as they travel back. */
  function ReplyMessages(codec: Codec, inChunks: bool, replies: seq<Payload>): seq<Message> {
    if replies == [] then [] else OneReply(codec, inChunks, replies[0]) + ReplyMessages(codec, inChunks, replies[1..])
  }

  lemma {:induction false} ReadsReply(codec: Codec, inChunks: bool, reply: Payload, rest: seq<Message>)
    requires Faithful(codec)
    ensures ReadReply(codec, inChunks, OneReply(codec, inChunks, reply) + rest) == (Some(reply), rest)
  {
    if inChunks {
      var data := codec.encode(reply);
      ChunksAreCanonical(data);
      ReadStringOfBinary(Chunks(data), rest);
    }
  }

  lemma {:induction false} HandleReads(codec: Codec, inChunks: bool, pin: string, user: seq<string>, reply: Payload,
                                       later: seq<Message>)
    requires Faithful(codec)
    requires reply == PinRequired || reply == TooManyAttempts || IsAcceptance(inChunks, reply)
    ensures Handle(codec, inChunks, [pin] + user, OneReply(codec, inChunks, reply) + later)
            == if reply == TooManyAttempts then Handling(Refused, [pin], later)
               else if reply == PinRequired then
                 var h := Handle(codec, inChunks, user, later);
                 Handling(h.end, [pin] + h.pins, h.rest)
               else Handling(Entered(reply), [pin], later)
  {
    ReadsReply(codec, inChunks, reply, later);
    var all := [pin] + user;
    assert all[0] == pin && all[1..] == user;
  }

  /** `n` prompts and then the last word. */
  function Prompts(n: nat, last: Payload): seq<Payload> {
    if n == 0 then [last] else [PinRequired] + Prompts(n - 1, last)
  }

  lemma {:induction false} PromptsAreRepeated(n: nat, last: Payload)
    ensures Repeated(n) + [last] == Prompts(n, last)
  {
    if n > 0 {
      PromptsAreRepeated(n - 1, last);
      Assoc([PinRequired], Repeated(n - 1), [last]);
    }
  }

  lemma {:induction false} HandleOneMore(codec: Codec, inChunks: bool, pin: string, user: seq<string>,
                                         replies: seq<Payload>)
    requires Faithful(codec)
    ensures var h := Handle(codec, inChunks, user, ReplyMessages(codec, inChunks, replies));
            Handle(codec, inChunks, [pin] + user, ReplyMessages(codec, inChunks, [PinRequired] + replies))
            == Handling(h.end, [pin] + h.pins, h.rest)
  {
    ReplyMessagesCons(codec, inChunks, PinRequired, replies);
    HandleReads(codec, inChunks, pin, user, PinRequired, ReplyMessages(codec, inChunks, replies));
  }

  lemma {:induction false} HandleLast(codec: Codec, inChunks: bool, pin: string, last: Payload)
    requires Faithful(codec) && (last == TooManyAttempts || IsAcceptance(inChunks, last))
    ensures Handle(codec, inChunks, [pin], ReplyMessages(codec, inChunks, [last]))
            == Handling(if last == TooManyAttempts then Refused else Entered(last), [pin], [])
  {
    assert [last] + [] == [last] && [pin] + [] == [pin];
    ReplyMessagesCons(codec, inChunks, last, []);
    HandleReads(codec, inChunks, pin, [], last, []);
  }

  lemma {:induction false} HandleFrom(codec: Codec, inChunks: bool, pins: nat -> string, t: nat, n: nat, last: Payload)
    requires Faithful(codec) && t < n
    requires last == TooManyAttempts || IsAcceptance(inChunks, last)
    ensures Handle(codec, inChunks, PinList(pins, t, n), ReplyMessages(codec, inChunks, Prompts(n - 1 - t, last)))
            == Handling(if last == TooManyAttempts then Refused else Entered(last), PinList(pins, t, n), [])
    decreases n - t
  {
    if t + 1 < n {
      HandleOneMore(codec, inChunks, pins(t), PinList(pins, t + 1, n), Prompts(n - 1 - (t + 1), last));
      HandleFrom(codec, inChunks, pins, t + 1, n, last);
    } else {
      HandleLast(codec, inChunks, pins(t), last);
      assert PinList(pins, t, n) == [pins(t)];
    }
  }

  lemma {:induction false} ReplyMessagesCons(codec: Codec, inChunks: bool, reply: Payload, later: seq<Payload>)
    ensures ReplyMessages(codec, inChunks, [reply] + later)
            == OneReply(codec, inChunks, reply) + ReplyMessages(codec, inChunks, later)
  {
    var all := [reply] + later;
    assert all[0] == reply && all[1..] == later;
  }

  lemma {:induction false} VerifierEnds(codec: Codec, cfg: PinConfig, pins: nat -> string, n: nat)
    requires Faithful(codec) && Usable(cfg) && Consumes(cfg, pins, n)
    ensures n > 0
    ensures Verify(codec, cfg, false, "", 0, PinMessages(codec, pins, 0, n))
            == Verification(ExpectedEnd(cfg, pins), Repeated(n - 1) + VerdictReplies(cfg, pins), [])
  {
    VerifyFrom(codec, cfg, false, pins, 0, n);
    RepliesCounted(cfg, pins, 0, n);
  }

  /** Everything the verifying side sends in answer to PINs: what it asks and
      judges, and then its acceptance. */
  function AllReplies(v: Verification, acceptance: Payload): seq<Payload> {
    if v.end == Accepted then v.replies + [acceptance] else v.replies
  }

  lemma {:induction false} RepliesEndWith(cfg: PinConfig, pins: nat -> string, n: nat, acceptance: Payload)
    requires n > 0
    ensures AllReplies(Verification(ExpectedEnd(cfg, pins), Repeated(n - 1) + VerdictReplies(cfg, pins), []),
             acceptance)
            == Prompts(n - 1, if Passes(cfg, pins) then acceptance else TooManyAttempts)
  {
    assert Repeated(n - 1) + [] == Repeated(n - 1);
    PromptsAreRepeated(n - 1, if Passes(cfg, pins) then acceptance else TooManyAttempts);
  }

  lemma {:induction false} HandlerEnds(codec: Codec, cfg: PinConfig, inChunks: bool, pins: nat -> string,
                                       acceptance: Payload, n: nat, v: Verification)
    requires Faithful(codec) && IsAcceptance(inChunks, acceptance) && n > 0
    requires v == Verification(ExpectedEnd(cfg, pins), Repeated(n - 1) + VerdictReplies(cfg, pins), [])
    ensures Handle(codec, inChunks, PinList(pins, 0, n), ReplyMessages(codec, inChunks, AllReplies(v, acceptance)))
            == Handling(if Passes(cfg, pins) then Entered(acceptance) else Refused, PinList(pins, 0, n), [])
  {
    RepliesEndWith(cfg, pins, n, acceptance);
    HandleFrom(codec, inChunks, pins, 0, n, if Passes(cfg, pins) then acceptance else TooManyAttempts);
  }

  /** Lockstep: feed each side what the other one sends, and both reach the
      verdict, the same one, with every PIN and every reply consumed.
      `acceptance` is what the verifying side sends after it accepted. */
  lemma {:induction false} PinLockstep(codec: Codec, cfg: PinConfig, inChunks: bool, pins: nat -> string,
                                       acceptance: Payload, n: nat)
    requires Faithful(codec) && Usable(cfg) && IsAcceptance(inChunks, acceptance) && Consumes(cfg, pins, n)
    ensures var v := Verify(codec, cfg, false, "", 0, PinMessages(codec, pins, 0, n));
            var h := Handle(codec, inChunks, PinList(pins, 0, n),
                            ReplyMessages(codec, inChunks, AllReplies(v, acceptance)));
            && v.end == (if Passes(cfg, pins) then Accepted else TooMany) && v.rest == []
            && h.end == (if Passes(cfg, pins) then Entered(acceptance) else Refused)
            && h.pins == PinList(pins, 0, n) && h.rest == []
  {
    VerifierEnds(codec, cfg, pins, n);
    HandlerEnds(codec, cfg, inChunks, pins, acceptance, n,
                Verify(codec, cfg, false, "", 0, PinMessages(codec, pins, 0, n)));
  }

  /** The initial notice is one more prompt ahead of everything else: the peer
      reads it before its first PIN, and the rest is as without it. */
  lemma {:induction false} NoticeIsOneMorePrompt(codec: Codec, cfg: PinConfig, msgs: seq<Message>)
    requires Usable(cfg)
    ensures Verify(codec, cfg, true, "", 0, msgs) == After([PinRequired], Verify(codec, cfg, false, "", 0, msgs))
  {
    if msgs != [] && PinOf(codec, msgs[0]).Some? {
      AfterTwice([PinRequired], [], Verify(codec, cfg, false, PinOf(codec, msgs[0]).value, 1, msgs[1..]));
    }
  }

  predicate IsSettled(v: Verification) {
    v.end != Broken && v.rest == []
  }

  /** The peer always sends at least one PIN, so a verdict that consumes
      exactly the PINs sent is reached when, and only when, the PIN is usable:
      an empty PIN is accepted and a zero limit refused before anything is read. */
  lemma {:induction false} LockstepNeedsUsablePin(codec: Codec, cfg: PinConfig, notice: bool, pins: nat -> string)
    requires Faithful(codec)
    ensures (exists n :: n > 0 && IsSettled(Verify(codec, cfg, notice, "", 0, PinMessages(codec, pins, 0, n))))
            <==> Usable(cfg)
  {
    if Usable(cfg) {
      var n := ChallengeSettles(cfg, pins, 0);
      VerifyFrom(codec, cfg, notice, pins, 0, n);
    }
  }
}
