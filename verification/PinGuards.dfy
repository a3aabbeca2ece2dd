/** The two PIN loops on any messages at all. */
module PinGuards {
  import opened Options
  import opened Framing
  import opened Wire
  import opened Pins
  import opened Seqs

  // ----- The verifying loop -----

  predicate IsWrongPin(codec: Codec, cfg: PinConfig, msg: Message) {
    PinOf(codec, msg).Some? && PinOf(codec, msg).value != cfg.pin
  }

  /** How many wrong PINs the messages start with, `max` of them looked at. */
  function LeadingWrong(codec: Codec, cfg: PinConfig, msgs: seq<Message>, max: nat): (n: nat)
    ensures n <= max && n <= |msgs| && forall j :: 0 <= j < n ==> IsWrongPin(codec, cfg, msgs[j])
    ensures n < max && n < |msgs| ==> !IsWrongPin(codec, cfg, msgs[n])
    decreases max
  {
    if max == 0 || msgs == [] || !IsWrongPin(codec, cfg, msgs[0]) then 0
    else 1 + LeadingWrong(codec, cfg, msgs[1..], max - 1)
  }

  /** The prompts sent up to the `n`-th read. */
  function Prompting(notice: bool, n: nat): seq<Payload> {
    if n == 0 then [] else Repeated(if notice then n else n - 1)
  }

  lemma {:induction false} RepeatedSnoc(n: nat)
    ensures Repeated(n) + [PinRequired] == Repeated(n + 1)
  {
    if n > 0 {
      RepeatedSnoc(n - 1);
      Assoc([PinRequired], Repeated(n - 1), [PinRequired]);
    }
  }

  lemma {:induction false} PromptingMore(notice: bool, n: nat)
    ensures Prompting(notice, n) + (if notice || n > 0 then [PinRequired] else []) == Prompting(notice, n + 1)
  {
    if n > 0 {
      RepeatedSnoc(if notice then n else n - 1);
    } else {
      assert Repeated(0) == [] && [] + Repeated(0) == Repeated(0);
      assert Repeated(1) == [PinRequired] + Repeated(0) == [PinRequired] && [] + [PinRequired] == [PinRequired];
    }
  }

  function Remote(codec: Codec, msgs: seq<Message>, n: nat): string
    requires n <= |msgs|
  {
    if n == 0 || PinOf(codec, msgs[n - 1]).None? then "" else PinOf(codec, msgs[n - 1]).value
  }

  lemma {:induction false} VerifyAsks(codec: Codec, cfg: PinConfig, msgs: seq<Message>, n: nat)
    requires cfg.pin != "" && n < cfg.maxTries as nat && n <= |msgs|
    requires forall j :: 0 <= j < n ==> IsWrongPin(codec, cfg, msgs[j])
    ensures Judge(cfg, Remote(codec, msgs, n), n) == Ask
  {
    assert n > 0 ==> IsWrongPin(codec, cfg, msgs[n - 1]);
  }

  /** The loop after `n` wrong PINs. */
  lemma {:induction false} VerifyAfterWrong(codec: Codec, cfg: PinConfig, notice: bool, msgs: seq<Message>, n: nat)
    requires cfg.pin != "" && n <= cfg.maxTries as nat && n <= |msgs|
    requires forall j :: 0 <= j < n ==> IsWrongPin(codec, cfg, msgs[j])
    ensures Verify(codec, cfg, notice, "", 0, msgs)
            == After(Prompting(notice, n), Verify(codec, cfg, notice && n == 0, Remote(codec, msgs, n), n, msgs[n..]))
  {
    if n == 0 {
      assert msgs[0..] == msgs;
      var v := Verify(codec, cfg, notice, "", 0, msgs);
      assert [] + v.replies == v.replies;
    } else {
      VerifyAfterWrong(codec, cfg, notice, msgs, n - 1);
      VerifyAsks(codec, cfg, msgs, n - 1);
      VerifyReadsOne(codec, cfg, notice && n == 1, Remote(codec, msgs, n - 1), n - 1, msgs[n - 1..]);
      assert msgs[n - 1..][0] == msgs[n - 1] && msgs[n - 1..][1..] == msgs[n..];
      PromptingMore(notice, n - 1);
      AfterTwice(Prompting(notice, n - 1), if notice || n > 1 then [PinRequired] else [],
                 Verify(codec, cfg, false, Remote(codec, msgs, n), n, msgs[n..]));
    }
  }

  lemma {:induction false} VerifyReadsOne(codec: Codec, cfg: PinConfig, notice: bool, remote: string, t: nat,
                                          msgs: seq<Message>)
    requires Judge(cfg, remote, t) == Ask && msgs != [] && PinOf(codec, msgs[0]).Some?
    ensures Verify(codec, cfg, notice, remote, t, msgs)
            == After(if notice || t > 0 then [PinRequired] else [],
                     Verify(codec, cfg, false, PinOf(codec, msgs[0]).value, t + 1, msgs[1..]))
  {
  }

  /** How the loop ends, for every sequence of messages: with `n` wrong PINs in
      front, it refuses if those are all tries, accepts if the next message is
      the right PIN, and otherwise breaks off; it has prompted before each read
      but an unannounced first one, and what follows is not read. */
  lemma {:induction false} VerifyOnAnyInput(codec: Codec, cfg: PinConfig, notice: bool, msgs: seq<Message>)
    ensures var v := Verify(codec, cfg, notice, "", 0, msgs);
      if cfg.pin == "" then v == Verification(Accepted, [], msgs)
      else
        var n := LeadingWrong(codec, cfg, msgs, cfg.maxTries as nat);
        if n == cfg.maxTries as nat then v == Verification(TooMany, Prompting(notice, n) + [TooManyAttempts], msgs[n..])
        else if n < |msgs| && PinOf(codec, msgs[n]) == Some(cfg.pin) then
          v == Verification(Accepted, Prompting(notice, n + 1), msgs[n + 1..])
        else v == Verification(Broken, Prompting(notice, n + 1), if n < |msgs| then msgs[n + 1..] else [])
  {
    if cfg.pin != "" {
      var n := LeadingWrong(codec, cfg, msgs, cfg.maxTries as nat);
      VerifyAfterWrong(codec, cfg, notice, msgs, n);
      PromptingMore(notice, n);
      if n < cfg.maxTries as nat {
        VerifyAsks(codec, cfg, msgs, n);
        VerifyEnds(codec, cfg, notice && n == 0, Remote(codec, msgs, n), n, msgs[n..]);
        assert n < |msgs| ==> msgs[n..][0] == msgs[n] && msgs[n..][1..] == msgs[n + 1..];
      } else {
        assert msgs[n..] == Verify(codec, cfg, notice && n == 0, Remote(codec, msgs, n), n, msgs[n..]).rest;
      }
    }
  }

  lemma {:induction false} VerifyEnds(codec: Codec, cfg: PinConfig, notice: bool, remote: string, t: nat,
                                      msgs: seq<Message>)
    requires Judge(cfg, remote, t) == Ask && (msgs != [] ==> !IsWrongPin(codec, cfg, msgs[0]))
    ensures var v, asked := Verify(codec, cfg, notice, remote, t, msgs), if notice || t > 0 then [PinRequired] else [];
      if msgs != [] && PinOf(codec, msgs[0]) == Some(cfg.pin) then v == Verification(Accepted, asked, msgs[1..])
      else v == Verification(Broken, asked, if msgs != [] then msgs[1..] else [])
  {
    if msgs != [] && PinOf(codec, msgs[0]) == Some(cfg.pin) {
      VerifyReadsOne(codec, cfg, notice, remote, t, msgs);
      var asked: seq<Payload> := if notice || t > 0 then [PinRequired] else [];
      assert asked + [] == asked;
    }
  }

  // ----- The answering loop -----

  /** The `k`-th reply, and what follows it. */
  function ReplyAt(codec: Codec, inChunks: bool, msgs: seq<Message>, k: nat): (Option<Payload>, seq<Message>)
    decreases k
  {
    if k == 0 then ReadReply(codec, inChunks, msgs)
    else ReplyAt(codec, inChunks, ReadReply(codec, inChunks, msgs).1, k - 1)
  }

  predicate IsPrompt(inChunks: bool, reply: Option<Payload>) {
    reply.Some? && (reply.value.PinRequired? || reply.value.TokenPinRequired?)
  }

  /** The reply that is waited for: of the sending side the file list, of the
      receiving side anything that says it is fine. */
  predicate IsGood(inChunks: bool, reply: Payload) {
    reply.FileOffer? || (!inChunks && (reply.PinOk? || reply.TokenOk? || reply.FileTokens?))
  }

  /** What is unread after `k` replies. */
  function RestAfter(codec: Codec, inChunks: bool, msgs: seq<Message>, k: nat): seq<Message> {
    if k == 0 then msgs else ReplyAt(codec, inChunks, msgs, k - 1).1
  }

  /** How many of the first `max` replies are prompts, up to the first that is not. */
  function LeadingPrompts(codec: Codec, inChunks: bool, msgs: seq<Message>, max: nat): (n: nat)
    ensures n <= max && forall k :: 0 <= k < n ==> IsPrompt(inChunks, ReplyAt(codec, inChunks, msgs, k).0)
    ensures n < max ==> !IsPrompt(inChunks, ReplyAt(codec, inChunks, msgs, n).0)
    decreases max
  {
    if max == 0 || !IsPrompt(inChunks, ReadReply(codec, inChunks, msgs).0) then 0
    else
      var later := ReadReply(codec, inChunks, msgs).1;
      var n := LeadingPrompts(codec, inChunks, later, max - 1);
      assert forall k: nat :: k < n ==> IsPrompt(inChunks, ReplyAt(codec, inChunks, later, k).0);
      assert forall k: nat :: 0 < k ==> ReplyAt(codec, inChunks, msgs, k) == ReplyAt(codec, inChunks, later, k - 1);
      n + 1
  }

  /** What becomes of a reply that is no prompt. */
  function EndOn(inChunks: bool, reply: Option<Payload>): HandleEnd {
    if reply.None? then Lost
    else if IsGood(inChunks, reply.value) then Entered(reply.value)
    else if reply.value.TooManyAttempts? then Refused
    else Lost
  }

  lemma {:induction false} HandleOneReply(codec: Codec, inChunks: bool, user: seq<string>, msgs: seq<Message>)
    requires user != []
    ensures var (reply, rest) := ReadReply(codec, inChunks, msgs);
      Handle(codec, inChunks, user, msgs)
      == if IsPrompt(inChunks, reply) then
           var h := Handle(codec, inChunks, user[1..], rest);
           Handling(h.end, [user[0]] + h.pins, h.rest)
         else Handling(EndOn(inChunks, reply), [user[0]], rest)
  {
  }

  lemma {:induction false} LaterPrompts(codec: Codec, inChunks: bool, msgs: seq<Message>, max: nat)
    requires LeadingPrompts(codec, inChunks, msgs, max) > 0
    ensures IsPrompt(inChunks, ReadReply(codec, inChunks, msgs).0)
    ensures var n, later := LeadingPrompts(codec, inChunks, msgs, max), ReadReply(codec, inChunks, msgs).1;
      && n - 1 == LeadingPrompts(codec, inChunks, later, max - 1)
      && ReplyAt(codec, inChunks, msgs, n) == ReplyAt(codec, inChunks, later, n - 1)
      && RestAfter(codec, inChunks, msgs, n) == RestAfter(codec, inChunks, later, n - 1)
  {
    assert ReplyAt(codec, inChunks, msgs, 0) == ReadReply(codec, inChunks, msgs);
  }

  /** Each prompt is answered with the user's next PIN; the first reply that is
      no prompt decides, unless the user has no further PIN. */
  function Expected(codec: Codec, inChunks: bool, user: seq<string>, msgs: seq<Message>): Handling {
    var n := LeadingPrompts(codec, inChunks, msgs, |user|);
    if n == |user| then Handling(Lost, user, RestAfter(codec, inChunks, msgs, n))
    else
      var (reply, rest) := ReplyAt(codec, inChunks, msgs, n);
      Handling(EndOn(inChunks, reply), user[..n + 1], rest)
  }

  lemma {:induction false} ExpectedLater(codec: Codec, inChunks: bool, user: seq<string>, msgs: seq<Message>)
    requires user != [] && LeadingPrompts(codec, inChunks, msgs, |user|) > 0
    ensures var e := Expected(codec, inChunks, user[1..], ReadReply(codec, inChunks, msgs).1);
      Expected(codec, inChunks, user, msgs) == Handling(e.end, [user[0]] + e.pins, e.rest)
  {
    var n := LeadingPrompts(codec, inChunks, msgs, |user|);
    LaterPrompts(codec, inChunks, msgs, |user|);
    if n < |user| {
      assert user[..n + 1] == [user[0]] + user[1..][..n];
    } else {
      assert user == [user[0]] + user[1..];
    }
  }

  /** How the answering loop ends, for every sequence of messages. */
  lemma {:induction false} HandleOnAnyInput(codec: Codec, inChunks: bool, user: seq<string>, msgs: seq<Message>)
    ensures Handle(codec, inChunks, user, msgs) == Expected(codec, inChunks, user, msgs)
  {
    if user != [] {
      HandleOneReply(codec, inChunks, user, msgs);
      if LeadingPrompts(codec, inChunks, msgs, |user|) > 0 {
        LaterPrompts(codec, inChunks, msgs, |user|);
        HandleOnAnyInput(codec, inChunks, user[1..], ReadReply(codec, inChunks, msgs).1);
        ExpectedLater(codec, inChunks, user, msgs);
      } else {
        assert user[..1] == [user[0]];
      }
    }
  }
}
