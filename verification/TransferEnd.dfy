/** A whole transfer, from the handshake to the files, and what the sender may
    conclude from the one message it reads after them. */
module TransferEnd {
  import opened Options
  import opened Framing
  import opened Wire
  import opened FileStream
  import opened FileRoundTrip
  import opened Seqs
  import opened HandshakeSafety
  import opened HandshakeRuns
  import HS = Handshake
  import HL = HandshakeLimits

  // ----- From the first nonce to the last byte -----

  /** The receive loop starts from the file list and tokens its task agreed on. */
  function SetupOf(codec: Codec, agreed: HS.Outcome, results: seq<FileResult>): Setup
    requires agreed.Agreed?
  {
    Setup(codec, agreed.files, agreed.tokens, results)
  }

  /** The files the user selected, with contents within the sizes offered. */
  predicate KeepsOffer(s: HS.Session, contents: seq<Outgoing>) {
    s.selection.Some?
    && forall i :: 0 <= i < |contents| ==>
      && contents[i].fileId in s.selection.value
      && var size := SizeOf(s.files, contents[i].fileId); size.Some? && |ContentOf(contents[i])| <= size.value
  }

  /** End to end: whatever the interleaving of the handshake, if the users
      enter the PINs and accept, the files streamed with what the sender holds
      arrive whole at a receiver that works with what it holds. */
  lemma {:induction false} TransferArrives(s: HS.Session, run: seq<HS.Action>, contents: seq<Outgoing>,
                                           results: seq<FileResult>)
    requires Faithful(s.codec) && HS.IsValidNonce(s.sender.nonce) && HS.IsValidNonce(s.receiver.nonce)
    requires HL.Verifies(s.crypto) && HL.KeysMatch(s) && PinsUsable(s) && SenderPasses(s) && ReceiverPasses(s)
    requires Exec(s, HS.Initial(s), run).Some? && Stuck(Exec(s, HS.Initial(s), run).value)
    requires contents != [] && KeepsOffer(s, contents)
    ensures var st := Exec(s, HS.Initial(s), run).value;
            && st.sender.pc.Done? && st.sender.pc.outcome.Agreed?
            && st.receiver.pc.Done? && st.receiver.pc.outcome.Agreed?
            && var setup := SetupOf(s.codec, st.receiver.pc.outcome, results);
               var end := Receive(setup, START, Emit(s.codec, st.sender.pc.outcome.tokens, contents));
               && end.run == Finished && |end.transfers| == |contents|
               && forall i :: 0 <= i < |contents| ==> ArrivedWhole(results, end.transfers, end.replies, contents[i], i)
  {
    HL.ThreeOutcomes(s, run);
    var tokens := HS.Tokens(s, s.selection.value);
    var setup := Setup(s.codec, s.files, tokens, results);
    forall i | 0 <= i < |contents| ensures contents[i].fileId in tokens && Fits(setup, contents[i]) {
    }
    FileStreamRoundTrip(setup, contents);
  }

  // ----- The one message the sender reads at the end -----

  /** Whenever a reply is on its way, the receiver has finished. */
  ghost predicate ReplyMeansFinished(setup: Setup, stream: seq<Message>) {
    forall n :: 0 <= n <= |stream| ==> ReplyFinishes(Receive(setup, START, stream[..n]))
  }

  predicate ReplyFinishes(st: Receiver) {
    st.replies != [] ==> st.run == Finished
  }

  /** The stream up to the delimiter. */
  function Streamed(codec: Codec, tokens: map<string, string>, files: seq<Outgoing>): seq<Message> {
    if files == [] then [] else EmitFile(codec, tokens, files[0]) + Streamed(codec, tokens, files[1..])
  }

  lemma {:induction false} EmitIsStreamed(codec: Codec, tokens: map<string, string>, files: seq<Outgoing>)
    ensures Emit(codec, tokens, files) == Streamed(codec, tokens, files) + [DELIMITER]
  {
    if files != [] {
      EmitIsStreamed(codec, tokens, files[1..]);
      Assoc(EmitFile(codec, tokens, files[0]), Streamed(codec, tokens, files[1..]), [DELIMITER]);
    }
  }

  lemma {:induction false} StreamedPrefix(codec: Codec, tokens: map<string, string>, files: seq<Outgoing>, k: nat)
    requires k <= |files|
    ensures Streamed(codec, tokens, files[..k]) <= Streamed(codec, tokens, files)
  {
    if k > 0 {
      assert files[..k][0] == files[0] && files[..k][1..] == files[1..][..k - 1];
      StreamedPrefix(codec, tokens, files[1..], k - 1);
    }
  }

  lemma {:induction false} RepliesGrow(setup: Setup, st: Receiver, msgs: seq<Message>)
    requires st.file.Some? ==> st.transfers != []
    ensures |st.replies| <= |Receive(setup, st, msgs).replies|
    decreases msgs
  {
    if msgs != [] && st.run == Running {
      RepliesGrow(setup, OnMessage(setup, st, msgs[0]), msgs[1..]);
    }
  }

  lemma {:induction false} RepliesOfPrefix(setup: Setup, stream: seq<Message>, n: nat, m: nat)
    requires n <= m <= |stream|
    ensures |Receive(setup, START, stream[..n]).replies| <= |Receive(setup, START, stream[..m]).replies|
  {
    assert stream[..n] + stream[n..m] == stream[..m];
    ReceiveAppend(setup, START, stream[..n], stream[n..m]);
    RepliesGrow(setup, Receive(setup, START, stream[..n]), stream[n..m]);
  }

  /** Before the delimiter all streamed files but the last are answered. */
  lemma {:induction false} ReceivesStreamed(setup: Setup, st: Receiver, files: seq<Outgoing>)
    requires Faithful(setup.codec) && st.run == Running && (st.file.Some? ==> st.transfers != [])
    requires HaveTokens(setup.tokens, files) && files != []
    ensures var end := Receive(setup, st, Streamed(setup.codec, setup.tokens, files));
            var closed := CloseFile(setup, st).replies;
            && end.run == Running
            && end.replies == closed + RepliesTo(setup, files[..|files| - 1], |closed|)
    decreases |files|
  {
    var own, rest := EmitFile(setup.codec, setup.tokens, files[0]), files[1..];
    var next, closed := Receive(setup, st, own), CloseFile(setup, st).replies;
    ReceivesFile(setup, st, files[0]);
    if rest == [] {
      assert Streamed(setup.codec, setup.tokens, files) == own;
      assert files[..0] == [] && closed + [] == closed;
    } else {
      ReceiveAppend(setup, st, own, Streamed(setup.codec, setup.tokens, rest));
      ReceivesStreamed(setup, next, rest);
      var init := files[..|files| - 1];
      assert init[0] == files[0] && init[1..] == rest[..|rest| - 1];
      NextReplies(setup, closed, CloseFile(setup, next).replies, init);
    }
  }

  lemma {:induction false} RepliesIfAnyFits(setup: Setup, files: seq<Outgoing>, k: nat)
    ensures RepliesTo(setup, files, k) == [] <==> forall i :: 0 <= i < |files| ==> !Fits(setup, files[i])
  {
    if files != [] {
      RepliesIfAnyFits(setup, files[1..], if Fits(setup, files[0]) then k + 1 else k);
      assert forall i :: 1 <= i < |files| ==> files[i] == files[1..][i - 1];
      assert forall i :: 0 <= i < |files[1..]| ==> files[1..][i] == files[i + 1];
    }
  }

  lemma {:induction false} StreamPrefixReplies(setup: Setup, picked: seq<Outgoing>, k: nat)
    requires Faithful(setup.codec) && HaveTokens(setup.tokens, picked) && 0 < k <= |picked|
    ensures var stream := Emit(setup.codec, setup.tokens, picked);
            var n := |Streamed(setup.codec, setup.tokens, picked[..k])|;
            && n < |stream|
            && var st := Receive(setup, START, stream[..n]);
               st.run == Running && st.replies == RepliesTo(setup, picked[..k - 1], 0)
  {
    var part := picked[..k];
    EmitIsStreamed(setup.codec, setup.tokens, picked);
    StreamedPrefix(setup.codec, setup.tokens, picked, k);
    var streamed := Streamed(setup.codec, setup.tokens, part);
    assert Emit(setup.codec, setup.tokens, picked)[..|streamed|] == streamed;
    ReceivesStreamed(setup, START, part);
    assert part[..k - 1] == picked[..k - 1];
    assert [] + RepliesTo(setup, picked[..k - 1], 0) == RepliesTo(setup, picked[..k - 1], 0);
  }

  lemma {:induction false} EarlyReply(setup: Setup, picked: seq<Outgoing>, i: nat)
    requires Faithful(setup.codec) && HaveTokens(setup.tokens, picked) && i < |picked| - 1 && Fits(setup, picked[i])
    ensures !ReplyMeansFinished(setup, Emit(setup.codec, setup.tokens, picked))
  {
    StreamPrefixReplies(setup, picked, i + 2);
    RepliesIfAnyFits(setup, picked[..i + 1], 0);
    assert picked[..i + 1][i] == picked[i];
  }

  lemma {:induction false} LateReply(setup: Setup, picked: seq<Outgoing>)
    requires Faithful(setup.codec) && HaveTokens(setup.tokens, picked)
    requires forall i :: 0 <= i < |picked| - 1 ==> !Fits(setup, picked[i])
    ensures ReplyMeansFinished(setup, Emit(setup.codec, setup.tokens, picked))
  {
    var stream := Emit(setup.codec, setup.tokens, picked);
    EmitIsStreamed(setup.codec, setup.tokens, picked);
    forall n | 0 <= n <= |stream| ensures ReplyFinishes(Receive(setup, START, stream[..n])) {
      if n < |stream| {
        NoReplyBeforeDelimiter(setup, picked, n);
      } else {
        assert stream[..n] == stream;
        ReplyAtEnd(setup, picked);
      }
    }
  }

  lemma {:induction false} ReplyAtEnd(setup: Setup, picked: seq<Outgoing>)
    requires Faithful(setup.codec) && HaveTokens(setup.tokens, picked)
    requires forall i :: 0 <= i < |picked| - 1 ==> !Fits(setup, picked[i])
    ensures ReplyFinishes(Receive(setup, START, Emit(setup.codec, setup.tokens, picked)))
  {
    AllSelected(setup.tokens, picked);
    StreamOutcome(setup, picked);
    RepliesIfAnyFits(setup, picked, 0);
  }

  lemma {:induction false} NoReplyBeforeDelimiter(setup: Setup, picked: seq<Outgoing>, n: nat)
    requires Faithful(setup.codec) && HaveTokens(setup.tokens, picked)
    requires forall i :: 0 <= i < |picked| - 1 ==> !Fits(setup, picked[i])
    requires n < |Emit(setup.codec, setup.tokens, picked)|
    ensures Receive(setup, START, Emit(setup.codec, setup.tokens, picked)[..n]).replies == []
  {
    var stream := Emit(setup.codec, setup.tokens, picked);
    EmitIsStreamed(setup.codec, setup.tokens, picked);
    if picked == [] {
      assert stream[..n] == [];
    } else {
      assert picked[..|picked|] == picked;
      StreamPrefixReplies(setup, picked, |picked|);
      RepliesIfAnyFits(setup, picked[..|picked| - 1], 0);
      RepliesOfPrefix(setup, stream, n, |stream| - 1);
    }
  }

  /** The sender reads one message after the delimiter, whichever reply that is,
      and closes. It can take that for the end if and only if no streamed file
      before the last one is answered. */
  lemma {:induction false} OneReplyMeansFinished(setup: Setup, files: seq<Outgoing>)
    requires Faithful(setup.codec)
    ensures var picked := Selected(setup.tokens, files);
            ReplyMeansFinished(setup, Emit(setup.codec, setup.tokens, files))
            <==> forall i :: 0 <= i < |picked| - 1 ==> !Fits(setup, picked[i])
  {
    var picked := Selected(setup.tokens, files);
    SelectedHaveTokens(setup.tokens, files);
    EmitsSelected(setup.codec, setup.tokens, files);
    if i :| 0 <= i < |picked| - 1 && Fits(setup, picked[i]) {
      EarlyReply(setup, picked, i);
    } else {
      LateReply(setup, picked);
    }
  }
}
