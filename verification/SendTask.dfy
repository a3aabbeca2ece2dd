/** The upload loop of a transfer and the progress it reports. */
module SendTask {
  import opened Seqs

  type Id = string

  datatype FileDto = FileDto(fileName: string, size: nat)

  datatype Outcome = Done | Cancelled(byPeer: bool) | Failed

  /** What one upload does: the chunks its body streams, and how it ends. */
  datatype Upload = Upload(chunks: seq<nat>, outcome: Outcome)

  // ---- the sum over the accepted files ----

  function SizeOf(files: map<Id, FileDto>, id: Id): nat {
    if id in files then files[id].size else 0
  }

  ghost function SumOver(files: map<Id, FileDto>, ids: set<Id>): nat {
    if ids == {} then 0
    else
      var id :| id in ids;
      SizeOf(files, id) + SumOver(files, ids - {id})
  }

  lemma {:induction false} SumOverRemove(files: map<Id, FileDto>, ids: set<Id>, id: Id)
    requires id in ids
    ensures SumOver(files, ids) == SizeOf(files, id) + SumOver(files, ids - {id})
  {
    var first :| first in ids && SumOver(files, ids) == SizeOf(files, first) + SumOver(files, ids - {first});
    if first != id {
      SumOverRemove(files, ids - {first}, id);
      SumOverRemove(files, ids - {id}, first);
      assert ids - {first} - {id} == ids - {id} - {first};
    }
  }

  /** The keys of the response map come in no particular order; ids that were
      never offered are passed over. */
  method AcceptedBytes(files: map<Id, FileDto>, accepted: set<Id>) returns (total: nat)
    ensures total == SumOver(files, accepted)
  {
    total := 0;
    var rest := accepted;
    while rest != {}
      invariant total + SumOver(files, rest) == SumOver(files, accepted)
      decreases rest
    {
      var id :| id in rest;
      SumOverRemove(files, rest, id);
      if id in files {
        total := total + files[id].size;
      }
      rest := rest - {id};
    }
  }

  // ---- the loop ----

  /** The shared counter. `stores` is everything it has ever been set to. */
  class Counter {
    var value: nat
    ghost var stores: seq<nat>

    ghost predicate Valid()
      reads this
    {
      stores != [] && value == stores[|stores| - 1]
    }

    constructor ()
      ensures Valid() && stores == [0]
    {
      value, stores := 0, [0];
    }

    method Store(v: nat)
      requires Valid()
      modifies this
      ensures Valid() && stores == old(stores) + [v]
    {
      value, stores := v, stores + [v];
    }
  }

  function Reported(base: nat, chunks: seq<nat>): seq<nat> {
    if chunks == [] then [] else Reported(base, chunks[..|chunks| - 1]) + [base + Total(chunks)]
  }

  function Total(chunks: seq<nat>): nat {
    if chunks == [] then 0 else Total(chunks[..|chunks| - 1]) + chunks[|chunks| - 1]
  }

  /** One value per chunk: what was sent before the file, and of it so far. */
  lemma {:induction false} ReportedAt(base: nat, chunks: seq<nat>, i: nat)
    requires i < |chunks|
    ensures |Reported(base, chunks)| == |chunks|
    ensures Reported(base, chunks)[i] == base + Total(chunks[..i + 1])
  {
    var n := |chunks| - 1;
    if i < n {
      ReportedAt(base, chunks[..n], i);
      assert chunks[..n][..i + 1] == chunks[..i + 1];
    } else {
      assert chunks[..i + 1] == chunks;
      if n > 0 {
        ReportedAt(base, chunks[..n], 0);
      }
    }
  }

  method UploadBody(chunks: seq<nat>, base: nat, progress: Counter)
    requires progress.Valid()
    modifies progress
    ensures progress.Valid() && progress.stores == old(progress.stores) + Reported(base, chunks)
  {
    var sent := 0;
    for i := 0 to |chunks|
      invariant sent == Total(chunks[..i])
      invariant progress.Valid() && progress.stores == old(progress.stores) + Reported(base, chunks[..i])
    {
      assert chunks[..i + 1][..i] == chunks[..i];
      sent := sent + chunks[i];
      progress.Store(base + sent);
    }
    assert chunks[..|chunks|] == chunks;
  }

  datatype Sent = Sent(ok: bool, files: nat, bytes: nat, cancelSent: bool)

  /** What the loop has to show for the files `ids`, started with `base` bytes sent. */
  function Stores(files: map<Id, FileDto>, ids: seq<Id>, uploads: map<Id, Upload>, base: nat): seq<nat>
    requires forall i :: 0 <= i < |ids| ==> ids[i] in files && ids[i] in uploads
  {
    if ids == [] then []
    else
      var upload, after := uploads[ids[0]], base + files[ids[0]].size;
      Reported(base, upload.chunks)
      + if upload.outcome.Done? then [after] + Stores(files, ids[1..], uploads, after) else []
  }

  function Outcomes(files: map<Id, FileDto>, ids: seq<Id>, uploads: map<Id, Upload>, done: nat, base: nat): Sent
    requires forall i :: 0 <= i < |ids| ==> ids[i] in files && ids[i] in uploads
  {
    if ids == [] then Sent(true, done, base, false)
    else
      match uploads[ids[0]].outcome
      case Done => Outcomes(files, ids[1..], uploads, done + 1, base + files[ids[0]].size)
      case Cancelled(byPeer) => Sent(false, done, base, !byPeer)
      case Failed => Sent(false, done, base, true)
  }

  method SendFiles(files: map<Id, FileDto>, ids: seq<Id>, uploads: map<Id, Upload>, progress: Counter)
    returns (sent: Sent)
    requires forall i :: 0 <= i < |ids| ==> ids[i] in files && ids[i] in uploads
    requires progress.Valid()
    modifies progress
    ensures progress.Valid() && progress.stores == old(progress.stores) + Stores(files, ids, uploads, 0)
    ensures sent == Outcomes(files, ids, uploads, 0, 0)
  {
    var sentFiles: nat, sentBytes: nat := 0, 0;
    for i := 0 to |ids|
      invariant progress.Valid()
      invariant progress.stores + Stores(files, ids[i..], uploads, sentBytes)
             == old(progress.stores) + Stores(files, ids, uploads, 0)
      invariant Outcomes(files, ids[i..], uploads, sentFiles, sentBytes) == Outcomes(files, ids, uploads, 0, 0)
    {
      var id := ids[i];
      assert ids[i..][0] == id && ids[i..][1..] == ids[i + 1..];
      ghost var before := progress.stores;
      ghost var told := Reported(sentBytes, uploads[id].chunks);
      UploadBody(uploads[id].chunks, sentBytes, progress);
      match uploads[id].outcome {
        case Done =>
          sentFiles := sentFiles + 1;
          sentBytes := sentBytes + files[id].size;
          progress.Store(sentBytes);
          ghost var rest := Stores(files, ids[i + 1..], uploads, sentBytes);
          assert before + told + [sentBytes] + rest == before + (told + ([sentBytes] + rest));
        case Cancelled(byPeer) =>
          assert before + (told + []) == before + told;
          return Sent(false, sentFiles, sentBytes, !byPeer);
        case Failed =>
          assert before + (told + []) == before + told;
          return Sent(false, sentFiles, sentBytes, true);
      }
    }
    sent := Sent(true, sentFiles, sentBytes, false);
  }

  // ---- the counter never goes back ----

  predicate NeverDecreases(stores: seq<nat>) {
    forall i :: 1 <= i < |stores| ==> stores[i - 1] <= stores[i]
  }

  /** Every upload that completed has streamed no more than the declared size. */
  predicate WithinDeclared(files: map<Id, FileDto>, ids: seq<Id>, uploads: map<Id, Upload>)
    requires forall i :: 0 <= i < |ids| ==> ids[i] in files && ids[i] in uploads
  {
    ids == []
    || (uploads[ids[0]].outcome.Done? ==>
          Total(uploads[ids[0]].chunks) <= files[ids[0]].size && WithinDeclared(files, ids[1..], uploads))
  }

  lemma {:induction false} ReportedRises(base: nat, chunks: seq<nat>)
    ensures var stores := [base] + Reported(base, chunks);
      NeverDecreases(stores) && stores[|stores| - 1] == base + Total(chunks)
  {
    if chunks != [] {
      var init := chunks[..|chunks| - 1];
      ReportedRises(base, init);
      Assoc([base], Reported(base, init), [base + Total(chunks)]);
    }
  }

  lemma {:induction false} NeverDecreasesJoin(a: seq<nat>, b: seq<nat>)
    requires a != [] && b != []
    ensures NeverDecreases(a + b) <==> NeverDecreases(a) && NeverDecreases(b) && a[|a| - 1] <= b[0]
  {
    var whole := a + b;
    assert forall i :: 0 <= i < |a| ==> whole[i] == a[i];
    assert forall i :: 0 <= i < |b| ==> whole[|a| + i] == b[i];
    if NeverDecreases(whole) {
      assert whole[|a| - 1] <= whole[|a|];
      forall i | 1 <= i < |b| ensures b[i - 1] <= b[i] {
        assert whole[|a| + i - 1] <= whole[|a| + i];
      }
    }
  }

  lemma {:induction false} ProgressNeverDecreases(files: map<Id, FileDto>, ids: seq<Id>, uploads: map<Id, Upload>,
                                                  base: nat)
    requires forall i :: 0 <= i < |ids| ==> ids[i] in files && ids[i] in uploads
    ensures NeverDecreases([base] + Stores(files, ids, uploads, base)) <==> WithinDeclared(files, ids, uploads)
  {
    if ids != [] {
      var upload, after := uploads[ids[0]], base + files[ids[0]].size;
      var told := Reported(base, upload.chunks);
      ReportedRises(base, upload.chunks);
      if upload.outcome.Done? {
        var rest := [after] + Stores(files, ids[1..], uploads, after);
        ProgressNeverDecreases(files, ids[1..], uploads, after);
        NeverDecreasesJoin([base] + told, rest);
        Assoc([base], told, rest);
      } else {
        assert told + [] == told;
      }
    }
  }

  // ---- everything accepted is reported ----

  function IdSet(ids: seq<Id>): set<Id> {
    set id | id in ids
  }

  predicate AllDone(ids: seq<Id>, uploads: map<Id, Upload>) {
    forall i :: 0 <= i < |ids| ==> ids[i] in uploads && uploads[ids[i]].outcome.Done?
  }

  lemma {:induction false} SuccessSums(files: map<Id, FileDto>, ids: seq<Id>, uploads: map<Id, Upload>, done: nat,
                                       base: nat)
    requires HasNoRepeats(ids) && forall i :: 0 <= i < |ids| ==> ids[i] in files && ids[i] in uploads
    ensures var sent := Outcomes(files, ids, uploads, done, base);
      && (sent.ok <==> AllDone(ids, uploads))
      && (sent.ok ==> sent == Sent(true, done + |ids|, base + SumOver(files, IdSet(ids)), false))
    ensures AllDone(ids, uploads) ==>
              var stores := [base] + Stores(files, ids, uploads, base);
              stores[|stores| - 1] == base + SumOver(files, IdSet(ids))
  {
    if ids != [] {
      var rest := ids[1..];
      var after := base + files[ids[0]].size;
      SuccessSums(files, rest, uploads, done + 1, after);
      assert ids == [ids[0]] + rest;
      assert IdSet(ids) - {ids[0]} == IdSet(rest);
      SumOverRemove(files, IdSet(ids), ids[0]);
      assert AllDone(ids, uploads) <==> uploads[ids[0]].outcome.Done? && AllDone(rest, uploads);
    } else {
      assert IdSet(ids) == {};
    }
  }

  /** After a successful send the counter holds the accepted bytes: the sum in
      upload order, whatever that order is, is the sum over the response. */
  lemma {:induction false} SuccessReportsAccepted(files: map<Id, FileDto>, accepted: set<Id>, ids: seq<Id>,
                                                  uploads: map<Id, Upload>)
    requires HasNoRepeats(ids) && (forall id :: id in ids <==> id in accepted)
    requires accepted <= files.Keys && accepted <= uploads.Keys
    ensures Outcomes(files, ids, uploads, 0, 0).ok ==>
              && Outcomes(files, ids, uploads, 0, 0) == Sent(true, |ids|, SumOver(files, accepted), false)
              && var stores := [0] + Stores(files, ids, uploads, 0);
                 stores[|stores| - 1] == SumOver(files, accepted)
  {
    assert IdSet(ids) == accepted;
    SuccessSums(files, ids, uploads, 0, 0);
  }

  function SizeSum(files: map<Id, FileDto>, ids: seq<Id>): nat {
    if ids == [] then 0 else SizeOf(files, ids[0]) + SizeSum(files, ids[1..])
  }

  /** With the first `k` files sent, the `i`-th chunk of the next one brings the
      counter to the declared sizes of those and what is sent of this one. */
  lemma {:induction false} CounterDuringUpload(files: map<Id, FileDto>, ids: seq<Id>, uploads: map<Id, Upload>, k: nat,
                                               base: nat, i: nat) returns (at: nat)
    requires k < |ids| && forall j :: 0 <= j < |ids| ==> ids[j] in files && ids[j] in uploads
    requires forall j :: 0 <= j < k ==> uploads[ids[j]].outcome.Done?
    requires i < |uploads[ids[k]].chunks|
    ensures at < |Stores(files, ids, uploads, base)|
    ensures Stores(files, ids, uploads, base)[at]
         == base + SizeSum(files, ids[..k]) + Total(uploads[ids[k]].chunks[..i + 1])
  {
    var chunks := uploads[ids[0]].chunks;
    if k == 0 {
      ReportedAt(base, chunks, i);
      at := i;
    } else {
      var after := base + files[ids[0]].size;
      var later := CounterDuringUpload(files, ids[1..], uploads, k - 1, after, i);
      assert ids[..k][0] == ids[0] && ids[..k][1..] == ids[1..][..k - 1];
      at := |Reported(base, chunks)| + 1 + later;
      assert Stores(files, ids, uploads, base)
             == (Reported(base, chunks) + [after]) + Stores(files, ids[1..], uploads, after);
    }
  }

  /** A send stops at the first upload that does not complete: the files before
      it are counted, and the receiver is told to cancel unless it did so itself. */
  lemma {:induction false} StopsAtFirstFailure(files: map<Id, FileDto>, ids: seq<Id>, uploads: map<Id, Upload>, k: nat,
                                               done: nat, base: nat)
    requires k < |ids| && forall i :: 0 <= i < |ids| ==> ids[i] in files && ids[i] in uploads
    requires forall i :: 0 <= i < k ==> uploads[ids[i]].outcome.Done?
    requires !uploads[ids[k]].outcome.Done?
    ensures Outcomes(files, ids, uploads, done, base)
         == Sent(false, done + k, base + SizeSum(files, ids[..k]), uploads[ids[k]].outcome != Cancelled(true))
  {
    if k > 0 {
      var rest := ids[1..];
      assert ids[..k][0] == ids[0] && ids[..k][1..] == rest[..k - 1];
      StopsAtFirstFailure(files, rest, uploads, k - 1, done + 1, base + files[ids[0]].size);
    }
  }
}
