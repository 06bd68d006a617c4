/** What a call of the agent asks the collector and tells its caller, in status codes (src/agent_shipper.py:71-125). */
module ShipOutcome {
  import opened Prelude
  import opened Json
  import opened AgentShipper

  /** Request number k is answered with this status code. */
  function Code(answers: nat -> Answer, k: nat): nat { answers(k).result.statusCode }

  lemma {:induction false} ReplaysAre(files: seq<SpoolFile>, k: nat, answers: nat -> Answer)
    ensures var n := Replays(files, k, answers);
      && (forall i :: 0 <= i < n ==> files[i].Ready? && Code(answers, k + i) == 202)
      && (n < |files| ==> files[n].Blocked? || Code(answers, k + n) != 202)
    decreases |files|
  {
    if files != [] && files[0].Ready? && Code(answers, k) == 202 {
      ReplaysAre(files[1..], k + 1, answers);
      var n := Replays(files[1..], k + 1, answers);
      forall i | 0 <= i < n + 1
        ensures files[i].Ready? && Code(answers, k + i) == 202
      {
        if i > 0 {
          assert files[i] == files[1..][i - 1] && Code(answers, k + 1 + (i - 1)) == 202;
        }
      }
      if n + 1 < |files| {
        assert files[n + 1] == files[1..][n];
      }
    }
  }

  /** The text of a failed reply: its own, or its status code. */
  ghost predicate Explains(text: Option<string>, reply: SendResult) {
    if reply.error.Some? && reply.error.value != "" then text == reply.error
    else text == Some("http_" + Decimal(reply.statusCode))
  }

  /** What the caller learns from the reply that ended the call. */
  ghost predicate Tells(result: ShipResult, reply: SendResult, done: bool) {
    if done && reply.statusCode == 202
    then
      && result.status == Accepted && result.acceptedCount == reply.acceptedCount && result.taskId == reply.taskId
      && result.queuedCount == 0 && result.error == None
    else
      && (result.status == Rejected <==> reply.statusCode == 401 || reply.statusCode == 403)
      && (result.status == Queued <==> reply.statusCode != 401 && reply.statusCode != 403)
      && result.acceptedCount == 0 && result.taskId == None && result.queuedCount == 1
      && Explains(result.error, reply)
  }

  /** How the call ends after n replays. */
  ghost predicate Ends(files: seq<SpoolFile>, n: nat, made: nat, result: ShipResult, reply: SendResult)
    requires n <= |files|
  {
    if n < |files| && files[n].Blocked?
    then made == n && result == ShipResult(Queued, 0, None, n, 1, Some(files[n].error))
    else made == n + 1 && (n < |files| ==> reply.statusCode != 202) && Tells(result, reply, n == |files|)
  }

  /** The first n files are readable and their requests answered 202. */
  ghost predicate Replayed(files: seq<SpoolFile>, n: nat, k: nat, answers: nat -> Answer) {
    n <= |files| && forall i :: 0 <= i < n ==> files[i].Ready? && Code(answers, k + i) == 202
  }

  /** The answer to a call that ends after n replays, given the reply to its last request. */
  function Answered(files: seq<SpoolFile>, n: nat, reply: SendResult): ShipResult
    requires n <= |files|
  {
    if n < |files| && files[n].Blocked? then BlockedResult(files[n].error, n)
    else if n == |files| && IsAccepted(reply) then AcceptedResult(reply, n)
    else FailedResult(reply, n)
  }

  function Made(files: seq<SpoolFile>, n: nat): nat { if n < |files| && files[n].Blocked? then n else n + 1 }

  lemma AnsweredEnds(files: seq<SpoolFile>, n: nat, reply: SendResult)
    requires n <= |files| && (n < |files| ==> files[n].Blocked? || reply.statusCode != 202)
    ensures Ends(files, n, Made(files, n), Answered(files, n, reply), reply)
    ensures Answered(files, n, reply).replayedCount == n
  {
  }

  lemma ShipParts(w: World, events: Batch, name: nat, answers: nat -> Answer)
    ensures var (after, result) := Ship(w, events, name, answers);
      var (files, n) := (Files(w.dir), Replays(Files(w.dir), w.calls, answers));
      && result == Answered(files, n, answers(w.calls + n).result)
      && after.calls == w.calls + Made(files, n)
  {
  }

  /**
   * A call replays the oldest files while each is readable and answered 202, and counts them. A malformed file ends
   * the call without a request and its error is reported; otherwise the next request, for the next file or for the new
   * batch when no file is left, ends it: accepted for 202 to the new batch, rejected for 401 and 403, else queued.
   */
  lemma ShipTells(w: World, events: Batch, name: nat, answers: nat -> Answer)
    ensures var (after, result) := Ship(w, events, name, answers);
      var (files, n) := (Files(w.dir), result.replayedCount);
      && Replayed(files, n, w.calls, answers) && after.calls >= w.calls
      && Ends(files, n, after.calls - w.calls, result, answers(w.calls + n).result)
  {
    var files, n := Files(w.dir), Replays(Files(w.dir), w.calls, answers);
    ReplaysAre(files, w.calls, answers);
    AnsweredEnds(files, n, answers(w.calls + n).result);
    ShipParts(w, events, name, answers);
  }

  /** The batches that the requests of a call carry: those of the files in turn, then the new one. */
  function Requested(files: seq<SpoolFile>, events: Batch, i: nat): Batch
    requires i < |files| ==> files[i].Ready?
  {
    if i < |files| then files[i].events else events
  }

  /** Those of the first m requested batches that the collector keeps, in order. */
  function KeptOf(files: seq<SpoolFile>, events: Batch, m: nat, k: nat, answers: nat -> Answer): seq<Batch>
    requires m <= |files| + 1 && forall i :: 0 <= i < m && i < |files| ==> files[i].Ready?
  {
    if m == 0 then []
    else
      KeptOf(files, events, m - 1, k, answers)
      + (if answers(k + m - 1).stored then [Requested(files, events, m - 1)] else [])
  }

  lemma {:induction false} KeptReplays(files: seq<SpoolFile>, events: Batch, n: nat, k: nat, answers: nat -> Answer)
    requires n <= |files| && AllReady(files[..n])
    ensures forall i :: 0 <= i < n ==> files[i].Ready?
    ensures Kept(Batches(files[..n]), k, answers) == KeptOf(files, events, n, k, answers)
  {
    assert forall i :: 0 <= i < n ==> files[..n][i] == files[i];
    if n > 0 {
      assert files[..n][..n - 1] == files[..n - 1];
      KeptReplays(files, events, n - 1, k, answers);
      KeptOneMore(files, n - 1, k, answers);
    } else {
      assert files[..0] == [];
    }
  }

  /** The store after the first m requests of a call. */
  ghost predicate Stores(before: seq<Batch>, after: seq<Batch>, files: seq<SpoolFile>, events: Batch, m: nat, k: nat,
                         answers: nat -> Answer)
  {
    && m <= |files| + 1 && (forall i :: 0 <= i < m && i < |files| ==> files[i].Ready?)
    && after == before + KeptOf(files, events, m, k, answers)
  }

  lemma ReplaysStored(stored: seq<Batch>, files: seq<SpoolFile>, events: Batch, n: nat, k: nat, answers: nat -> Answer)
    requires n <= |files| && AllReady(files[..n])
    ensures Stores(stored, stored + Kept(Batches(files[..n]), k, answers), files, events, n, k, answers)
  {
    KeptReplays(files, events, n, k, answers);
  }

  lemma LastStored(stored: seq<Batch>, now: seq<Batch>, files: seq<SpoolFile>, events: Batch, n: nat, k: nat,
                   answers: nat -> Answer)
    requires n <= |files| && (n < |files| ==> files[n].Ready?) && Stores(stored, now, files, events, n, k, answers)
    ensures Stores(stored, if answers(k + n).stored then now + [Requested(files, events, n)] else now, files, events,
                   n + 1, k, answers)
  {
    AppendAssociative(stored, KeptOf(files, events, n, k, answers), [Requested(files, events, n)]);
  }

  /** What is stored when a call ends after n replays. */
  function StoredAt(stored: seq<Batch>, files: seq<SpoolFile>, events: Batch, n: nat, k: nat, answers: nat -> Answer)
    : seq<Batch>
    requires n <= |files|
  {
    var now := stored + Kept(Batches(files[..n]), k, answers);
    if Made(files, n) > n && answers(k + n).stored then now + [Requested(files, events, n)] else now
  }

  lemma StoredEnds(stored: seq<Batch>, files: seq<SpoolFile>, events: Batch, n: nat, k: nat, answers: nat -> Answer)
    requires n <= |files| && AllReady(files[..n])
    ensures Stores(stored, StoredAt(stored, files, events, n, k, answers), files, events, Made(files, n), k, answers)
  {
    ReplaysStored(stored, files, events, n, k, answers);
    if Made(files, n) > n {
      LastStored(stored, stored + Kept(Batches(files[..n]), k, answers), files, events, n, k, answers);
    }
  }

  lemma ShipStores(w: World, events: Batch, name: nat, answers: nat -> Answer)
    ensures var (after, files, n) := (Ship(w, events, name, answers).0, Files(w.dir),
                                      Replays(Files(w.dir), w.calls, answers));
      after.stored == StoredAt(w.stored, files, events, n, w.calls, answers)
  {
  }

  /** The collector's store grows by exactly those batches, of the requests the call made, that it keeps. */
  lemma StoreGrows(w: World, events: Batch, name: nat, answers: nat -> Answer)
    ensures var after := Ship(w, events, name, answers).0;
      after.calls >= w.calls
      && Stores(w.stored, after.stored, Files(w.dir), events, after.calls - w.calls, w.calls, answers)
  {
    var files, n := Files(w.dir), Replays(Files(w.dir), w.calls, answers);
    ReplaysReady(files, w.calls, answers);
    StoredEnds(w.stored, files, events, n, w.calls, answers);
    ShipStores(w, events, name, answers);
    ShipParts(w, events, name, answers);
  }
}
