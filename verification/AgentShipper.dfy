/** Store-and-forward delivery of event batches through a durable directory queue (src/agent_shipper.py). */
module AgentShipper {
  import opened Prelude
  import opened Json

  type Batch = seq<Fields>

  /** What reading a spool file yields. */
  datatype SpoolFile = Ready(events: Batch) | Blocked(error: string)

  /** The queue directory: file names are ordered, and their order is the replay order. */
  type Directory = map<nat, SpoolFile>

  datatype SendResult = SendResult(statusCode: nat, error: Option<string>, acceptedCount: int, taskId: Option<string>)

  /** What one request meets: the answer the agent sees, and whether the collector stored the batch. */
  datatype Answer = Answer(result: SendResult, stored: bool)

  datatype Status = Accepted | Queued | Rejected

  datatype ShipResult = ShipResult(
    status: Status, acceptedCount: int, taskId: Option<string>, replayedCount: nat, queuedCount: nat,
    error: Option<string>)

  predicate IsAccepted(r: SendResult) { r.statusCode == 202 }

  predicate IsAuthRejected(r: SendResult) { r.statusCode in {401, 403} }

  /** The collector answers 202 only for a batch it has stored; it may store a batch and answer anything else. */
  ghost predicate Honest(answers: nat -> Answer) {
    forall k: nat :: IsAccepted(answers(k).result) ==> answers(k).stored
  }

  // ---------------------------------------------------------------- name order

  // Ordering the names is isolated here: the rest of the model only uses the lemmas.

  lemma {:induction false} LeastExists(s: set<nat>, x: nat)
    requires x in s
    ensures exists m :: m in s && forall k :: k in s ==> m <= k
    decreases x
  {
    if k :| k in s && k < x {
      LeastExists(s, k);
    }
  }

  function Least(s: set<nat>): (m: nat)
    requires s != {}
    ensures m in s && forall k :: k in s ==> m <= k
  {
    var x :| x in s;
    LeastExists(s, x);
    var m :| m in s && forall k :: k in s ==> m <= k;
    m
  }

  function SortedNames(s: set<nat>): seq<nat> {
    if s == {} then [] else [Least(s)] + SortedNames(s - {Least(s)})
  }

  lemma {:induction false} NameListed(s: set<nat>, i: nat)
    requires i < |SortedNames(s)|
    ensures SortedNames(s)[i] in s
  {
    if i > 0 {
      NameListed(s - {Least(s)}, i - 1);
    }
  }

  /** The files in replay order. */
  function Files(dir: Directory): (files: seq<SpoolFile>)
    ensures |files| == |SortedNames(dir.Keys)|
  {
    var names := SortedNames(dir.Keys);
    seq(|names|, i requires 0 <= i < |names| => NameListed(dir.Keys, i); dir[names[i]])
  }

  lemma FileAt(dir: Directory, i: nat)
    requires i < |Files(dir)|
    ensures SortedNames(dir.Keys)[i] in dir && Files(dir)[i] == dir[SortedNames(dir.Keys)[i]]
  {
    NameListed(dir.Keys, i);
  }

  lemma {:induction false} NameIndex(s: set<nat>, name: nat) returns (i: nat)
    requires name in s
    ensures i < |SortedNames(s)| && SortedNames(s)[i] == name
  {
    if name == Least(s) {
      i := 0;
    } else {
      i := NameIndex(s - {Least(s)}, name);
      i := i + 1;
    }
  }

  lemma {:induction false} SortedNamesAppend(s: set<nat>, n: nat)
    requires forall k <- s :: k < n
    ensures SortedNames(s + {n}) == SortedNames(s) + [n]
  {
    if s == {} {
      assert s + {n} == {n} && {n} - {n} == {};
      assert Least({n}) == n;
    } else {
      var m := Least(s);
      assert Least(s + {n}) == m;
      assert s + {n} - {m} == s - {m} + {n};
      SortedNamesAppend(s - {m}, n);
    }
  }

  /** The n oldest names. */
  function Oldest(s: set<nat>, n: nat): set<nat> {
    if n == 0 || s == {} then {} else {Least(s)} + Oldest(s - {Least(s)}, n - 1)
  }

  lemma {:induction false} OldestNext(s: set<nat>, n: nat)
    requires n < |SortedNames(s)|
    ensures Oldest(s, n + 1) == Oldest(s, n) + {SortedNames(s)[n]}
    ensures SortedNames(s)[n] in s && SortedNames(s)[n] !in Oldest(s, n)
  {
    if n > 0 {
      OldestNext(s - {Least(s)}, n - 1);
    }
  }

  /** Removing the n oldest names leaves the others in their order. */
  lemma {:induction false} OldestDrop(s: set<nat>, n: nat)
    requires n <= |SortedNames(s)|
    ensures SortedNames(s - Oldest(s, n)) == SortedNames(s)[n..]
  {
    if n == 0 {
      assert s - {} == s;
    } else {
      var tail := s - {Least(s)};
      OldestDrop(tail, n - 1);
      assert s - Oldest(s, n) == tail - Oldest(tail, n - 1);
    }
  }

  lemma FilesDrop(dir: Directory, n: nat)
    requires n <= |Files(dir)|
    ensures Files(dir - Oldest(dir.Keys, n)) == Files(dir)[n..]
  {
    var rest := dir - Oldest(dir.Keys, n);
    assert rest.Keys == dir.Keys - Oldest(dir.Keys, n);
    OldestDrop(dir.Keys, n);
    forall i | 0 <= i < |Files(rest)|
      ensures Files(rest)[i] == Files(dir)[n + i]
    {
      FileAt(rest, i);
      FileAt(dir, n + i);
    }
  }

  /** A file with a newer name is replayed last. */
  lemma FilesAppend(dir: Directory, name: nat, file: SpoolFile)
    requires Newest(dir, name)
    ensures Files(dir[name := file]) == Files(dir) + [file]
  {
    SortedNamesAppend(dir.Keys, name);
    var dir' := dir[name := file];
    assert dir'.Keys == dir.Keys + {name};
    forall i | 0 <= i < |Files(dir)|
      ensures Files(dir')[i] == Files(dir)[i]
    {
      FileAt(dir, i);
      FileAt(dir', i);
    }
    FileAt(dir', |Files(dir)|);
  }

  ghost predicate Newest(dir: Directory, name: nat) { forall k :: k in dir ==> k < name }

  // ---------------------------------------------------------------- one call, in closed form

  /**
   * Everything a call can change. acked lists the batches the agent has let go because it saw a 202 for them,
   * stored what the collector has kept, calls how many requests were made.
   */
  datatype World = World(dir: Directory, calls: nat, stored: seq<Batch>, acked: seq<Batch>)

  /** How many of the oldest files are handed over before one is malformed or not accepted. */
  function Replays(files: seq<SpoolFile>, k: nat, answers: nat -> Answer): (n: nat)
    ensures n <= |files|
    decreases |files|
  {
    if files == [] || files[0].Blocked? || !IsAccepted(answers(k).result) then 0
    else 1 + Replays(files[1..], k + 1, answers)
  }

  /** The batches of consecutive requests that the collector keeps. */
  function Kept(batches: seq<Batch>, k: nat, answers: nat -> Answer): seq<Batch>
  {
    if batches == [] then []
    else
      var n := |batches| - 1;
      Kept(batches[..n], k, answers) + (if answers(k + n).stored then [batches[n]] else [])
  }

  function Batches(files: seq<SpoolFile>): seq<Batch> {
    if files == [] then []
    else
      var last := files[|files| - 1];
      Batches(files[..|files| - 1]) + [if last.Ready? then last.events else []]
  }

  function ErrorText(r: SendResult): string {
    if r.error.Some? && r.error.value != "" then r.error.value else "http_" + Decimal(r.statusCode)
  }

  /** The result of a call whose batch went to the spool after a failed request. */
  function FailedResult(r: SendResult, replayed: nat): ShipResult {
    ShipResult(if IsAuthRejected(r) then Rejected else Queued, 0, None, replayed, 1, Some(ErrorText(r)))
  }

  function AcceptedResult(r: SendResult, replayed: nat): ShipResult {
    ShipResult(Accepted, r.acceptedCount, r.taskId, replayed, 0, None)
  }

  /** The result of a call that met a malformed file. */
  function BlockedResult(error: string, replayed: nat): ShipResult {
    ShipResult(Queued, 0, None, replayed, 1, Some(error))
  }

  /** The queue after n replays: the n oldest files are gone, their batches handed over. */
  function AfterReplays(w: World, n: nat, answers: nat -> Answer): World
    requires n <= |Files(w.dir)|
  {
    var batches := Batches(Files(w.dir)[..n]);
    World(w.dir - Oldest(w.dir.Keys, n), w.calls + n, w.stored + Kept(batches, w.calls, answers), w.acked + batches)
  }

  function Request(w: World, batch: Batch, answers: nat -> Answer): World {
    w.(calls := w.calls + 1, stored := if answers(w.calls).stored then w.stored + [batch] else w.stored)
  }

  /** One accepted replay: the request, then the unlink. */
  function Handover(w: World, path: nat, batch: Batch, answers: nat -> Answer): World {
    Request(w, batch, answers).(dir := w.dir - {path}, acked := w.acked + [batch])
  }

  function Spool(w: World, events: Batch, name: nat): World { w.(dir := w.dir[name := Ready(events)]) }

  /** One call: replay oldest first, stop at the first failure, send the new batch only on an empty queue. */
  function Ship(w: World, events: Batch, name: nat, answers: nat -> Answer): (World, ShipResult) {
    var files := Files(w.dir);
    var n := Replays(files, w.calls, answers);
    var w1 := AfterReplays(w, n, answers);
    if n < |files| && files[n].Blocked? then
      (Spool(w1, events, name), BlockedResult(files[n].error, n))
    else
      var r := answers(w1.calls).result;
      var w2 := Request(w1, if n < |files| then files[n].events else events, answers);
      if n == |files| && IsAccepted(r) then
        (w2.(acked := w2.acked + [events]), AcceptedResult(r, n))
      else (Spool(w2, events, name), FailedResult(r, n))
  }

  // ---------------------------------------------------------------- the agent over a real queue

  class Collector {
    const answers: nat -> Answer
    var calls: nat
    var stored: seq<Batch>

    constructor (answers: nat -> Answer)
      ensures this.answers == answers && calls == 0 && stored == []
    {
      this.answers := answers;
      calls, stored := 0, [];
    }

    method Send(batch: Batch) returns (r: SendResult)
      modifies this
      ensures r == answers(old(calls)).result && calls == old(calls) + 1
      ensures stored == if answers(old(calls)).stored then old(stored) + [batch] else old(stored)
    {
      r := answers(calls).result;
      if answers(calls).stored {
        stored := stored + [batch];
      }
      calls := calls + 1;
    }
  }

  class Agent {
    var dir: Directory
    const collector: Collector
    ghost var acked: seq<Batch>

    constructor (collector: Collector)
      ensures this.collector == collector && dir == map[] && acked == []
    {
      this.collector := collector;
      dir, acked := map[], [];
    }

    ghost function View(): World
      reads this, collector
    {
      World(dir, collector.calls, collector.stored, acked)
    }

    /** The spool files present when the call starts, oldest name first. */
    method PendingSpoolPaths() returns (names: seq<nat>)
      ensures names == SortedNames(dir.Keys)
    {
      names := [];
      var rest := dir.Keys;
      while rest != {}
        invariant names + SortedNames(rest) == SortedNames(dir.Keys)
        decreases |rest|
      {
        var m := Least(rest);
        assert names + ([m] + SortedNames(rest - {m})) == (names + [m]) + SortedNames(rest - {m});
        names, rest := names + [m], rest - {m};
      }
    }

    method SpoolEvents(events: Batch, name: nat)
      modifies this`dir
      ensures View() == Spool(old(View()), events, name)
    {
      dir := dir[name := Ready(events)];
    }

    method Post(batch: Batch) returns (reply: SendResult)
      modifies collector
      ensures View() == Request(old(View()), batch, collector.answers)
      ensures reply == collector.answers(old(View()).calls).result
    {
      reply := collector.Send(batch);
    }

    /** Delete the oldest spool file after the 202 for its batch. */
    method Unlink(path: nat, batch: Batch)
      modifies this
      ensures View() == old(View()).(dir := old(dir) - {path}, acked := old(acked) + [batch])
    {
      dir := dir - {path};
      acked := acked + [batch];
    }

    /** Ship one batch; name is the spool file name a failing call would use. */
    method ShipEvents(events: Batch, name: nat) returns (result: ShipResult)
      modifies this, collector
      ensures View() == old(Ship(View(), events, name, collector.answers).0)
      ensures result == old(Ship(View(), events, name, collector.answers).1)
    {
      ghost var w, answers := View(), collector.answers;
      ghost var files := Files(dir);
      var names := PendingSpoolPaths();
      ReplaysSplit(files, 0, w.calls, answers);
      AfterNoReplays(w, answers);
      for i := 0 to |names|
        invariant i <= Replays(files, w.calls, answers)
        invariant View() == AfterReplays(w, i, answers)
      {
        var path := names[i];
        AfterKeeps(w, i, answers);
        ReplaysSplit(files, i, w.calls, answers);
        match dir[path] {
          case Blocked(error) =>
            SpoolEvents(events, name);
            return BlockedResult(error, i);
          case Ready(batch) =>
            var reply := Post(batch);
            if !IsAccepted(reply) {
              SpoolEvents(events, name);
              return FailedResult(reply, i);
            }
            AfterOneMore(w, i, answers);
            Unlink(path, batch);
        }
      }
      var reply := Post(events);
      if IsAccepted(reply) {
        acked := acked + [events];
        return AcceptedResult(reply, |names|);
      }
      SpoolEvents(events, name);
      return FailedResult(reply, |names|);
    }
  }

  /** Where the replay stands after i files decides whether it goes on. */
  lemma {:induction false} ReplaysSplit(files: seq<SpoolFile>, i: nat, k: nat, answers: nat -> Answer)
    requires i <= Replays(files, k, answers)
    ensures i < Replays(files, k, answers) <==> i < |files| && files[i].Ready? && IsAccepted(answers(k + i).result)
  {
    if i > 0 {
      ReplaysSplit(files[1..], i - 1, k + 1, answers);
    }
  }

  lemma AfterNoReplays(w: World, answers: nat -> Answer)
    ensures AfterReplays(w, 0, answers) == w
  {
    assert w.dir - {} == w.dir;
    assert Batches(Files(w.dir)[..0]) == [];
  }

  lemma AfterKeeps(w: World, i: nat, answers: nat -> Answer)
    requires i < |Files(w.dir)|
    ensures var path := SortedNames(w.dir.Keys)[i];
      path in AfterReplays(w, i, answers).dir && AfterReplays(w, i, answers).dir[path] == Files(w.dir)[i]
  {
    OldestNext(w.dir.Keys, i);
    FileAt(w.dir, i);
  }

  lemma KeptOneMore(files: seq<SpoolFile>, i: nat, k: nat, answers: nat -> Answer)
    requires i < |files| && files[i].Ready?
    ensures Batches(files[..i + 1]) == Batches(files[..i]) + [files[i].events]
    ensures Kept(Batches(files[..i + 1]), k, answers)
         == Kept(Batches(files[..i]), k, answers) + (if answers(k + i).stored then [files[i].events] else [])
  {
    var front := files[..i + 1];
    assert front[..i] == files[..i];
    BatchesLength(files[..i]);
    var batches := Batches(front);
    assert batches[..i] == Batches(files[..i]);
  }

  lemma {:induction false} BatchesLength(files: seq<SpoolFile>)
    ensures |Batches(files)| == |files|
  {
    if files != [] {
      BatchesLength(files[..|files| - 1]);
    }
  }

  lemma RemoveBoth(dir: Directory, a: set<nat>, b: set<nat>)
    ensures dir - (a + b) == (dir - a) - b
  {
  }

  lemma DirOneMore(dir: Directory, i: nat)
    requires i < |Files(dir)|
    ensures dir - Oldest(dir.Keys, i + 1) == (dir - Oldest(dir.Keys, i)) - {SortedNames(dir.Keys)[i]}
  {
    OldestNext(dir.Keys, i);
    RemoveBoth(dir, Oldest(dir.Keys, i), {SortedNames(dir.Keys)[i]});
  }

  lemma StoredOneMore(stored: seq<Batch>, files: seq<SpoolFile>, i: nat, k: nat, answers: nat -> Answer)
    requires i < |files| && files[i].Ready?
    ensures var before := stored + Kept(Batches(files[..i]), k, answers);
      stored + Kept(Batches(files[..i + 1]), k, answers)
      == if answers(k + i).stored then before + [files[i].events] else before
  {
    KeptOneMore(files, i, k, answers);
    AppendAssociative(stored, Kept(Batches(files[..i]), k, answers), [files[i].events]);
  }

  lemma AckedOneMore(acked: seq<Batch>, files: seq<SpoolFile>, i: nat)
    requires i < |files| && files[i].Ready?
    ensures acked + Batches(files[..i + 1]) == (acked + Batches(files[..i])) + [files[i].events]
  {
    assert files[..i + 1][..i] == files[..i];
    AppendAssociative(acked, Batches(files[..i]), [files[i].events]);
  }

  lemma AfterOneMore(w: World, i: nat, answers: nat -> Answer)
    requires i < |Files(w.dir)| && Files(w.dir)[i].Ready?
    ensures AfterReplays(w, i + 1, answers)
         == Handover(AfterReplays(w, i, answers), SortedNames(w.dir.Keys)[i], Files(w.dir)[i].events, answers)
  {
    var files := Files(w.dir);
    DirOneMore(w.dir, i);
    StoredOneMore(w.stored, files, i, w.calls, answers);
    AckedOneMore(w.acked, files, i);
  }

  // ---------------------------------------------------------------- conservation

  predicate AllReady(files: seq<SpoolFile>) { forall i :: 0 <= i < |files| ==> files[i].Ready? }

  lemma {:induction false} ReplaysReady(files: seq<SpoolFile>, k: nat, answers: nat -> Answer)
    ensures AllReady(files[..Replays(files, k, answers)])
    decreases |files|
  {
    var n := Replays(files, k, answers);
    if n > 0 {
      ReplaysReady(files[1..], k + 1, answers);
      assert files[..n] == [files[0]] + files[1..][..n - 1];
    }
  }

  /**
   * One call removes a prefix of the queue, exactly the files it counts as replayed, and appends the new batch
   * unless it was accepted; it reports acceptance exactly when the queue is empty afterwards.
   */
  lemma ShipEffect(w: World, events: Batch, name: nat, answers: nat -> Answer)
    requires Newest(w.dir, name)
    ensures var (after, result) := Ship(w, events, name, answers);
      var (files, n, accepted) := (Files(w.dir), result.replayedCount, result.status.Accepted?);
      && n <= |files| && AllReady(files[..n])
      && Files(after.dir) == files[n..] + (if accepted then [] else [Ready(events)])
      && after.acked == w.acked + Batches(files[..n]) + (if accepted then [events] else [])
      && (accepted <==> Files(after.dir) == [])
      && result.queuedCount == (if accepted then 0 else 1)
      && Newest(after.dir, name + 1)
  {
    var n := Replays(Files(w.dir), w.calls, answers);
    ReplaysReady(Files(w.dir), w.calls, answers);
    FilesDrop(w.dir, n);
    FilesAppend(AfterReplays(w, n, answers).dir, name, Ready(events));
  }

  /** Requests number k up to (but not including) number end are all answered 202. */
  ghost predicate AllAccepted(answers: nat -> Answer, k: nat, end: nat) {
    forall q: nat :: k <= q < end ==> IsAccepted(answers(q).result)
  }

  lemma {:induction false} ReplaysAllIff(files: seq<SpoolFile>, k: nat, answers: nat -> Answer)
    ensures Replays(files, k, answers) == |files| <==> (AllReady(files) && AllAccepted(answers, k, k + |files|))
    decreases |files|
  {
    if files != [] {
      ReplaysAllIff(files[1..], k + 1, answers);
      ReadyCons(files);
    }
  }

  lemma ReadyCons(files: seq<SpoolFile>)
    requires files != []
    ensures AllReady(files) <==> (files[0].Ready? && AllReady(files[1..]))
  {
    var rest := files[1..];
    assert forall i :: 0 < i < |files| ==> files[i] == rest[i - 1];
  }

  /**
   * A call is accepted, and so empties the spool, exactly when no spool file is malformed and every request it makes,
   * one for each file and one for the new batch, is answered 202.
   */
  lemma AcceptedIff(w: World, events: Batch, name: nat, answers: nat -> Answer)
    ensures Ship(w, events, name, answers).1.status.Accepted?
      <==> (AllReady(Files(w.dir)) && AllAccepted(answers, w.calls, w.calls + |Files(w.dir)| + 1))
  {
    var n := |Files(w.dir)|;
    ReplaysAllIff(Files(w.dir), w.calls, answers);
    assert AllAccepted(answers, w.calls, w.calls + n + 1)
      <==> (AllAccepted(answers, w.calls, w.calls + n) && IsAccepted(answers(w.calls + n).result));
  }

  /** One submission: a batch and the name its spool file would get. */
  datatype Submission = Submission(events: Batch, name: nat)

  function RunCalls(w: World, calls: seq<Submission>, answers: nat -> Answer): World
    decreases |calls|
  {
    if calls == [] then w else RunCalls(Ship(w, calls[0].events, calls[0].name, answers).0, calls[1..], answers)
  }

  ghost predicate IncreasingNames(calls: seq<Submission>) {
    forall i, j :: 0 <= i < j < |calls| ==> calls[i].name < calls[j].name
  }

  function Submitted(calls: seq<Submission>): seq<Batch> {
    if calls == [] then [] else [calls[0].events] + Submitted(calls[1..])
  }

  lemma OneCallConserves(w: World, events: Batch, name: nat, answers: nat -> Answer)
    requires AllReady(Files(w.dir)) && Newest(w.dir, name)
    ensures var after := Ship(w, events, name, answers).0;
      && AllReady(Files(after.dir)) && Newest(after.dir, name + 1)
      && after.acked + Batches(Files(after.dir)) == w.acked + Batches(Files(w.dir)) + [events]
  {
    ShipEffect(w, events, name, answers);
    var (after, result) := Ship(w, events, name, answers);
    var files, n, accepted := Files(w.dir), result.replayedCount, result.status.Accepted?;
    var front, back := files[..n], files[n..];
    assert files == front + back;
    BatchesAppend(front, back);
    AppendAssociative(w.acked, Batches(front), Batches(back));
    if accepted {
      assert back == [] && Batches(back) == [];
    } else {
      BatchesAppend(back, [Ready(events)]);
      OneBatch(events);
      AppendAssociative(w.acked + Batches(front), Batches(back), [events]);
    }
  }

  lemma OneBatch(events: Batch)
    ensures Batches([Ready(events)]) == [events]
  {
    assert [Ready(events)][..0] == [];
  }

  lemma {:induction false} BatchesAppend(a: seq<SpoolFile>, b: seq<SpoolFile>)
    ensures Batches(a + b) == Batches(a) + Batches(b)
    decreases |b|
  {
    if b == [] {
      assert a + b == a;
    } else {
      var n := |b| - 1;
      assert (a + b)[..|a| + n] == a + b[..n];
      BatchesAppend(a, b[..n]);
    }
  }

  /** Accepted batches followed by the queue are the submitted batches: nothing lost, doubled or overtaken. */
  lemma {:induction false} RunConserves(w: World, calls: seq<Submission>, answers: nat -> Answer)
    requires AllReady(Files(w.dir)) && IncreasingNames(calls) && (calls != [] ==> Newest(w.dir, calls[0].name))
    ensures var after := RunCalls(w, calls, answers);
      && AllReady(Files(after.dir))
      && after.acked + Batches(Files(after.dir)) == w.acked + Batches(Files(w.dir)) + Submitted(calls)
    decreases |calls|
  {
    if calls != [] {
      OneCallConserves(w, calls[0].events, calls[0].name, answers);
      RunConserves(Ship(w, calls[0].events, calls[0].name, answers).0, calls[1..], answers);
      AppendAssociative(w.acked + Batches(Files(w.dir)), [calls[0].events], Submitted(calls[1..]));
    }
  }

  /** From an empty queue: accepted ++ spool == submitted. */
  lemma FifoConservation(calls: seq<Submission>, answers: nat -> Answer)
    requires IncreasingNames(calls)
    ensures var after := RunCalls(World(map[], 0, [], []), calls, answers);
      AllReady(Files(after.dir)) && after.acked + Batches(Files(after.dir)) == Submitted(calls)
  {
    var empty := World(map[], 0, [], []);
    assert Files(empty.dir) == [] && Batches([]) == [];
    RunConserves(empty, calls, answers);
  }

  // ---------------------------------------------------------------- a malformed file blocks

  lemma {:induction false} ReplaysStopAt(files: seq<SpoolFile>, k: nat, answers: nat -> Answer, bad: nat)
    requires bad < |files| && files[bad].Blocked?
    ensures Replays(files, k, answers) <= bad
    decreases bad
  {
    if bad > 0 {
      ReplaysStopAt(files[1..], k + 1, answers, bad - 1);
    }
  }

  lemma {:induction false} OldestBelow(s: set<nat>, n: nat, i: nat)
    requires n <= i < |SortedNames(s)|
    ensures forall k :: k in Oldest(s, n) ==> k < SortedNames(s)[i]
  {
    NameListed(s, i);
    if n > 0 {
      OldestBelow(s - {Least(s)}, n - 1, i - 1);
      NameListed(s - {Least(s)}, i - 1);
    }
  }

  /** A call never gets past a malformed file: it and every later file stay, and nothing new is accepted. */
  lemma ShipBlocked(w: World, events: Batch, name: nat, answers: nat -> Answer, bad: nat)
    requires bad in w.dir && w.dir[bad].Blocked? && name !in w.dir
    ensures var (after, result) := Ship(w, events, name, answers);
      && !result.status.Accepted?
      && name in after.dir && after.dir[name] == Ready(events)
      && (forall k :: k in w.dir && k >= bad ==> k in after.dir && after.dir[k] == w.dir[k])
      && after.dir.Keys <= w.dir.Keys + {name}
  {
    var names, files := SortedNames(w.dir.Keys), Files(w.dir);
    var i := NameIndex(w.dir.Keys, bad);
    FileAt(w.dir, i);
    ReplaysStopAt(files, w.calls, answers, i);
    OldestBelow(w.dir.Keys, Replays(files, w.calls, answers), i);
  }

  /** Over any run, a malformed file and everything queued behind it stay where they are. */
  lemma {:induction false} RunBlocked(w: World, calls: seq<Submission>, answers: nat -> Answer, bad: nat)
    requires bad in w.dir && w.dir[bad].Blocked?
    requires forall i :: 0 <= i < |calls| ==> calls[i].name !in w.dir
    requires forall i, j :: 0 <= i < j < |calls| ==> calls[i].name != calls[j].name
    ensures var after := RunCalls(w, calls, answers);
      && (forall k :: k in w.dir && k >= bad ==> k in after.dir && after.dir[k] == w.dir[k])
      && (forall i :: 0 <= i < |calls| && calls[i].name > bad ==>
            calls[i].name in after.dir && after.dir[calls[i].name] == Ready(calls[i].events))
    decreases |calls|
  {
    if calls != [] {
      ShipBlocked(w, calls[0].events, calls[0].name, answers, bad);
      RunBlocked(Ship(w, calls[0].events, calls[0].name, answers).0, calls[1..], answers, bad);
    }
  }
}
