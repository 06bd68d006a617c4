/**
 * The agent in small steps, with lost answers and crashes between any two of them
 * (src/agent_shipper.py, ship_events).
 */
module AgentDelivery {
  import opened Prelude
  import opened AgentShipper

  /**
   * Where a call stands: not running, with the result of the last call if it returned; ready for the next request;
   * between a 202 and the unlink; or about to write the spool file and return.
   */
  datatype Phase =
    | Idle(last: Option<ShipResult>)
    | Busy(events: Batch, name: nat, replayed: nat)
    | Acked(events: Batch, name: nat, replayed: nat)
    | Failed(events: Batch, name: nat, result: ShipResult)

  datatype Node = Node(world: World, phase: Phase)

  /** The next step of a running call. */
  function Advance(a: Node, answers: nat -> Answer): Node {
    var w := a.world;
    match a.phase
    case Idle(_) => a
    case Busy(events, name, n) =>
      var r := answers(w.calls).result;
      if w.dir.Keys == {} then
        var sent := Request(w, events, answers);
        if IsAccepted(r) then Node(sent.(acked := sent.acked + [events]), Idle(Some(AcceptedResult(r, n))))
        else Node(sent, Failed(events, name, FailedResult(r, n)))
      else
        var head := w.dir[Least(w.dir.Keys)];
        if head.Blocked? then Node(w, Failed(events, name, BlockedResult(head.error, n)))
        else
          Node(Request(w, head.events, answers),
               if IsAccepted(r) then Acked(events, name, n) else Failed(events, name, FailedResult(r, n)))
    case Acked(events, name, n) =>
      if w.dir.Keys == {} then Node(w, Busy(events, name, n))
      else
        var path := Least(w.dir.Keys);
        var batch := if w.dir[path].Ready? then w.dir[path].events else [];
        Node(w.(dir := w.dir - {path}, acked := w.acked + [batch]), Busy(events, name, n + 1))
    case Failed(events, name, result) => Node(Spool(w, events, name), Idle(Some(result)))
  }

  // ---------------------------------------------------------------- the steps of an undisturbed call

  function Iterate(a: Node, k: nat, answers: nat -> Answer): Node {
    if k == 0 then a else Advance(Iterate(a, k - 1, answers), answers)
  }

  lemma LeastFile(w: World, i: nat, answers: nat -> Answer)
    requires i <= |Files(w.dir)|
    ensures var keys := AfterReplays(w, i, answers).dir.Keys;
      && (keys == {} <==> i == |Files(w.dir)|)
      && (i < |Files(w.dir)| ==>
            Least(keys) == SortedNames(w.dir.Keys)[i]
              && AfterReplays(w, i, answers).dir[Least(keys)] == Files(w.dir)[i])
  {
    OldestDrop(w.dir.Keys, i);
    var rest := AfterReplays(w, i, answers).dir;
    assert rest.Keys == w.dir.Keys - Oldest(w.dir.Keys, i);
    if i < |Files(w.dir)| {
      AfterKeeps(w, i, answers);
    }
  }

  lemma TwoSteps(w: World, events: Batch, name: nat, answers: nat -> Answer, i: nat)
    requires i < Replays(Files(w.dir), w.calls, answers)
    ensures Advance(Advance(Node(AfterReplays(w, i, answers), Busy(events, name, i)), answers), answers)
         == Node(AfterReplays(w, i + 1, answers), Busy(events, name, i + 1))
  {
    var before := AfterReplays(w, i, answers);
    ReplaysSplit(Files(w.dir), i, w.calls, answers);
    LeastFile(w, i, answers);
    AfterOneMore(w, i, answers);
    var path, batch := Least(before.dir.Keys), Files(w.dir)[i].events;
    var sent := Advance(Node(before, Busy(events, name, i)), answers);
    assert sent == Node(Request(before, batch, answers), Acked(events, name, i));
    assert sent.world.dir == before.dir;
  }

  /** Where the call stands after j replays. */
  function ReplayAt(w: World, events: Batch, name: nat, answers: nat -> Answer): nat -> Node {
    (j: nat) => if j <= |Files(w.dir)| then Node(AfterReplays(w, j, answers), Busy(events, name, j))
      else Node(w, Idle(None))
  }

  lemma {:induction false} IterateFollows(a: Node, at: nat -> Node, n: nat, i: nat, answers: nat -> Answer)
    requires i <= n && at(0) == a
    requires forall j: nat :: j < n ==> Advance(Advance(at(j), answers), answers) == at(j + 1)
    ensures Iterate(a, 2 * i, answers) == at(i)
  {
    if i > 0 {
      IterateFollows(a, at, n, i - 1, answers);
      IterateTwo(a, 2 * (i - 1), answers);
    }
  }

  /** Every replay takes two steps: the request and the unlink. */
  lemma ReplaySteps(w: World, events: Batch, name: nat, answers: nat -> Answer, n: nat)
    requires n == Replays(Files(w.dir), w.calls, answers)
    ensures Iterate(Node(w, Busy(events, name, 0)), 2 * n, answers)
      == Node(AfterReplays(w, n, answers), Busy(events, name, n))
  {
    var at := ReplayAt(w, events, name, answers);
    AfterNoReplays(w, answers);
    forall j: nat | j < n
      ensures Advance(Advance(at(j), answers), answers) == at(j + 1)
    {
      TwoSteps(w, events, name, answers, j);
    }
    IterateFollows(Node(w, Busy(events, name, 0)), at, n, n, answers);
  }

  lemma IterateTwo(a: Node, k: nat, answers: nat -> Answer)
    ensures Iterate(a, k + 2, answers) == Advance(Advance(Iterate(a, k, answers), answers), answers)
  {
    assert Iterate(a, k + 1, answers) == Advance(Iterate(a, k, answers), answers);
  }

  /** The state in which the whole call returns. */
  function Returned(w: World, events: Batch, name: nat, answers: nat -> Answer): Node {
    var (after, result) := Ship(w, events, name, answers);
    Node(after, Idle(Some(result)))
  }

  /** After the replays the call ends in one step when the batch is accepted, and by spooling it otherwise. */
  lemma CallEnds(w: World, events: Batch, name: nat, answers: nat -> Answer, n: nat)
    requires n == Replays(Files(w.dir), w.calls, answers)
    ensures var last, done := Node(AfterReplays(w, n, answers), Busy(events, name, n)),
        Returned(w, events, name, answers);
      Advance(last, answers) == done || Advance(Advance(last, answers), answers) == done
  {
    ReplaysSplit(Files(w.dir), n, w.calls, answers);
    LeastFile(w, n, answers);
  }

  /** Undisturbed, the steps of a call end in the state and with the result that the whole call computes. */
  lemma CallCompletes(w: World, events: Batch, name: nat, answers: nat -> Answer) returns (k: nat)
    ensures Iterate(Node(w, Busy(events, name, 0)), k, answers) == Returned(w, events, name, answers)
  {
    var n := Replays(Files(w.dir), w.calls, answers);
    var start, done := Node(w, Busy(events, name, 0)), Returned(w, events, name, answers);
    ReplaySteps(w, events, name, answers, n);
    CallEnds(w, events, name, answers, n);
    k := EndSoon(start, 2 * n, Node(AfterReplays(w, n, answers), Busy(events, name, n)), done, answers);
  }

  lemma EndSoon(start: Node, k: nat, last: Node, done: Node, answers: nat -> Answer) returns (end: nat)
    requires Iterate(start, k, answers) == last
    requires Advance(last, answers) == done || Advance(Advance(last, answers), answers) == done
    ensures Iterate(start, end, answers) == done
  {
    if Advance(last, answers) == done {
      end := k + 1;
    } else {
      end := k + 2;
      IterateTwo(start, k, answers);
    }
  }

  // ---------------------------------------------------------------- runs with crashes

  /**
   * The history of a run. Submissions are numbered from 0 in submission order, so equal batches keep different
   * numbers; numbers maps each spool file to its submission, log lists the submissions of the collector's entries,
   * and acks those of the batches the agent has let go.
   */
  datatype Trail = Trail(submitted: seq<Batch>, numbers: map<nat, nat>, log: seq<nat>, acks: seq<nat>)

  datatype Run = Run(node: Node, trail: Trail)

  /** The submission that the running call is about. */
  function Latest(t: Trail): nat { if t.submitted == [] then 0 else |t.submitted| - 1 }

  function NumberOf(t: Trail, name: nat): nat { if name in t.numbers then t.numbers[name] else 0 }

  function Logged(t: Trail, number: nat, stored: bool): Trail { if stored then t.(log := t.log + [number]) else t }

  /** The history after the next step of the running call. */
  function Track(a: Run, answers: nat -> Answer): Trail {
    var w, t := a.node.world, a.trail;
    var answer := answers(w.calls);
    match a.node.phase
    case Idle(_) => t
    case Busy(_, _, _) =>
      if w.dir.Keys == {} then
        var sent := Logged(t, Latest(t), answer.stored);
        if IsAccepted(answer.result) then sent.(acks := sent.acks + [Latest(t)]) else sent
      else if w.dir[Least(w.dir.Keys)].Blocked? then t
      else Logged(t, NumberOf(t, Least(w.dir.Keys)), answer.stored)
    case Acked(_, _, _) =>
      if w.dir.Keys == {} then t
      else
        var path := Least(w.dir.Keys);
        t.(numbers := t.numbers - {path}, acks := t.acks + [NumberOf(t, path)])
    case Failed(_, name, _) => t.(numbers := t.numbers[name := Latest(t)])
  }

  ghost predicate Submits(a: Run, b: Run) {
    && a.node.phase.Idle? && b.node.phase.Busy? && b.node.phase.replayed == 0 && b.node.world == a.node.world
    && Newest(a.node.world.dir, b.node.phase.name)
    && b.trail == a.trail.(submitted := a.trail.submitted + [b.node.phase.events])
  }

  /** A submission, one step of the running call, or a crash that forgets the running call. */
  ghost predicate Next(a: Run, b: Run, answers: nat -> Answer) {
    || Submits(a, b)
    || (!a.node.phase.Idle? && b == Run(Advance(a.node, answers), Track(a, answers)))
    || b == a.(node := a.node.(phase := Idle(None)))
  }

  ghost predicate Trace(runs: seq<Run>, answers: nat -> Answer) {
    && runs != [] && runs[0] == Run(Node(World(map[], 0, [], []), Idle(None)), Trail([], map[], [], []))
    && forall i :: 0 <= i < |runs| - 1 ==> Next(runs[i], runs[i + 1], answers)
  }

  // ---------------------------------------------------------------- what every reachable state satisfies

  /** Each entry of the list is the submission with the given number. */
  ghost predicate AreSubmissions(batches: seq<Batch>, numbers: seq<nat>, submitted: seq<Batch>) {
    |numbers| == |batches|
    && forall i :: 0 <= i < |numbers| ==> numbers[i] < |submitted| && batches[i] == submitted[numbers[i]]
  }

  ghost predicate NonDecreasing(numbers: seq<nat>) {
    forall i, j :: 0 <= i < j < |numbers| ==> numbers[i] <= numbers[j]
  }

  /** Every spool file holds a submission, and files are in submission order. */
  ghost predicate QueueInv(dir: Directory, t: Trail) {
    && t.numbers.Keys == dir.Keys
    && (forall k :: k in dir ==> t.numbers[k] < |t.submitted| && dir[k] == Ready(t.submitted[t.numbers[k]]))
    && (forall j, k :: j in dir && k in dir && j < k ==> t.numbers[j] < t.numbers[k])
  }

  /** The log holds submissions in order and has not passed any queued file. */
  ghost predicate LogInv(w: World, t: Trail) {
    && AreSubmissions(w.stored, t.log, t.submitted) && NonDecreasing(t.log)
    && (forall k, i :: k in t.numbers && 0 <= i < |t.log| ==> t.log[i] <= t.numbers[k])
  }

  /** What the agent has let go is logged. */
  ghost predicate AcksInv(w: World, t: Trail) {
    AreSubmissions(w.acked, t.acks, t.submitted) && forall i :: 0 <= i < |t.acks| ==> t.acks[i] in t.log
  }

  /** The running call is about the latest submission, which is not in the queue yet. */
  ghost predicate PhaseInv(a: Run) {
    var w, t, phase := a.node.world, a.trail, a.node.phase;
    !phase.Idle? ==>
      && t.submitted != [] && phase.events == t.submitted[Latest(t)] && Newest(w.dir, phase.name)
      && (forall k :: k in t.numbers ==> t.numbers[k] < Latest(t))
      && (phase.Acked? ==> w.dir.Keys != {} && NumberOf(t, Least(w.dir.Keys)) in t.log)
  }

  ghost predicate Inv(a: Run) {
    && QueueInv(a.node.world.dir, a.trail) && LogInv(a.node.world, a.trail) && AcksInv(a.node.world, a.trail)
    && PhaseInv(a)
  }

  ghost predicate Spooled(t: Trail, number: nat) { exists k :: k in t.numbers && t.numbers[k] == number }

  /**
   * No number is forgotten: a spooled one stays until it is logged, the log only grows, and submissions keep
   * theirs.
   */
  ghost predicate Keeps(t: Trail, t': Trail) {
    && t.submitted <= t'.submitted
    && (forall number :: number in t.log ==> number in t'.log)
    && (forall number :: Spooled(t, number) ==> Spooled(t', number) || number in t'.log)
  }

  lemma LogOneMore(w: World, t: Trail, batch: Batch, number: nat)
    requires LogInv(w, t) && number < |t.submitted| && batch == t.submitted[number]
    requires forall i :: 0 <= i < |t.log| ==> t.log[i] <= number
    requires forall k :: k in t.numbers ==> number <= t.numbers[k]
    ensures LogInv(w.(stored := w.stored + [batch]), t.(log := t.log + [number]))
  {
  }

  /** A request sends the oldest queued submission, or the latest one when nothing is queued. */
  lemma SentNumber(a: Run) returns (number: nat, batch: Batch)
    requires Inv(a) && a.node.phase.Busy?
    ensures var keys := a.node.world.dir.Keys;
      && number == (if keys == {} then Latest(a.trail) else NumberOf(a.trail, Least(keys)))
      && (keys != {} ==> a.node.world.dir[Least(keys)] == Ready(batch)) && (keys == {} ==> batch == a.node.phase.events)
    ensures number < |a.trail.submitted| && batch == a.trail.submitted[number]
    ensures forall i :: 0 <= i < |a.trail.log| ==> a.trail.log[i] <= number
    ensures forall k :: k in a.trail.numbers ==> number <= a.trail.numbers[k]
  {
    var w, t := a.node.world, a.trail;
    if w.dir.Keys == {} {
      number, batch := Latest(t), a.node.phase.events;
    } else {
      var path := Least(w.dir.Keys);
      assert path in w.dir;
      number, batch := t.numbers[path], t.submitted[t.numbers[path]];
    }
  }

  lemma BusyKeepsInv(a: Run, answers: nat -> Answer)
    requires Honest(answers) && Inv(a) && a.node.phase.Busy?
    ensures Inv(Run(Advance(a.node, answers), Track(a, answers))) && Keeps(a.trail, Track(a, answers))
  {
    var w, t := a.node.world, a.trail;
    var number, batch := SentNumber(a);
    LogOneMore(w, t, batch, number);
    var t' := Track(a, answers);
    assert t'.log == t.log || t'.log == t.log + [number];
    assert t'.numbers == t.numbers && t'.submitted == t.submitted;
    forall n | Spooled(t, n)
      ensures Spooled(t', n)
    {
      var k :| k in t.numbers && t.numbers[k] == n;
      assert t'.numbers[k] == n;
    }
  }

  lemma AckedKeepsInv(a: Run, answers: nat -> Answer)
    requires Inv(a) && a.node.phase.Acked?
    ensures Inv(Run(Advance(a.node, answers), Track(a, answers))) && Keeps(a.trail, Track(a, answers))
  {
    var w, t, t' := a.node.world, a.trail, Track(a, answers);
    var path := Least(w.dir.Keys);
    forall n | Spooled(t, n)
      ensures Spooled(t', n) || n in t'.log
    {
      var k :| k in t.numbers && t.numbers[k] == n;
      if k != path {
        assert t'.numbers[k] == n;
      }
    }
  }

  lemma FailedKeepsInv(a: Run, answers: nat -> Answer)
    requires Inv(a) && a.node.phase.Failed?
    ensures Inv(Run(Advance(a.node, answers), Track(a, answers))) && Keeps(a.trail, Track(a, answers))
  {
    var t, t' := a.trail, Track(a, answers);
    forall n | Spooled(t, n)
      ensures Spooled(t', n)
    {
      var k :| k in t.numbers && t.numbers[k] == n;
      assert k in t'.numbers && t'.numbers[k] == n;
    }
    forall i | 0 <= i < |t.log|
      ensures t.log[i] <= Latest(t)
    {
      assert t.log[i] < |t.submitted|;
    }
  }

  lemma SubmitKeepsInv(a: Run, b: Run)
    requires Inv(a) && Submits(a, b)
    ensures Inv(b) && Keeps(a.trail, b.trail)
  {
    forall n | Spooled(a.trail, n)
      ensures Spooled(b.trail, n)
    {
      var k :| k in a.trail.numbers && a.trail.numbers[k] == n;
      assert b.trail.numbers[k] == n;
    }
  }

  lemma NextKeepsInv(a: Run, b: Run, answers: nat -> Answer)
    requires Honest(answers) && Inv(a) && Next(a, b, answers)
    ensures Inv(b) && Keeps(a.trail, b.trail)
  {
    if Submits(a, b) {
      SubmitKeepsInv(a, b);
    } else if !a.node.phase.Idle? && b == Run(Advance(a.node, answers), Track(a, answers)) {
      match a.node.phase
      case Busy(_, _, _) => BusyKeepsInv(a, answers);
      case Acked(_, _, _) => AckedKeepsInv(a, answers);
      case Failed(_, _, _) => FailedKeepsInv(a, answers);
    }
  }

  lemma {:induction false} TraceInv(runs: seq<Run>, answers: nat -> Answer, i: nat)
    requires Honest(answers) && Trace(runs, answers) && i < |runs|
    ensures Inv(runs[i])
  {
    if i > 0 {
      TraceInv(runs, answers, i - 1);
      NextKeepsInv(runs[i - 1], runs[i], answers);
    }
  }

  // ---------------------------------------------------------------- delivery

  /**
   * Whatever answers are lost and wherever the agent crashes, every entry of the collector's log is a submission, the
   * log is in submission order, and between two copies of a submission there are only copies of it.
   */
  lemma StutteringDelivery(runs: seq<Run>, answers: nat -> Answer, i: nat)
    requires Honest(answers) && Trace(runs, answers) && i < |runs|
    ensures var log, t := runs[i].trail.log, runs[i].trail;
      && AreSubmissions(runs[i].node.world.stored, log, t.submitted)
      && NonDecreasing(log)
      && forall p, q, r :: 0 <= p < q < r < |log| && log[p] == log[r] ==> log[q] == log[p]
  {
    TraceInv(runs, answers, i);
  }

  ghost predicate Held(t: Trail, number: nat) { Spooled(t, number) || number in t.log }

  lemma StepKeeps(runs: seq<Run>, answers: nat -> Answer, i: nat)
    requires Honest(answers) && Trace(runs, answers) && i + 1 < |runs|
    ensures Keeps(runs[i].trail, runs[i + 1].trail)
  {
    TraceInv(runs, answers, i);
    NextKeepsInv(runs[i], runs[i + 1], answers);
  }

  lemma HeldOn(t: Trail, t': Trail, number: nat)
    requires Keeps(t, t') && Held(t, number)
    ensures Held(t', number)
  {
  }

  ghost predicate KeptThrough(runs: seq<Run>) {
    forall i :: 0 <= i < |runs| - 1 ==> Keeps(runs[i].trail, runs[i + 1].trail)
  }

  lemma {:induction false} KeepsOverTime(runs: seq<Run>, i: nat, j: nat, number: nat)
    requires KeptThrough(runs) && i <= j < |runs| && Held(runs[i].trail, number)
    ensures Held(runs[j].trail, number) && runs[i].trail.submitted <= runs[j].trail.submitted
    decreases j
  {
    if i < j {
      KeepsOverTime(runs, i, j - 1, number);
      HeldOn(runs[j - 1].trail, runs[j].trail, number);
    }
  }

  /** Who holds a submission holds its batch. */
  lemma HeldBatch(a: Run, number: nat)
    requires Inv(a) && Held(a.trail, number)
    ensures number < |a.trail.submitted| && InQueueOrLog(a, number, a.trail.submitted[number])
  {
    var w, t := a.node.world, a.trail;
    if Spooled(t, number) {
      var k :| k in t.numbers && t.numbers[k] == number;
      assert k in w.dir;
    } else {
      var k :| 0 <= k < |t.log| && t.log[k] == number;
      assert w.stored[k] == t.submitted[number];
    }
  }

  /** A spool file or a log entry with this number has this batch. */
  ghost predicate InQueueOrLog(a: Run, number: nat, batch: Batch) {
    var w, t := a.node.world, a.trail;
    || (exists k :: k in w.dir && k in t.numbers && t.numbers[k] == number && w.dir[k] == Ready(batch))
    || (exists k :: 0 <= k < |w.stored| && k < |t.log| && t.log[k] == number && w.stored[k] == batch)
  }

  /**
   * A submission once spooled or acknowledged is, at every later point, still in the queue or stored by the collector,
   * under its own number and with its own batch.
   */
  lemma SpooledNeverLost(runs: seq<Run>, answers: nat -> Answer, i: nat, j: nat, number: nat)
    requires Honest(answers) && Trace(runs, answers) && i <= j < |runs|
    requires Spooled(runs[i].trail, number) || number in runs[i].trail.acks
    ensures number < |runs[i].trail.submitted| && InQueueOrLog(runs[j], number, runs[i].trail.submitted[number])
  {
    TraceInv(runs, answers, i);
    TraceInv(runs, answers, j);
    if number in runs[i].trail.acks {
      var k :| 0 <= k < |runs[i].trail.acks| && runs[i].trail.acks[k] == number;
    }
    forall k | 0 <= k < |runs| - 1
      ensures Keeps(runs[k].trail, runs[k + 1].trail)
    {
      StepKeeps(runs, answers, k);
    }
    KeepsOverTime(runs, i, j, number);
    HeldBatch(runs[i], number);
    HeldBatch(runs[j], number);
  }
}
