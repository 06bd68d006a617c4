/** The durable task queue and the worker that drains it (src/service_tasks.py, src/task_queue.py). */
module TaskStore {
  import opened Prelude
  import opened Outbox
  import opened StoreRows

  datatype TaskStatus = Pending | Running | Succeeded | Failed

  /** result holds the run id of a succeeded task. */
  datatype TaskRow = TaskRow(status: TaskStatus, createdAt: nat, payload: Object, result: Option<string>,
                             error: Option<string>)

  datatype State = State(tasks: map<string, TaskRow>, runs: set<string>, outbox: seq<OutboxRow>)

  predicate Terminal(row: TaskRow) { row.status.Succeeded? || row.status.Failed? }

  function TaskEvent(kind: string, id: string): OutboxRow { OutboxRow(kind, "task", id) }

  // ---------------------------------------------------------------- transactions

  function Enqueue(s: State, id: string, payload: Object, now: nat): State {
    s.(tasks := s.tasks[id := TaskRow(Pending, now, payload, None, None)],
       outbox := s.outbox + [TaskEvent("task.enqueued", id)])
  }

  /** A pending task that no pending task precedes; equal times leave the choice open. */
  predicate OldestPending(s: State, id: string) {
    && id in s.tasks && s.tasks[id].status.Pending?
    && forall j :: j in s.tasks && s.tasks[j].status.Pending? ==> s.tasks[id].createdAt <= s.tasks[j].createdAt
  }

  predicate NonePending(s: State) { forall j :: j in s.tasks ==> !s.tasks[j].status.Pending? }

  function Claim(s: State, id: string): State
    requires id in s.tasks
  {
    s.(tasks := s.tasks[id := s.tasks[id].(status := Running)])
  }

  function Complete(s: State, id: string, runId: string): State
    requires id in s.tasks
  {
    s.(tasks := s.tasks[id := s.tasks[id].(status := Succeeded, result := Some(runId), error := None)],
       outbox := s.outbox + [TaskEvent("task.completed", id)])
  }

  function Fail(s: State, id: string, error: string): State
    requires id in s.tasks
  {
    s.(tasks := s.tasks[id := s.tasks[id].(status := Failed, result := None, error := Some(error))],
       outbox := s.outbox + [TaskEvent("task.failed", id)])
  }

  /**
   * How the work on a well-formed task goes: the analysis raises, or it saves a run, or completing the task
   * raises after that.
   */
  datatype Outcome = Raises(message: string) | Saves(runId: string) | SavesThenRaises(runId: string, message: string)

  predicate WellFormed(payload: Object) { Field(payload, "events").List? && Field(payload, "input_meta").Obj? }

  const MALFORMED := "analysis task payload must include events and input_meta"

  /** The state after a claimed task has run. */
  function Work(s: State, id: string, outcome: Outcome): State
    requires id in s.tasks
  {
    if !WellFormed(s.tasks[id].payload) then Fail(s, id, MALFORMED)
    else
      match outcome
      case Raises(message) => Fail(s, id, message)
      case Saves(runId) => Complete(s.(runs := s.runs + {runId}), id, runId)
      case SavesThenRaises(runId, message) => Fail(s.(runs := s.runs + {runId}), id, message)
  }

  lemma {:induction false} OldestExists(s: State, id: string)
    requires id in s.tasks && s.tasks[id].status.Pending?
    ensures exists j :: OldestPending(s, j)
    decreases s.tasks[id].createdAt
  {
    if j :| j in s.tasks && s.tasks[j].status.Pending? && s.tasks[j].createdAt < s.tasks[id].createdAt {
      OldestExists(s, j);
    } else {
      assert OldestPending(s, id);
    }
  }

  class ServiceStore {
    var state: State

    constructor ()
      ensures state == State(map[], {}, [])
    {
      state := State(map[], {}, []);
    }

    /** False is the integrity error of a taken id; nothing changes then. */
    method EnqueueTask(id: string, payload: Object, now: nat) returns (ok: bool)
      modifies this
      ensures ok == (id !in old(state).tasks)
      ensures state == if ok then Enqueue(old(state), id, payload, now) else old(state)
    {
      ok := id !in state.tasks;
      if ok {
        var tasks := state.tasks[id := TaskRow(Pending, now, payload, None, None)];
        state := state.(tasks := tasks, outbox := state.outbox + [TaskEvent("task.enqueued", id)]);
      }
    }

    method ClaimNextTask() returns (claimed: Option<string>)
      modifies this
      ensures claimed.None? <==> NonePending(old(state))
      ensures claimed.None? ==> state == old(state)
      ensures claimed.Some? ==> OldestPending(old(state), claimed.value) && state == Claim(old(state), claimed.value)
    {
      if NonePending(state) {
        return None;
      }
      ghost var some :| some in state.tasks && state.tasks[some].status.Pending?;
      OldestExists(state, some);
      var id :| id in state.tasks.Keys && OldestPending(state, id);
      var row := state.tasks[id];
      state := state.(tasks := state.tasks[id := row.(status := Running)]);
      return Some(id);
    }

    method SaveRun(runId: string)
      modifies this
      ensures state == old(state).(runs := old(state).runs + {runId})
    {
      state := state.(runs := state.runs + {runId});
    }

    /** False is the KeyError of a task that does not exist; nothing changes then. */
    method CompleteTask(id: string, runId: string) returns (ok: bool)
      modifies this
      ensures ok == (id in old(state).tasks)
      ensures state == if id in old(state).tasks then Complete(old(state), id, runId) else old(state)
    {
      ok := id in state.tasks;
      if ok {
        var row := state.tasks[id].(status := Succeeded, result := Some(runId), error := None);
        state := state.(tasks := state.tasks[id := row], outbox := state.outbox + [TaskEvent("task.completed", id)]);
      }
    }

    method FailTask(id: string, error: string) returns (ok: bool)
      modifies this
      ensures ok == (id in old(state).tasks)
      ensures state == if id in old(state).tasks then Fail(old(state), id, error) else old(state)
    {
      ok := id in state.tasks;
      if ok {
        var row := state.tasks[id].(status := Failed, result := None, error := Some(error));
        state := state.(tasks := state.tasks[id := row], outbox := state.outbox + [TaskEvent("task.failed", id)]);
      }
    }
  }

  class TaskWorker {
    const store: ServiceStore

    constructor (store: ServiceStore)
      ensures this.store == store
    {
      this.store := store;
    }

    /** Run one claimed task; whatever goes wrong is recorded on the task. */
    method RunTask(id: string, outcome: Outcome)
      requires id in store.state.tasks
      modifies store
      ensures store.state == Work(old(store.state), id, outcome)
    {
      var payload := store.state.tasks[id].payload;
      if !WellFormed(payload) {
        var failed := store.FailTask(id, MALFORMED);
        return;
      }
      match outcome {
        case Raises(message) =>
          var failed := store.FailTask(id, message);
        case Saves(runId) =>
          store.SaveRun(runId);
          var completed := store.CompleteTask(id, runId);
        case SavesThenRaises(runId, message) =>
          store.SaveRun(runId);
          var failed := store.FailTask(id, message);
      }
    }

    /** Claim and run at most one task. */
    method DrainOnce(outcome: Outcome) returns (processed: nat)
      modifies store
      ensures processed == (if NonePending(old(store.state)) then 0 else 1)
      ensures processed == 0 ==> store.state == old(store.state)
      ensures processed == 1 ==>
        exists id :: OldestPending(old(store.state), id)
          && store.state == Work(Claim(old(store.state), id), id, outcome)
    {
      var claimed := store.ClaimNextTask();
      if claimed.None? {
        return 0;
      }
      RunTask(claimed.value, outcome);
      return 1;
    }
  }

  // ---------------------------------------------------------------- what every state keeps

  /** Results and errors agree with the status. */
  ghost predicate RowOk(row: TaskRow, runs: set<string>) {
    && (row.status.Succeeded? ==> row.result.Some? && row.result.value in runs && row.error.None?)
    && (row.status.Failed? ==> row.result.None? && row.error.Some?)
    && (!Terminal(row) ==> row.result.None? && row.error.None?)
  }

  function ClosingEvents(row: TaskRow, id: string): seq<OutboxRow> {
    if row.status.Succeeded? then [TaskEvent("task.completed", id)]
    else if row.status.Failed? then [TaskEvent("task.failed", id)]
    else []
  }

  /** What a task has announced: its arrival and, once terminal, its end; an unknown task has announced nothing. */
  function Expected(tasks: map<string, TaskRow>): string -> seq<OutboxRow> {
    (id: string) => if id in tasks then [TaskEvent("task.enqueued", id)] + ClosingEvents(tasks[id], id) else []
  }

  function TerminalIds(s: State): set<string> { set id | id in s.tasks && Terminal(s.tasks[id]) }

  ghost predicate TaskLedger(s: State) { Ledger(s.outbox, "task", Expected(s.tasks)) }

  ghost predicate RowsOk(s: State) { forall id :: id in s.tasks ==> RowOk(s.tasks[id], s.runs) }

  ghost predicate OutboxCount(s: State) { |s.outbox| == |s.tasks| + |TerminalIds(s)| }

  ghost predicate StoreInv(s: State) { RowsOk(s) && TaskLedger(s) && OutboxCount(s) }

  lemma LedgerEnqueued(s: State, id: string, payload: Object, now: nat)
    requires TaskLedger(s) && id !in s.tasks
    ensures TaskLedger(Enqueue(s, id, payload, now))
  {
    LedgerGrows(s.outbox, "task", Expected(s.tasks), TaskEvent("task.enqueued", id),
                Expected(Enqueue(s, id, payload, now).tasks));
  }

  lemma LedgerClaimed(s: State, id: string)
    requires TaskLedger(s) && id in s.tasks && s.tasks[id].status.Pending?
    ensures TaskLedger(Claim(s, id))
  {
    LedgerSame(s.outbox, "task", Expected(s.tasks), Expected(Claim(s, id).tasks));
  }

  lemma LedgerClosed(s: State, s': State, id: string, row: TaskRow)
    requires TaskLedger(s) && id in s.tasks && !Terminal(s.tasks[id]) && Terminal(row)
    requires s' == s.(tasks := s.tasks[id := row], outbox := s.outbox + ClosingEvents(row, id))
    ensures TaskLedger(s')
  {
    LedgerGrows(s.outbox, "task", Expected(s.tasks), ClosingEvents(row, id)[0], Expected(s'.tasks));
  }

  lemma EnqueueKeeps(s: State, id: string, payload: Object, now: nat)
    requires StoreInv(s) && id !in s.tasks
    ensures StoreInv(Enqueue(s, id, payload, now))
  {
    LedgerEnqueued(s, id, payload, now);
    CountEnqueued(s, id, payload, now);
  }

  lemma CountEnqueued(s: State, id: string, payload: Object, now: nat)
    requires OutboxCount(s) && id !in s.tasks
    ensures OutboxCount(Enqueue(s, id, payload, now))
  {
    var s' := Enqueue(s, id, payload, now);
    assert TerminalIds(s') == TerminalIds(s);
    assert s'.tasks.Keys == s.tasks.Keys + {id};
  }

  lemma ClaimKeeps(s: State, id: string)
    requires StoreInv(s) && id in s.tasks && s.tasks[id].status.Pending?
    ensures StoreInv(Claim(s, id))
  {
    LedgerClaimed(s, id);
    assert OutboxCount(Claim(s, id)) by {
      assert TerminalIds(Claim(s, id)) == TerminalIds(s);
      assert Claim(s, id).tasks.Keys == s.tasks.Keys;
    }
  }

  lemma SaveKeeps(s: State, runId: string)
    requires StoreInv(s)
    ensures StoreInv(s.(runs := s.runs + {runId}))
  {
    assert TerminalIds(s.(runs := s.runs + {runId})) == TerminalIds(s);
  }

  lemma CloseKeeps(s: State, s': State, id: string, row: TaskRow)
    requires StoreInv(s) && id in s.tasks && !Terminal(s.tasks[id]) && Terminal(row) && RowOk(row, s.runs)
    requires s' == s.(tasks := s.tasks[id := row], outbox := s.outbox + ClosingEvents(row, id))
    ensures StoreInv(s')
  {
    LedgerClosed(s, s', id, row);
    assert OutboxCount(s') by {
      assert TerminalIds(s') == TerminalIds(s) + {id};
      assert s'.tasks.Keys == s.tasks.Keys;
    }
  }

  /**
   * Running a claimed task keeps the store invariant and ends the task, even on malformed payloads and raised
   * errors.
   */
  lemma WorkKeeps(s: State, id: string, outcome: Outcome)
    requires StoreInv(s) && id in s.tasks && !Terminal(s.tasks[id])
    ensures StoreInv(Work(s, id, outcome)) && Terminal(Work(s, id, outcome).tasks[id])
    ensures outcome.Saves? && WellFormed(s.tasks[id].payload) <==> Work(s, id, outcome).tasks[id].status.Succeeded?
    ensures forall j :: j in s.tasks && j != id ==> Work(s, id, outcome).tasks[j] == s.tasks[j]
  {
    if WellFormed(s.tasks[id].payload) && !outcome.Raises? {
      SaveKeeps(s, outcome.runId);
      CloseKeeps(s.(runs := s.runs + {outcome.runId}), Work(s, id, outcome), id, Work(s, id, outcome).tasks[id]);
    } else {
      CloseKeeps(s, Work(s, id, outcome), id, Work(s, id, outcome).tasks[id]);
    }
  }

  function PendingIds(s: State): set<string> { set id | id in s.tasks && s.tasks[id].status.Pending? }

  /** What a drain leaves behind: no pending task, every task pending before is terminal, all others untouched. */
  ghost predicate Drained(before: State, after: State) {
    && NonePending(after) && after.tasks.Keys == before.tasks.Keys
    && forall id :: id in before.tasks ==>
         if before.tasks[id].status.Pending? then Terminal(after.tasks[id]) else after.tasks[id] == before.tasks[id]
  }

  /** Only task id changed, and it is terminal now. */
  ghost predicate Worked(s: State, after: State, id: string) {
    && after.tasks.Keys == s.tasks.Keys && id in s.tasks && Terminal(after.tasks[id])
    && forall j :: j in s.tasks && j != id ==> after.tasks[j] == s.tasks[j]
  }

  lemma ClaimAndWork(s: State, id: string, outcome: Outcome)
    requires StoreInv(s) && OldestPending(s, id)
    ensures StoreInv(Work(Claim(s, id), id, outcome)) && Worked(s, Work(Claim(s, id), id, outcome), id)
  {
    ClaimKeeps(s, id);
    WorkKeeps(Claim(s, id), id, outcome);
    ClaimTouches(s, id);
    WorkTouches(Claim(s, id), id, outcome);
  }

  lemma ClaimTouches(s: State, id: string)
    requires id in s.tasks
    ensures Claim(s, id).tasks.Keys == s.tasks.Keys
    ensures forall j :: j in s.tasks && j != id ==> Claim(s, id).tasks[j] == s.tasks[j]
  {
  }

  lemma WorkTouches(s: State, id: string, outcome: Outcome)
    requires id in s.tasks
    ensures Work(s, id, outcome).tasks.Keys == s.tasks.Keys
  {
  }

  /** Where a drain stands: some of the tasks pending at the start are already terminal. */
  ghost predicate Progress(start: State, s: State) {
    && s.tasks.Keys == start.tasks.Keys
    && forall id :: id in start.tasks ==>
         s.tasks[id] == start.tasks[id] || (start.tasks[id].status.Pending? && Terminal(s.tasks[id]))
  }

  lemma DrainStep(start: State, s: State, after: State, id: string)
    requires Progress(start, s) && Worked(s, after, id) && s.tasks[id].status.Pending?
    ensures Progress(start, after)
    ensures PendingIds(after) == PendingIds(s) - {id} && id in PendingIds(s)
  {
  }

  /** The drain loop: with nothing enqueued meanwhile it ends, one task at a time, with nothing pending. */
  method DrainQueue(worker: TaskWorker, outcomes: nat -> Outcome) returns (processed: nat)
    requires StoreInv(worker.store.state)
    modifies worker.store
    ensures StoreInv(worker.store.state)
    ensures Drained(old(worker.store.state), worker.store.state)
    ensures processed == |PendingIds(old(worker.store.state))|
  {
    ghost var start := worker.store.state;
    processed := 0;
    while true
      invariant StoreInv(worker.store.state) && Progress(start, worker.store.state)
      invariant processed + |PendingIds(worker.store.state)| == |PendingIds(start)|
      decreases |PendingIds(worker.store.state)|
    {
      ghost var before := worker.store.state;
      var once := worker.DrainOnce(outcomes(processed));
      if once == 0 {
        assert PendingIds(before) == {};
        return;
      }
      ghost var id :|
        OldestPending(before, id) && worker.store.state == Work(Claim(before, id), id, outcomes(processed));
      ClaimAndWork(before, id, outcomes(processed));
      DrainStep(start, before, worker.store.state, id);
      processed := processed + 1;
    }
  }
}
