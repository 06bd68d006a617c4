/** Threads of one LocalTaskRunner over one store, interleaved step by step (src/task_queue.py, LocalTaskRunner). */
module LocalRunner {
  import opened Prelude
  import opened TaskStore

  /**
   * Where a drain thread stands. The claim is a read followed by a write; saving a run precedes completing the
   * task.
   */
  datatype Pc =
    | Started
    | Reading
    | Selected(id: string)
    | Working(id: string)
    | Saved(id: string, runId: string)
    | Leaving
    | Gone

  /** claims is the history of claimed task ids. */
  datatype System = System(store: State, lock: Option<nat>, threads: map<nat, Pc>, claims: seq<string>)

  predicate InLoop(pc: Pc) { !pc.Started? && !pc.Gone? }

  function Move(a: System, t: nat, pc: Pc): System { a.(threads := a.threads[t := pc]) }

  ghost predicate At(a: System, t: nat, pc: Pc) { t in a.threads && a.threads[t] == pc }

  // ---------------------------------------------------------------- steps

  ghost predicate EnqueueStep(a: System, b: System) {
    exists id, payload, now :: id !in a.store.tasks && b == a.(store := Enqueue(a.store, id, payload, now))
  }

  ghost predicate SpawnStep(a: System, b: System, t: nat) { t !in a.threads && b == Move(a, t, Started) }

  /** The non-blocking acquire: a thread that finds the lock taken ends at once. */
  ghost predicate AcquireStep(a: System, b: System, t: nat) {
    At(a, t, Started) && b == if a.lock.None? then Move(a, t, Reading).(lock := Some(t)) else Move(a, t, Gone)
  }

  ghost predicate ReadStep(a: System, b: System, t: nat) {
    && At(a, t, Reading)
    && if NonePending(a.store) then b == Move(a, t, Leaving)
       else exists id :: OldestPending(a.store, id) && b == Move(a, t, Selected(id))
  }

  ghost predicate WriteStep(a: System, b: System, t: nat) {
    && t in a.threads && a.threads[t].Selected? && a.threads[t].id in a.store.tasks
    && var id := a.threads[t].id;
       b == Move(a, t, Working(id)).(store := Claim(a.store, id), claims := a.claims + [id])
  }

  /** A malformed payload or a raised error fails the task; otherwise the analysis saves its run. */
  ghost predicate WorkStep(a: System, b: System, t: nat) {
    && t in a.threads && a.threads[t].Working? && a.threads[t].id in a.store.tasks
    && var id := a.threads[t].id;
       || (exists error :: b == Move(a, t, Reading).(store := Fail(a.store, id, error)))
       || (WellFormed(a.store.tasks[id].payload)
           && exists runId :: b == Move(a, t, Saved(id, runId)).(store := a.store.(runs := a.store.runs + {runId})))
  }

  /** The saved run completes its task, unless that raises, which fails the task. */
  ghost predicate CompleteStep(a: System, b: System, t: nat) {
    && t in a.threads && a.threads[t].Saved? && a.threads[t].id in a.store.tasks
    && var id := a.threads[t].id;
       || b == Move(a, t, Reading).(store := Complete(a.store, id, a.threads[t].runId))
       || (exists error :: b == Move(a, t, Reading).(store := Fail(a.store, id, error)))
  }

  ghost predicate ReleaseStep(a: System, b: System, t: nat) {
    At(a, t, Leaving) && b == Move(a, t, Gone).(lock := None)
  }

  ghost predicate ThreadStep(a: System, b: System, t: nat) {
    || SpawnStep(a, b, t) || AcquireStep(a, b, t) || ReadStep(a, b, t) || WriteStep(a, b, t)
    || WorkStep(a, b, t) || CompleteStep(a, b, t) || ReleaseStep(a, b, t)
  }

  ghost predicate Next(a: System, b: System) { EnqueueStep(a, b) || exists t :: ThreadStep(a, b, t) }

  ghost predicate Trace(states: seq<System>) {
    && states != [] && states[0] == System(State(map[], {}, []), None, map[], [])
    && forall i :: 0 <= i < |states| - 1 ==> Next(states[i], states[i + 1])
  }

  // ---------------------------------------------------------------- invariant

  /** Only the lock holder is inside the drain loop. */
  ghost predicate LockInv(a: System) {
    && (forall t :: t in a.threads && InLoop(a.threads[t]) ==> a.lock == Some(t))
    && (a.lock.Some? ==> a.lock.value in a.threads && InLoop(a.threads[a.lock.value]))
  }

  /** The task a thread is busy with has the status that its position implies. */
  ghost predicate BusyInv(a: System) {
    forall t :: t in a.threads ==>
      match a.threads[t]
      case Selected(id) => id in a.store.tasks && a.store.tasks[id].status.Pending?
      case Working(id) => id in a.store.tasks && a.store.tasks[id].status.Running?
      case Saved(id, runId) => id in a.store.tasks && a.store.tasks[id].status.Running? && runId in a.store.runs
      case _ => true
  }

  ghost predicate WorksOn(pc: Pc, id: string) { (pc.Working? || pc.Saved?) && pc.id == id }

  /** A running task is the one its lock holder works on. */
  ghost predicate RunningInv(a: System) {
    forall id :: id in a.store.tasks && a.store.tasks[id].status.Running? ==>
      a.lock.Some? && a.lock.value in a.threads && WorksOn(a.threads[a.lock.value], id)
  }

  /** Claims are without repetition and are exactly the tasks that have left the pending state. */
  ghost predicate ClaimsInv(a: System) {
    && Distinct(a.claims)
    && forall id :: id in a.claims <==> id in a.store.tasks && !a.store.tasks[id].status.Pending?
  }

  ghost predicate Inv(a: System) { LockInv(a) && BusyInv(a) && RunningInv(a) && ClaimsInv(a) && StoreInv(a.store) }

  lemma EnqueueKeepsInv(a: System, b: System)
    requires Inv(a) && EnqueueStep(a, b)
    ensures Inv(b)
  {
    var id, payload, now :| id !in a.store.tasks && b == a.(store := Enqueue(a.store, id, payload, now));
    EnqueueKeeps(a.store, id, payload, now);
    NewPending(a, b, id);
  }

  /** One more pending task disturbs no thread and no claim. */
  lemma NewPending(a: System, b: System, id: string)
    requires LockInv(a) && BusyInv(a) && RunningInv(a) && ClaimsInv(a) && id !in a.store.tasks
    requires b == a.(store := b.store) && b.store.runs == a.store.runs && id in b.store.tasks
    requires b.store.tasks == a.store.tasks[id := b.store.tasks[id]] && b.store.tasks[id].status.Pending?
    ensures LockInv(b) && BusyInv(b) && RunningInv(b) && ClaimsInv(b)
  {
  }

  lemma WriteKeepsInv(a: System, b: System, t: nat)
    requires Inv(a) && WriteStep(a, b, t)
    ensures Inv(b)
  {
    var id := a.threads[t].id;
    ClaimKeeps(a.store, id);
    assert id !in a.claims;
  }

  lemma WorkKeepsInv(a: System, b: System, t: nat)
    requires Inv(a) && WorkStep(a, b, t)
    ensures Inv(b)
  {
    var id := a.threads[t].id;
    assert !Terminal(a.store.tasks[id]);
    if error :| b == Move(a, t, Reading).(store := Fail(a.store, id, error)) {
      CloseKeeps(a.store, b.store, id, b.store.tasks[id]);
    } else {
      var runId :| b == Move(a, t, Saved(id, runId)).(store := a.store.(runs := a.store.runs + {runId}));
      SaveKeeps(a.store, runId);
    }
  }

  lemma CompleteKeepsInv(a: System, b: System, t: nat)
    requires Inv(a) && CompleteStep(a, b, t)
    ensures Inv(b)
  {
    CloseKeeps(a.store, b.store, a.threads[t].id, b.store.tasks[a.threads[t].id]);
  }

  lemma ControlKeepsInv(a: System, b: System, t: nat)
    requires Inv(a) && (SpawnStep(a, b, t) || AcquireStep(a, b, t) || ReleaseStep(a, b, t))
    ensures Inv(b)
  {
    assert b.store == a.store && b.claims == a.claims;
    assert forall u :: u in a.threads && u != t ==> u in b.threads && b.threads[u] == a.threads[u];
  }

  lemma ReadKeepsInv(a: System, b: System, t: nat)
    requires Inv(a) && ReadStep(a, b, t)
    ensures Inv(b)
  {
    assert b.store == a.store && b.claims == a.claims && b.lock == a.lock;
  }

  lemma NextKeepsInv(a: System, b: System)
    requires Inv(a) && Next(a, b)
    ensures Inv(b)
  {
    if EnqueueStep(a, b) {
      EnqueueKeepsInv(a, b);
    } else {
      var t :| ThreadStep(a, b, t);
      if WriteStep(a, b, t) {
        WriteKeepsInv(a, b, t);
      } else if WorkStep(a, b, t) {
        WorkKeepsInv(a, b, t);
      } else if CompleteStep(a, b, t) {
        CompleteKeepsInv(a, b, t);
      } else if ReadStep(a, b, t) {
        ReadKeepsInv(a, b, t);
      } else {
        ControlKeepsInv(a, b, t);
      }
    }
  }

  lemma {:induction false} TraceInv(states: seq<System>, i: nat)
    requires Trace(states) && i < |states|
    ensures Inv(states[i])
  {
    if i > 0 {
      TraceInv(states, i - 1);
      NextKeepsInv(states[i - 1], states[i]);
    }
  }

  // ---------------------------------------------------------------- safety

  /** At most one thread drains, at most one task runs, no task is claimed twice, and rows and outbox agree. */
  lemma InterleavingSafety(states: seq<System>, i: nat)
    requires Trace(states) && i < |states|
    ensures var a := states[i];
      && (forall t, u :: t in a.threads && u in a.threads && InLoop(a.threads[t]) && InLoop(a.threads[u]) ==> t == u)
      && (forall x, y :: x in a.store.tasks && y in a.store.tasks
            && a.store.tasks[x].status.Running? && a.store.tasks[y].status.Running?
            ==> x == y)
      && Distinct(a.claims)
      && StoreInv(a.store)
  {
    TraceInv(states, i);
  }

  /** pending, then running, then terminal for good. */
  ghost predicate Forward(row: TaskRow, row': TaskRow) {
    || row' == row
    || (row.status.Pending? && !row'.status.Pending?)
    || (row.status.Running? && Terminal(row'))
  }

  /** What one step of the system may do to a task: claim it, end it, or leave it alone. */
  ghost predicate OneStep(row: TaskRow, row': TaskRow) {
    || row' == row
    || (row.status.Pending? && row'.status.Running?)
    || (row.status.Running? && Terminal(row'))
  }

  lemma ForwardTransitive(r1: TaskRow, r2: TaskRow, r3: TaskRow)
    requires Forward(r1, r2) && Forward(r2, r3)
    ensures Forward(r1, r3)
  {
  }

  lemma EnqueueForward(a: System, b: System, id: string)
    requires EnqueueStep(a, b) && id in a.store.tasks
    ensures id in b.store.tasks && b.store.tasks[id] == a.store.tasks[id]
  {
  }

  /** A step of a thread changes at most the task it is busy with, and that one by one step. */
  lemma ThreadForward(a: System, b: System, t: nat, id: string)
    requires BusyInv(a) && ThreadStep(a, b, t) && id in a.store.tasks
    ensures id in b.store.tasks && OneStep(a.store.tasks[id], b.store.tasks[id])
  {
    if WriteStep(a, b, t) {
      assert a.store.tasks[a.threads[t].id].status.Pending?;
    } else if WorkStep(a, b, t) || CompleteStep(a, b, t) {
      assert a.store.tasks[a.threads[t].id].status.Running?;
    } else {
      assert b.store == a.store;
    }
  }

  lemma NextForward(a: System, b: System, id: string)
    requires Inv(a) && Next(a, b) && id in a.store.tasks
    ensures id in b.store.tasks && OneStep(a.store.tasks[id], b.store.tasks[id])
  {
    if EnqueueStep(a, b) {
      EnqueueForward(a, b, id);
    } else {
      var t :| ThreadStep(a, b, t);
      ThreadForward(a, b, t, id);
    }
  }

  /** From one state of a run to the next a task is claimed, ended, or left alone; it never skips running. */
  lemma StepForward(states: seq<System>, k: nat, id: string)
    requires Trace(states) && k + 1 < |states| && id in states[k].store.tasks
    ensures id in states[k + 1].store.tasks && OneStep(states[k].store.tasks[id], states[k + 1].store.tasks[id])
  {
    TraceInv(states, k);
    NextForward(states[k], states[k + 1], id);
  }

  /** Over any stretch of a run a task only moves forward, and a terminal row never changes again. */
  lemma {:induction false} StatusForward(states: seq<System>, i: nat, j: nat, id: string)
    requires Trace(states) && i <= j < |states| && id in states[i].store.tasks
    ensures id in states[j].store.tasks && Forward(states[i].store.tasks[id], states[j].store.tasks[id])
    decreases j
  {
    if i < j {
      StatusForward(states, i, j - 1, id);
      StepForward(states, j - 1, id);
      ForwardTransitive(states[i].store.tasks[id], states[j - 1].store.tasks[id], states[j].store.tasks[id]);
    }
  }

  /** When a drainer leaves on an empty read, every task enqueued before is terminal, and stays so. */
  lemma LeavingMeansDone(states: seq<System>, i: nat, j: nat, t: nat, id: string)
    requires Trace(states) && i < j < |states|
    requires At(states[i], t, Reading) && At(states[i + 1], t, Leaving)
    requires ReadStep(states[i], states[i + 1], t)
    requires id in states[i].store.tasks
    ensures id in states[j].store.tasks && Terminal(states[j].store.tasks[id])
    ensures states[j].store.tasks[id] == states[i].store.tasks[id]
  {
    TraceInv(states, i);
    assert NonePending(states[i].store);
    assert states[i].lock == Some(t);
    assert Terminal(states[i].store.tasks[id]);
    StatusForward(states, i, j, id);
  }
}
