/** Celery analysis jobs: the store transactions, one delivery, and publisher/worker interleavings
    (src/service_analysis_jobs.py, src/task_queue.py, src/celery_tasks.py). */
module AnalysisJobs {
  import opened Prelude
  import opened Outbox

  datatype JobStatus = Pending | Running | Succeeded | Failed

  /** result and runId both hold the run id of a completed job. */
  datatype JobRow = JobRow(
    celeryTaskId: string, status: JobStatus, runId: Option<string>, result: Option<string>, error: Option<string>)

  datatype Store = Store(jobs: map<string, JobRow>, runs: set<string>, outbox: seq<OutboxRow>)

  predicate Terminal(row: JobRow) { row.status.Succeeded? || row.status.Failed? }

  function JobEvent(kind: string, job: string): OutboxRow { OutboxRow(kind, "analysis_job", job) }

  // ---------------------------------------------------------------- transactions

  function Create(s: Store, job: string, celeryTaskId: string): Store {
    s.(jobs := s.jobs[job := JobRow(celeryTaskId, Pending, None, None, None)],
       outbox := s.outbox + [JobEvent("analysis_job.queued", job)])
  }

  function SetTaskId(s: Store, job: string, celeryTaskId: string): Store
    requires job in s.jobs
  {
    s.(jobs := s.jobs[job := s.jobs[job].(celeryTaskId := celeryTaskId)])
  }

  function Start(s: Store, job: string): Store
    requires job in s.jobs
  {
    s.(jobs := s.jobs[job := s.jobs[job].(status := Running)])
  }

  function Complete(s: Store, job: string, runId: string): Store
    requires job in s.jobs
  {
    var row := s.jobs[job].(status := Succeeded, runId := Some(runId), result := Some(runId), error := None);
    s.(jobs := s.jobs[job := row],
       outbox := s.outbox + [JobEvent("analysis_job.completed", job)])
  }

  function Fail(s: Store, job: string, error: string): Store
    requires job in s.jobs
  {
    s.(jobs := s.jobs[job := s.jobs[job].(status := Failed, result := None, error := Some(error))],
       outbox := s.outbox + [JobEvent("analysis_job.failed", job)])
  }

  /** Lookup by primary key first, then by the broker's task id. */
  ghost predicate Finds(s: Store, taskId: string, job: string) {
    if taskId in s.jobs then job == taskId else job in s.jobs && s.jobs[job].celeryTaskId == taskId
  }

  /** The unique constraint on the broker's id: some other job has it already. */
  predicate BrokerTaken(s: Store, job: string, celeryTaskId: string) {
    exists other :: other in s.jobs && other != job && s.jobs[other].celeryTaskId == celeryTaskId
  }

  class JobStore {
    var state: Store

    constructor ()
      ensures state == Store(map[], {}, [])
    {
      state := Store(map[], {}, []);
    }

    /** False is the integrity error of a taken job or broker id; nothing changes then. */
    method CreateAnalysisJob(job: string, celeryTaskId: string) returns (ok: bool)
      modifies this
      ensures ok == (job !in old(state).jobs && !BrokerTaken(old(state), job, celeryTaskId))
      ensures state == if ok then Create(old(state), job, celeryTaskId) else old(state)
    {
      ok := job !in state.jobs && !BrokerTaken(state, job, celeryTaskId);
      if ok {
        var row := JobRow(celeryTaskId, Pending, None, None, None);
        state := state.(jobs := state.jobs[job := row],
                        outbox := state.outbox + [JobEvent("analysis_job.queued", job)]);
      }
    }

    /** False is the KeyError of an unknown job or the integrity error of a taken broker id; nothing changes then. */
    method SetAnalysisJobTaskId(job: string, celeryTaskId: string) returns (ok: bool)
      modifies this
      ensures ok == (job in old(state).jobs && !BrokerTaken(old(state), job, celeryTaskId))
      ensures state == if ok then SetTaskId(old(state), job, celeryTaskId) else old(state)
    {
      ok := job in state.jobs && !BrokerTaken(state, job, celeryTaskId);
      if ok {
        state := state.(jobs := state.jobs[job := state.jobs[job].(celeryTaskId := celeryTaskId)]);
      }
    }

    /** False, here and below, is the KeyError of an unknown job; nothing changes then. */
    method StartAnalysisJob(job: string) returns (ok: bool)
      modifies this
      ensures ok == (job in old(state).jobs)
      ensures state == if job in old(state).jobs then Start(old(state), job) else old(state)
    {
      ok := job in state.jobs;
      if ok {
        state := state.(jobs := state.jobs[job := state.jobs[job].(status := Running)]);
      }
    }

    method SaveRun(runId: string)
      modifies this
      ensures state == old(state).(runs := old(state).runs + {runId})
    {
      state := state.(runs := state.runs + {runId});
    }

    method CompleteAnalysisJob(job: string, runId: string) returns (ok: bool)
      modifies this
      ensures ok == (job in old(state).jobs)
      ensures state == if job in old(state).jobs then Complete(old(state), job, runId) else old(state)
    {
      ok := job in state.jobs;
      if ok {
        var row := state.jobs[job].(status := Succeeded, runId := Some(runId), result := Some(runId), error := None);
        state := state.(jobs := state.jobs[job := row],
                        outbox := state.outbox + [JobEvent("analysis_job.completed", job)]);
      }
    }

    method FailAnalysisJob(job: string, error: string) returns (ok: bool)
      modifies this
      ensures ok == (job in old(state).jobs)
      ensures state == if job in old(state).jobs then Fail(old(state), job, error) else old(state)
    {
      ok := job in state.jobs;
      if ok {
        var row := state.jobs[job].(status := Failed, result := None, error := Some(error));
        state := state.(jobs := state.jobs[job := row],
                        outbox := state.outbox + [JobEvent("analysis_job.failed", job)]);
      }
    }
  }

  /**
   * How the work inside a delivery goes: the analysis raises, or it saves a run, or completing the job raises
   * after that.
   */
  datatype Outcome = Raises(message: string) | Saves(runId: string) | SavesThenRaises(runId: string, message: string)

  /** A delivery that saves returns the run id; any other raises. */
  datatype TaskEnd = Returned(runId: string) | Raised

  function WithRun(s: Store, runId: string): Store { s.(runs := s.runs + {runId}) }

  /**
   * The store after one delivery. Without a job id only the run is saved; an unknown job id raises before anything is
   * done, and again when the failure is to be recorded.
   */
  function Deliver(s: Store, job: Option<string>, outcome: Outcome): Store {
    if job.None? then (if outcome.Raises? then s else WithRun(s, outcome.runId))
    else if job.value !in s.jobs then s
    else
      var started := Start(s, job.value);
      match outcome
      case Raises(message) => Fail(started, job.value, message)
      case Saves(runId) => Complete(WithRun(started, runId), job.value, runId)
      case SavesThenRaises(runId, message) => Fail(WithRun(started, runId), job.value, message)
  }

  /** One delivery: start the job, analyse, then complete it, or fail it on any exception. */
  method RunAnalysisTask(store: JobStore, job: Option<string>, outcome: Outcome) returns (end: TaskEnd)
    modifies store
    ensures store.state == Deliver(old(store.state), job, outcome)
    ensures end.Returned? <==>
      (job.Some? ==> job.value in old(store.state).jobs) && (outcome.Saves? || (job.None? && outcome.SavesThenRaises?))
    ensures end.Returned? ==> end.runId in store.state.runs
  {
    if job.Some? {
      var started := store.StartAnalysisJob(job.value);
      if !started {
        var failed := store.FailAnalysisJob(job.value, "KeyError");
        return Raised;
      }
    }
    if outcome.Raises? {
      if job.Some? {
        var failed := store.FailAnalysisJob(job.value, outcome.message);
      }
      return Raised;
    }
    store.SaveRun(outcome.runId);
    if job.Some? {
      if outcome.SavesThenRaises? {
        var failed := store.FailAnalysisJob(job.value, outcome.message);
        return Raised;
      }
      var completed := store.CompleteAnalysisJob(job.value, outcome.runId);
    }
    return Returned(outcome.runId);
  }

  // ---------------------------------------------------------------- publishers and deliveries, interleaved

  /** Publisher: the job row exists; the message is sent and the broker answered with an id; the id is stored. */
  datatype Publisher = Created | Sent(broker: string) | Published(broker: string)

  /** Worker: the one delivery of a sent job. */
  datatype Delivery = Waiting | Started | Saved(runId: string) | Finished

  datatype System = System(store: Store, publishers: map<string, Publisher>, deliveries: map<string, Delivery>)

  /** Ids in use by the system: job ids, and ids the broker has handed out. */
  ghost predicate IdUsed(a: System, id: string) {
    id in a.publishers || exists j :: j in a.publishers && !a.publishers[j].Created? && a.publishers[j].broker == id
  }

  ghost predicate CreateStep(a: System, b: System, job: string) {
    && !IdUsed(a, job)
    && b == a.(store := Create(a.store, job, job), publishers := a.publishers[job := Created])
  }

  /** The broker accepts the message under the job id itself or under an id of its own. */
  ghost predicate SendStep(a: System, b: System, job: string) {
    && job in a.publishers && a.publishers[job].Created?
    && exists broker :: (broker == job || !IdUsed(a, broker))
         && b == a.(publishers := a.publishers[job := Sent(broker)], deliveries := a.deliveries[job := Waiting])
  }

  ghost predicate SetIdStep(a: System, b: System, job: string) {
    && job in a.publishers && a.publishers[job].Sent? && job in a.store.jobs
    && var broker := a.publishers[job].broker;
       b == a.(publishers := a.publishers[job := Published(broker)],
               store := if broker != job then SetTaskId(a.store, job, broker) else a.store)
  }

  ghost predicate StartStep(a: System, b: System, job: string) {
    && job in a.deliveries && a.deliveries[job].Waiting? && job in a.store.jobs
    && b == a.(store := Start(a.store, job), deliveries := a.deliveries[job := Started])
  }

  ghost predicate SaveStep(a: System, b: System, job: string) {
    && job in a.deliveries && a.deliveries[job].Started?
    && exists runId :: b == a.(store := a.store.(runs := a.store.runs + {runId}),
                               deliveries := a.deliveries[job := Saved(runId)])
  }

  ghost predicate CompleteStep(a: System, b: System, job: string) {
    && job in a.deliveries && a.deliveries[job].Saved? && job in a.store.jobs
    && b == a.(store := Complete(a.store, job, a.deliveries[job].runId), deliveries := a.deliveries[job := Finished])
  }

  /** An exception anywhere before the completion commits. */
  ghost predicate FailStep(a: System, b: System, job: string) {
    && job in a.deliveries && !a.deliveries[job].Finished? && job in a.store.jobs
    && exists error :: b == a.(store := Fail(a.store, job, error), deliveries := a.deliveries[job := Finished])
  }

  ghost predicate JobStep(a: System, b: System, job: string) {
    || CreateStep(a, b, job) || SendStep(a, b, job) || SetIdStep(a, b, job) || StartStep(a, b, job)
    || SaveStep(a, b, job) || CompleteStep(a, b, job) || FailStep(a, b, job)
  }

  ghost predicate Next(a: System, b: System) { exists job :: JobStep(a, b, job) }

  ghost predicate Trace(states: seq<System>) {
    && states != [] && states[0] == System(Store(map[], {}, []), map[], map[])
    && forall i :: 0 <= i < |states| - 1 ==> Next(states[i], states[i + 1])
  }

  // ---------------------------------------------------------------- invariant

  function Ending(row: JobRow, job: string): seq<OutboxRow> {
    if row.status.Succeeded? then [JobEvent("analysis_job.completed", job)]
    else if row.status.Failed? then [JobEvent("analysis_job.failed", job)]
    else []
  }

  /** What a job has announced: its queueing, then at most one ending; an unknown job has announced nothing. */
  function Expected(jobs: map<string, JobRow>): string -> seq<OutboxRow> {
    (job: string) => if job !in jobs then [] else [JobEvent("analysis_job.queued", job)] + Ending(jobs[job], job)
  }

  ghost predicate JobLedger(s: Store) { Ledger(s.outbox, "analysis_job", Expected(s.jobs)) }

  ghost predicate RowOk(row: JobRow, runs: set<string>) {
    && (row.status.Succeeded? ==>
          row.runId.Some? && row.runId.value in runs && row.result == row.runId && row.error.None?)
    && (row.status.Failed? ==> row.result.None? && row.error.Some? && row.runId.None?)
    && (!Terminal(row) ==> row.runId.None? && row.result.None? && row.error.None?)
  }

  /** Status and delivery agree: pending until started, terminal exactly when the delivery has finished. */
  ghost predicate InStep(row: JobRow, delivery: Option<Delivery>) {
    match delivery
    case None => row.status.Pending?
    case Some(Waiting) => row.status.Pending?
    case Some(Started) => row.status.Running?
    case Some(Saved(_)) => row.status.Running?
    case Some(Finished) => Terminal(row)
  }

  function DeliveryOf(a: System, job: string): Option<Delivery> {
    if job in a.deliveries then Some(a.deliveries[job]) else None
  }

  ghost predicate JobInv(a: System, job: string) {
    && job in a.store.jobs && job in a.publishers
    && RowOk(a.store.jobs[job], a.store.runs) && InStep(a.store.jobs[job], DeliveryOf(a, job))
    && (DeliveryOf(a, job).Some? ==> !a.publishers[job].Created?)
    && (job in a.deliveries && a.deliveries[job].Saved? ==> a.deliveries[job].runId in a.store.runs)
    && a.store.jobs[job].celeryTaskId == (if a.publishers[job].Published? then a.publishers[job].broker else job)
    && (!a.publishers[job].Created? ==> a.publishers[job].broker == job || a.publishers[job].broker !in a.publishers)
  }

  /** Broker ids of different jobs differ. */
  ghost predicate BrokersDiffer(a: System) {
    forall i, j ::
      i in a.publishers && j in a.publishers && i != j && !a.publishers[i].Created? && !a.publishers[j].Created? ==>
        a.publishers[i].broker != a.publishers[j].broker
  }

  ghost predicate Inv(a: System) {
    && a.store.jobs.Keys == a.publishers.Keys && a.deliveries.Keys <= a.publishers.Keys
    && (forall job :: job in a.publishers ==> JobInv(a, job))
    && BrokersDiffer(a)
    && JobLedger(a.store)
  }

  lemma LedgerQueued(s: Store, job: string, celeryTaskId: string)
    requires JobLedger(s) && job !in s.jobs
    ensures JobLedger(Create(s, job, celeryTaskId))
  {
    LedgerGrows(s.outbox, "analysis_job", Expected(s.jobs), JobEvent("analysis_job.queued", job),
                Expected(Create(s, job, celeryTaskId).jobs));
  }

  lemma LedgerUnchanged(s: Store, s': Store, job: string)
    requires JobLedger(s) && s'.outbox == s.outbox && job in s.jobs && job in s'.jobs
    requires s'.jobs == s.jobs[job := s'.jobs[job]] && Ending(s'.jobs[job], job) == Ending(s.jobs[job], job)
    ensures JobLedger(s')
  {
    LedgerSame(s.outbox, "analysis_job", Expected(s.jobs), Expected(s'.jobs));
  }

  lemma LedgerEnded(s: Store, s': Store, job: string)
    requires JobLedger(s) && job in s.jobs && job in s'.jobs && !Terminal(s.jobs[job]) && Terminal(s'.jobs[job])
    requires s'.jobs == s.jobs[job := s'.jobs[job]] && s'.outbox == s.outbox + Ending(s'.jobs[job], job)
    ensures JobLedger(s')
  {
    LedgerGrows(s.outbox, "analysis_job", Expected(s.jobs), Ending(s'.jobs[job], job)[0], Expected(s'.jobs));
  }

  lemma CreateKeepsInv(a: System, b: System, job: string)
    requires Inv(a) && CreateStep(a, b, job)
    ensures Inv(b)
  {
    LedgerQueued(a.store, job, job);
    forall j | j in b.publishers
      ensures JobInv(b, j)
    {
      if j != job {
        assert JobInv(a, j);
      }
    }
  }

  lemma SendKeepsInv(a: System, b: System, job: string)
    requires Inv(a) && SendStep(a, b, job)
    ensures Inv(b)
  {
    assert JobInv(a, job);
    forall j | j in b.publishers
      ensures JobInv(b, j)
    {
      assert JobInv(a, j);
    }
  }

  lemma SetIdKeepsInv(a: System, b: System, job: string)
    requires Inv(a) && SetIdStep(a, b, job)
    ensures Inv(b)
  {
    LedgerUnchanged(a.store, b.store, job);
    assert JobInv(a, job);
    forall j | j in b.publishers
      ensures JobInv(b, j)
    {
      assert JobInv(a, j);
    }
  }

  lemma StartKeepsInv(a: System, b: System, job: string)
    requires Inv(a) && StartStep(a, b, job)
    ensures Inv(b)
  {
    assert JobInv(a, job);
    LedgerUnchanged(a.store, b.store, job);
    forall j | j in b.publishers
      ensures JobInv(b, j)
    {
      assert JobInv(a, j);
    }
  }

  lemma SaveKeepsInv(a: System, b: System, job: string)
    requires Inv(a) && SaveStep(a, b, job)
    ensures Inv(b)
  {
    assert JobInv(a, job);
    forall j | j in b.publishers
      ensures JobInv(b, j)
    {
      assert JobInv(a, j);
    }
  }

  lemma CompleteKeepsInv(a: System, b: System, job: string)
    requires Inv(a) && CompleteStep(a, b, job)
    ensures Inv(b)
  {
    assert JobInv(a, job);
    LedgerEnded(a.store, b.store, job);
    forall j | j in b.publishers
      ensures JobInv(b, j)
    {
      assert JobInv(a, j);
    }
  }

  lemma FailKeepsInv(a: System, b: System, job: string)
    requires Inv(a) && FailStep(a, b, job)
    ensures Inv(b)
  {
    assert JobInv(a, job);
    LedgerEnded(a.store, b.store, job);
    forall j | j in b.publishers
      ensures JobInv(b, j)
    {
      assert JobInv(a, j);
    }
  }

  lemma StepKeepsInv(a: System, b: System, job: string)
    requires Inv(a) && JobStep(a, b, job)
    ensures Inv(b)
  {
    if CreateStep(a, b, job) {
      CreateKeepsInv(a, b, job);
    } else if SendStep(a, b, job) {
      SendKeepsInv(a, b, job);
    } else if SetIdStep(a, b, job) {
      SetIdKeepsInv(a, b, job);
    } else if StartStep(a, b, job) {
      StartKeepsInv(a, b, job);
    } else if SaveStep(a, b, job) {
      SaveKeepsInv(a, b, job);
    } else if CompleteStep(a, b, job) {
      CompleteKeepsInv(a, b, job);
    } else {
      FailKeepsInv(a, b, job);
    }
  }

  lemma {:induction false} TraceInv(states: seq<System>, i: nat)
    requires Trace(states) && i < |states|
    ensures Inv(states[i])
  {
    if i > 0 {
      TraceInv(states, i - 1);
      var a, b := states[i - 1], states[i];
      assert Next(a, b);
      var job :| JobStep(a, b, job);
      StepKeepsInv(a, b, job);
    }
  }

  // ---------------------------------------------------------------- the protocol's promises

  /** Broker ids of the stored rows differ. */
  ghost predicate BrokersUnique(s: Store) {
    forall job :: job in s.jobs ==> !BrokerTaken(s, job, s.jobs[job].celeryTaskId)
  }

  lemma RowBroker(a: System, job: string, other: string)
    requires Inv(a) && job in a.publishers && other in a.publishers && job != other
    ensures a.store.jobs[other].celeryTaskId != a.store.jobs[job].celeryTaskId
    ensures a.publishers[job].Sent? ==> a.store.jobs[other].celeryTaskId != a.publishers[job].broker
  {
    assert JobInv(a, job) && JobInv(a, other);
  }

  /** The unique constraint never fires: a step that writes a broker id finds it free, and stored ones stay unique. */
  lemma BrokerIdsFree(states: seq<System>, i: nat, job: string)
    requires Trace(states) && i < |states|
    ensures BrokersUnique(states[i].store)
    ensures i + 1 < |states| && CreateStep(states[i], states[i + 1], job) ==> !BrokerTaken(states[i].store, job, job)
    ensures i + 1 < |states| && SetIdStep(states[i], states[i + 1], job) ==>
      !BrokerTaken(states[i].store, job, states[i].publishers[job].broker)
  {
    TraceInv(states, i);
    var a := states[i];
    forall j, other | j in a.store.jobs && other in a.store.jobs && other != j
      ensures a.store.jobs[other].celeryTaskId != a.store.jobs[j].celeryTaskId
      ensures a.publishers[j].Sent? ==> a.store.jobs[other].celeryTaskId != a.publishers[j].broker
    {
      RowBroker(a, j, other);
    }
    if i + 1 < |states| && CreateStep(a, states[i + 1], job) {
      NewJobFree(a, job);
    }
  }

  lemma NewJobFree(a: System, job: string)
    requires Inv(a) && !IdUsed(a, job)
    ensures !BrokerTaken(a.store, job, job)
  {
    forall other | other in a.store.jobs
      ensures a.store.jobs[other].celeryTaskId != job
    {
      assert JobInv(a, other);
    }
  }

  ghost predicate FoundOnlyAs(s: Store, id: string, job: string) {
    forall found :: Finds(s, id, found) <==> found == job
  }

  /** What a reader of the store can rely on about one job. */
  ghost predicate Promises(a: System, job: string) {
    && job in a.publishers && job in a.store.jobs
    && FoundOnlyAs(a.store, job, job)
    && (a.publishers[job].Published? ==> FoundOnlyAs(a.store, a.publishers[job].broker, job))
    && LedgerAt(a.store.outbox, "analysis_job", Expected(a.store.jobs), job)
    && RowOk(a.store.jobs[job], a.store.runs)
    && (Terminal(a.store.jobs[job]) <==> job in a.deliveries && a.deliveries[job].Finished?)
  }

  lemma BrokerFinds(a: System, job: string)
    requires Inv(a) && job in a.publishers && a.publishers[job].Published?
    ensures FoundOnlyAs(a.store, a.publishers[job].broker, job)
  {
    var broker := a.publishers[job].broker;
    assert JobInv(a, job);
    forall found
      ensures Finds(a.store, broker, found) <==> found == job
    {
      if found in a.store.jobs {
        assert JobInv(a, found);
      }
    }
  }

  /**
   * However publisher and worker interleave: a job is found by its own id alone, and by the broker's id once that is
   * stored; the outbox tells queued and then at most one ending; a succeeded job names a run that exists.
   */
  lemma JobProtocol(states: seq<System>, i: nat, job: string)
    requires Trace(states) && i < |states| && job in states[i].publishers
    ensures Promises(states[i], job)
  {
    TraceInv(states, i);
    var a := states[i];
    assert JobInv(a, job);
    if a.publishers[job].Published? {
      BrokerFinds(a, job);
    }
  }

  ghost predicate SameOutcome(r: JobRow, r': JobRow) {
    r'.status == r.status && r'.runId == r.runId && r'.result == r.result && r'.error == r.error
  }

  /** Storing the broker id disturbs no outcome, and neither does any step once a job is terminal. */
  lemma StepOutcome(a: System, b: System, step: string, job: string)
    requires Inv(a) && JobStep(a, b, step) && job in a.store.jobs
    ensures job in b.store.jobs
    ensures SetIdStep(a, b, step) || Terminal(a.store.jobs[job]) ==> SameOutcome(a.store.jobs[job], b.store.jobs[job])
  {
    assert JobInv(a, job);
    if step != job {
      OtherRow(a, b, step, job);
    } else if SetIdStep(a, b, step) {
    } else {
      FinishedRow(a, b, job);
    }
  }

  /** A step about one job leaves the row of any other as it is. */
  lemma OtherRow(a: System, b: System, step: string, job: string)
    requires JobStep(a, b, step) && job in a.store.jobs && step != job
    ensures job in b.store.jobs && b.store.jobs[job] == a.store.jobs[job]
  {
  }

  lemma FinishedRow(a: System, b: System, job: string)
    requires JobInv(a, job) && JobStep(a, b, job) && !SetIdStep(a, b, job)
    ensures job in b.store.jobs && (Terminal(a.store.jobs[job]) ==> b.store.jobs[job] == a.store.jobs[job])
  {
  }

  /** Terminal, with the outcome the row tells. */
  ghost predicate Settled(a: System, job: string, row: JobRow) {
    job in a.store.jobs && Terminal(a.store.jobs[job]) && SameOutcome(row, a.store.jobs[job])
  }

  /** One step of a run leaves a settled job settled. */
  lemma StaysSettled(states: seq<System>, j: nat, job: string, row: JobRow)
    requires Trace(states) && j + 1 < |states| && Settled(states[j], job, row)
    ensures Settled(states[j + 1], job, row)
  {
    TraceInv(states, j);
    var a, b := states[j], states[j + 1];
    assert Next(a, b);
    var step :| JobStep(a, b, step);
    StepOutcome(a, b, step, job);
  }

  /** Finished is final: once terminal, a job's status, run, result and error never change again. */
  lemma {:induction false} OutcomeIsFinal(states: seq<System>, i: nat, j: nat, job: string)
    requires Trace(states) && i <= j < |states| && job in states[i].store.jobs && Terminal(states[i].store.jobs[job])
    ensures Settled(states[j], job, states[i].store.jobs[job])
    decreases j
  {
    if i < j {
      OutcomeIsFinal(states, i, j - 1, job);
      StaysSettled(states, j - 1, job, states[i].store.jobs[job]);
    }
  }
}
