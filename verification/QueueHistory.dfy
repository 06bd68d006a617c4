/** What tasks and jobs have announced, and how one piece of work ends, in names and fields
    (src/service_tasks.py:23-102, src/task_queue.py:141-164, src/service_analysis_jobs.py:22-124,
    src/celery_tasks.py:16-36). */
module QueueHistory {
  import opened Prelude
  import opened Json
  import opened Outbox
  import T = TaskStore
  import J = AnalysisJobs
  import R = LocalRunner

  // ---------------------------------------------------------------- reading the outbox

  /** The event types announced for one aggregate, oldest first. */
  function Announced(outbox: seq<OutboxRow>, kind: string, id: string): seq<string> {
    if outbox == [] then []
    else
      (if outbox[0].aggregateType == kind && outbox[0].aggregateId == id then [outbox[0].eventType] else [])
      + Announced(outbox[1..], kind, id)
  }

  function Types(rows: seq<OutboxRow>): seq<string> { Map(rows, (row: OutboxRow) => row.eventType) }

  lemma {:induction false} AboutAppend(a: seq<OutboxRow>, b: seq<OutboxRow>, kind: string, id: string)
    ensures About(a + b, kind, id) == About(a, kind, id) + About(b, kind, id)
    decreases |b|
  {
    if b == [] {
      assert a + b == a;
    } else {
      var n := |b| - 1;
      AboutAppend(a, b[..n], kind, id);
      assert a + b == (a + b[..n]) + [b[n]] && b == b[..n] + [b[n]];
      AboutSnoc(a + b[..n], b[n], kind, id);
      AboutSnoc(b[..n], b[n], kind, id);
    }
  }

  lemma {:induction false} AnnouncedIs(outbox: seq<OutboxRow>, kind: string, id: string)
    ensures Announced(outbox, kind, id) == Types(About(outbox, kind, id))
  {
    if outbox != [] {
      var first, rest := outbox[0], outbox[1..];
      AnnouncedIs(rest, kind, id);
      assert outbox == [first] + rest;
      AboutAppend([first], rest, kind, id);
      AboutSnoc([], first, kind, id);
      assert [] + [first] == [first];
    }
  }

  // ---------------------------------------------------------------- tasks

  /** The announcements of a task, by its status. */
  function TaskStory(status: T.TaskStatus): seq<string> {
    match status
    case Pending => ["task.enqueued"]
    case Running => ["task.enqueued"]
    case Succeeded => ["task.enqueued", "task.completed"]
    case Failed => ["task.enqueued", "task.failed"]
  }

  lemma TypesOfTask(row: T.TaskRow, id: string)
    ensures Types([T.TaskEvent("task.enqueued", id)] + T.ClosingEvents(row, id)) == TaskStory(row.status)
  {
  }

  lemma StoreHistory(s: T.State, id: string)
    requires T.TaskLedger(s)
    ensures Announced(s.outbox, "task", id) == if id in s.tasks then TaskStory(s.tasks[id].status) else []
  {
    assert LedgerAt(s.outbox, "task", T.Expected(s.tasks), id);
    AnnouncedIs(s.outbox, "task", id);
    if id in s.tasks {
      TypesOfTask(s.tasks[id], id);
    }
  }

  /** In every state of a run, a task has announced its arrival and, once ended, how it ended; nothing else has. */
  lemma TaskHistory(states: seq<R.System>, i: nat, id: string)
    requires R.Trace(states) && i < |states|
    ensures var s := states[i].store;
      Announced(s.outbox, "task", id) == if id in s.tasks then TaskStory(s.tasks[id].status) else []
  {
    R.TraceInv(states, i);
    StoreHistory(states[i].store, id);
  }

  /** A task whose payload has a list of events and an object of input data. */
  predicate Workable(payload: map<string, Value>) {
    && "events" in payload && payload["events"].List?
    && "input_meta" in payload && payload["input_meta"].Obj?
  }

  /** The row of a task that has ended, with its error or its run. */
  ghost predicate Ended(before: T.TaskRow, after: T.TaskRow, run: Option<string>, error: Option<string>) {
    && after.status == (if run.Some? then T.Succeeded else T.Failed)
    && after.result == run && after.error == error
    && after.payload == before.payload && after.createdAt == before.createdAt
  }

  /** How running a task ends, by its payload and by what the analysis does; saved runs stay saved. */
  lemma WorkEnds(s: T.State, id: string, outcome: T.Outcome)
    requires id in s.tasks
    ensures var (row, after) := (s.tasks[id], T.Work(s, id, outcome));
      && id in after.tasks
      && (!Workable(row.payload) ==>
            Ended(row, after.tasks[id], None, Some("analysis task payload must include events and input_meta"))
            && after.runs == s.runs)
      && (Workable(row.payload) && outcome.Raises? ==>
            Ended(row, after.tasks[id], None, Some(outcome.message)) && after.runs == s.runs)
      && (Workable(row.payload) && outcome.Saves? ==>
            Ended(row, after.tasks[id], Some(outcome.runId), None) && after.runs == s.runs + {outcome.runId})
      && (Workable(row.payload) && outcome.SavesThenRaises? ==>
            Ended(row, after.tasks[id], None, Some(outcome.message)) && after.runs == s.runs + {outcome.runId})
  {
  }

  /** A claim may take a task exactly when it is pending and no pending task was enqueued at an earlier time. */
  lemma OldestIff(s: T.State, id: string)
    ensures T.OldestPending(s, id) <==>
      && id in s.tasks && s.tasks[id].status == T.Pending
      && !exists other :: other in s.tasks && s.tasks[other].status == T.Pending
           && s.tasks[other].createdAt < s.tasks[id].createdAt
  {
  }

  // ---------------------------------------------------------------- jobs

  function JobStory(status: J.JobStatus): seq<string> {
    match status
    case Pending => ["analysis_job.queued"]
    case Running => ["analysis_job.queued"]
    case Succeeded => ["analysis_job.queued", "analysis_job.completed"]
    case Failed => ["analysis_job.queued", "analysis_job.failed"]
  }

  lemma TypesOfJob(row: J.JobRow, job: string)
    ensures Types([J.JobEvent("analysis_job.queued", job)] + J.Ending(row, job)) == JobStory(row.status)
  {
  }

  lemma JobStoreHistory(s: J.Store, job: string)
    requires J.JobLedger(s)
    ensures Announced(s.outbox, "analysis_job", job) == if job in s.jobs then JobStory(s.jobs[job].status) else []
  {
    assert LedgerAt(s.outbox, "analysis_job", J.Expected(s.jobs), job);
    AnnouncedIs(s.outbox, "analysis_job", job);
    if job in s.jobs {
      TypesOfJob(s.jobs[job], job);
    }
  }

  /** In every interleaving, a job has announced its queueing and, once ended, how it ended; nothing else has. */
  lemma JobHistory(states: seq<J.System>, i: nat, job: string)
    requires J.Trace(states) && i < |states|
    ensures var s := states[i].store;
      Announced(s.outbox, "analysis_job", job) == if job in s.jobs then JobStory(s.jobs[job].status) else []
  {
    J.TraceInv(states, i);
    JobStoreHistory(states[i].store, job);
  }

  ghost predicate JobEnded(before: J.JobRow, after: J.JobRow, run: Option<string>, error: Option<string>) {
    && after.status == (if run.Some? then J.Succeeded else J.Failed)
    && after.runId == (if run.Some? then run else before.runId) && after.result == run && after.error == error
    && after.celeryTaskId == before.celeryTaskId
  }

  /** How one delivery ends; without a job id, and for an unknown one, no job changes. */
  lemma DeliveryEnds(s: J.Store, job: Option<string>, outcome: J.Outcome)
    ensures var after := J.Deliver(s, job, outcome);
      var saved := if outcome.Raises? then s.runs else s.runs + {outcome.runId};
      && (job.None? ==> after.jobs == s.jobs && after.outbox == s.outbox && after.runs == saved)
      && (job.Some? && job.value !in s.jobs ==> after == s)
      && (job.Some? && job.value in s.jobs ==>
        && job.value in after.jobs && after.runs == saved
        && JobEnded(s.jobs[job.value], after.jobs[job.value],
                    if outcome.Saves? then Some(outcome.runId) else None,
                    if outcome.Saves? then None else Some(outcome.message))
        && forall other :: other in s.jobs && other != job.value ==>
             other in after.jobs && after.jobs[other] == s.jobs[other])
  {
  }

  /** Finding a job: by its id, and only when that is no job's id by the broker's id of a job. */
  lemma FindsIff(s: J.Store, taskId: string, job: string)
    ensures J.Finds(s, taskId, job) <==>
      job in s.jobs && (job == taskId || (taskId !in s.jobs && s.jobs[job].celeryTaskId == taskId))
  {
  }
}
