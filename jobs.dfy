/**
 * The in-memory job record store (`job_storage`), the cancellation registry
 * (`active_jobs`, one cancel flag per running job) and the realtime push channel,
 * recorded as an append-only log of the events emitted.
 *
 * The store operations are first given as functions on a `StoreState` value; the
 * class `JobStore` holds the same three pieces as mutable fields and its methods
 * are specified by those functions.
 */
module Jobs {
  import opened Common

  datatype Status = Queued | Processing | Completed | Failed | Cancelled

  predicate IsTerminal(s: Status) {
    s == Completed || s == Failed || s == Cancelled
  }

  /** The raw form values of a submission, as the upload form sends them. */
  datatype FormOptions = FormOptions(
    transformation: string,
    filter: string,
    speed: string,
    brightness: string,
    contrast: string)

  /** One record of `job_storage` (timestamps are not modelled). */
  datatype Job = Job(
    id: string,
    filename: string,
    options: FormOptions,
    status: Status,
    progress: int,
    message: string,
    outputFilename: Option<string>,
    error: Option<string>)

  /** The two kinds of realtime message: `progress_update` and `job_completed`. */
  datatype Event =
    | ProgressUpdate(jobId: string, progress: int, message: string, status: Status)
    | JobCompleted(jobId: string, status: Status, outputFilename: Option<string>, error: Option<string>)

  /** `job_storage`, the cancel flag of every entry of `active_jobs`, and the events emitted so far. */
  datatype StoreState = StoreState(jobs: map<string, Job>, active: map<string, bool>, events: seq<Event>)

  const QueuedMessage := "Job queued for processing"
  const CancelledMessage := "Job cancelled by user"
  const CancelledError := "Processing cancelled by user"

  /** Every record is stored under its own id. */
  predicate WellKeyed(s: StoreState) {
    forall k :: k in s.jobs ==> s.jobs[k].id == k
  }

  /** The identity part of a record, which no store operation except a new `create_job` changes. */
  predicate SameIdentity(a: Job, b: Job) {
    a.id == b.id && a.filename == b.filename && a.options == b.options
  }

  /** `create_job`: a fresh queued record, replacing any record already under that id. */
  function StoreCreate(s: StoreState, id: string, filename: string, options: FormOptions): (r: StoreState)
    ensures r.jobs.Keys == s.jobs.Keys + {id}
    ensures r.jobs - {id} == s.jobs - {id}
    ensures r.jobs[id].id == id && r.jobs[id].filename == filename && r.jobs[id].options == options
    ensures r.jobs[id].status == Queued && r.jobs[id].progress == 0 && r.jobs[id].message == QueuedMessage
    ensures r.jobs[id].outputFilename == None && r.jobs[id].error == None
    ensures r.active == s.active && r.events == s.events
    ensures WellKeyed(s) ==> WellKeyed(r)
  {
    s.(jobs := s.jobs[id := Job(id, filename, options, Queued, 0, QueuedMessage, None, None)])
  }

  /** active_jobs[job_id] = {...}: registers a fresh, unset cancel flag. */
  function StoreRegister(s: StoreState, id: string): (r: StoreState)
    ensures r.active.Keys == s.active.Keys + {id} && !r.active[id]
    ensures r.active - {id} == s.active - {id}
    ensures r.jobs == s.jobs && r.events == s.events
  {
    s.(active := s.active[id := false])
  }

  /**
   * `update_job_progress`: merges progress and message (and the status, when one is
   * given) into an existing record; an unknown id leaves the records alone. The event
   * is emitted in both cases and reports `processing` when no status is given.
   */
  function StoreUpdateProgress(s: StoreState, id: string, progress: int, message: string, status: Option<Status>): (r: StoreState)
    ensures r.jobs.Keys == s.jobs.Keys
    ensures r.jobs - {id} == s.jobs - {id}
    ensures id in s.jobs ==>
      var (o, n) := (s.jobs[id], r.jobs[id]);
      && SameIdentity(o, n)
      && n.progress == progress && n.message == message
      && n.status == (if status.Some? then status.value else o.status)
      && n.outputFilename == o.outputFilename && n.error == o.error
    ensures r.active == s.active
    ensures r.events == s.events + [ProgressUpdate(id, progress, message, status.GetOr(Processing))]
    ensures WellKeyed(s) ==> WellKeyed(r)
  {
    var jobs := if id in s.jobs then
      var j := s.jobs[id];
      s.jobs[id := j.(progress := progress, message := message, status := status.GetOr(j.status))]
    else s.jobs;
    StoreState(jobs, s.active, s.events + [ProgressUpdate(id, progress, message, status.GetOr(Processing))])
  }

  /** `get_job_status`: the record, or `None` for an unknown id. */
  function StoreGet(s: StoreState, id: string): (r: Option<Job>)
    ensures r.Some? <==> id in s.jobs
    ensures r.Some? ==> r.value == s.jobs[id]
  {
    if id in s.jobs then Some(s.jobs[id]) else None
  }

  /** The status `complete_job` writes: `completed` exactly when the output name is truthy. */
  function CompletionStatus(outputFilename: Option<string>): Status {
    if Truthy(outputFilename) then Completed else Failed
  }

  /**
   * `complete_job`: completed with progress 100 when given a (non-empty) output name,
   * failed with progress 0 otherwise; stores both the output name and the error as
   * given, and drops the job from the registry. The message is left as it was.
   */
  function StoreComplete(s: StoreState, id: string, outputFilename: Option<string>, error: Option<string>): (r: StoreState)
    ensures r.jobs.Keys == s.jobs.Keys
    ensures r.jobs - {id} == s.jobs - {id}
    ensures id in s.jobs ==>
      var (o, n) := (s.jobs[id], r.jobs[id]);
      && SameIdentity(o, n) && n.message == o.message
      && (n.status == Completed <==> Truthy(outputFilename))
      && (n.status == Failed <==> !Truthy(outputFilename))
      && n.progress == (if Truthy(outputFilename) then 100 else 0)
      && n.outputFilename == outputFilename && n.error == error
    ensures r.active == s.active - {id} && id !in r.active
    ensures r.events == s.events + [JobCompleted(id, CompletionStatus(outputFilename), outputFilename, error)]
    ensures WellKeyed(s) ==> WellKeyed(r)
  {
    var status := CompletionStatus(outputFilename);
    var jobs := if id in s.jobs then
      s.jobs[id := s.jobs[id].(status := status, progress := if Truthy(outputFilename) then 100 else 0,
                               outputFilename := outputFilename, error := error)]
    else s.jobs;
    StoreState(jobs, s.active - {id}, s.events + [JobCompleted(id, status, outputFilename, error)])
  }

  /**
   * `cancel_job`: only a registered job can be cancelled. Its flag is set (the entry
   * stays in the registry), its record becomes cancelled with progress 0 and the fixed
   * message and error, and a completion event is emitted. For an unknown id nothing
   * changes and the answer is false.
   */
  function StoreCancel(s: StoreState, id: string): (res: (StoreState, bool))
    ensures res.1 <==> id in s.active
    ensures !res.1 ==> res.0 == s
    ensures res.1 ==> res.0.active == s.active[id := true]
    ensures res.0.jobs.Keys == s.jobs.Keys
    ensures res.0.jobs - {id} == s.jobs - {id}
    ensures res.1 && id in s.jobs ==>
      var (o, n) := (s.jobs[id], res.0.jobs[id]);
      && SameIdentity(o, n) && n.outputFilename == o.outputFilename
      && n.status == Cancelled && n.progress == 0
      && n.message == CancelledMessage && n.error == Some(CancelledError)
    ensures res.1 ==> res.0.events == s.events + [JobCompleted(id, Cancelled, None, Some(CancelledError))]
    ensures WellKeyed(s) ==> WellKeyed(res.0)
  {
    if id !in s.active then (s, false)
    else
      var jobs := if id in s.jobs then
        s.jobs[id := s.jobs[id].(status := Cancelled, progress := 0, message := CancelledMessage,
                                 error := Some(CancelledError))]
      else s.jobs;
      (StoreState(jobs, s.active[id := true], s.events + [JobCompleted(id, Cancelled, None, Some(CancelledError))]), true)
  }

  /** One call into the store, as several independent callers issue them. */
  datatype StoreOp =
    | Create(id: string, filename: string, options: FormOptions)
    | Register(id: string)
    | Update(id: string, progress: int, message: string, status: Option<Status>)
    | Complete(id: string, outputFilename: Option<string>, error: Option<string>)
    | Cancel(id: string)

  function Apply(s: StoreState, op: StoreOp): StoreState {
    match op
    case Create(id, f, o) => StoreCreate(s, id, f, o)
    case Register(id) => StoreRegister(s, id)
    case Update(id, p, m, st) => StoreUpdateProgress(s, id, p, m, st)
    case Complete(id, out, err) => StoreComplete(s, id, out, err)
    case Cancel(id) => StoreCancel(s, id).0
  }

  /** The state after the calls `ops`, in order. */
  function ApplyAll(s: StoreState, ops: seq<StoreOp>): StoreState
    decreases |ops|
  {
    if ops == [] then s else ApplyAll(Apply(s, ops[0]), ops[1..])
  }

  /** The events about one job, in emission order. */
  function EventsFor(evs: seq<Event>, id: string): (r: seq<Event>)
    ensures |r| <= |evs|
    ensures forall i :: 0 <= i < |r| ==> r[i].jobId == id
  {
    if evs == [] then []
    else (if evs[0].jobId == id then [evs[0]] else []) + EventsFor(evs[1..], id)
  }

  lemma {:induction false} EventsForAppend(a: seq<Event>, b: seq<Event>, id: string)
    ensures EventsFor(a + b, id) == EventsFor(a, id) + EventsFor(b, id)
  {
    if a == [] {
      assert a + b == b;
    } else {
      assert (a + b)[1..] == a[1..] + b;
      EventsForAppend(a[1..], b, id);
    }
  }

  /** Every store call keeps each record under its own id. */
  lemma {:induction false} ApplyAllWellKeyed(s: StoreState, ops: seq<StoreOp>)
    requires WellKeyed(s)
    ensures WellKeyed(ApplyAll(s, ops))
    decreases |ops|
  {
    if ops != [] {
      ApplyAllWellKeyed(Apply(s, ops[0]), ops[1..]);
    }
  }

  /**
   * Jobs do not contaminate each other: calls about other ids leave a job's record,
   * its registry entry and the events about it exactly as they were.
   */
  lemma {:induction false} OtherJobsUntouched(s: StoreState, ops: seq<StoreOp>, k: string)
    requires forall i :: 0 <= i < |ops| ==> ops[i].id != k
    ensures var r := ApplyAll(s, ops);
      && (k in r.jobs <==> k in s.jobs) && (k in s.jobs ==> r.jobs[k] == s.jobs[k])
      && (k in r.active <==> k in s.active) && (k in s.active ==> r.active[k] == s.active[k])
      && EventsFor(r.events, k) == EventsFor(s.events, k)
    decreases |ops|
  {
    if ops != [] {
      var s1 := Apply(s, ops[0]);
      var id := ops[0].id;
      assert k in s1.jobs - {id} <==> k in s.jobs - {id};
      assert k in s1.jobs <==> k in s.jobs;
      assert k in s.jobs ==> s1.jobs[k] == (s1.jobs - {id})[k] == (s.jobs - {id})[k] == s.jobs[k];
      assert k in s1.active <==> k in s.active;
      assert k in s.active ==> s1.active[k] == s.active[k];
      assert exists tail: seq<Event> :: s1.events == s.events + tail && EventsFor(tail, k) == [] by {
        match ops[0]
        case Create(_, _, _) => assert s1.events == s.events + [];
        case Register(_) => assert s1.events == s.events + [];
        case Update(_, p, m, st) =>
          var e := ProgressUpdate(id, p, m, st.GetOr(Processing));
          assert s1.events == s.events + [e] && EventsFor([e], k) == [];
        case Complete(_, out, err) =>
          var e := JobCompleted(id, CompletionStatus(out), out, err);
          assert s1.events == s.events + [e] && EventsFor([e], k) == [];
        case Cancel(_) =>
          if id in s.active {
            var e := JobCompleted(id, Cancelled, None, Some(CancelledError));
            assert s1.events == s.events + [e] && EventsFor([e], k) == [];
          } else {
            assert s1.events == s.events + [];
          }
      }
      var tail: seq<Event> :| s1.events == s.events + tail && EventsFor(tail, k) == [];
      EventsForAppend(s.events, tail, k);
      OtherJobsUntouched(s1, ops[1..], k);
    }
  }

  /** The calls that a running job's own worker makes while it only reports progress. */
  predicate KeepsCancellation(op: StoreOp, k: string) {
    op.id != k || (op.Update? && op.status.None?) || op.Cancel?
  }

  /**
   * Once a cancel is accepted, the record stays cancelled (with its cancel error) and
   * the flag stays set through any number of progress reports without a status and
   * further cancels and calls about other jobs. Progress and message are not frozen:
   * the reports overwrite them.
   */
  lemma {:induction false} CancelledPersists(s: StoreState, ops: seq<StoreOp>, k: string)
    requires k in s.jobs ==> s.jobs[k].status == Cancelled && s.jobs[k].error == Some(CancelledError)
    requires forall i :: 0 <= i < |ops| ==> KeepsCancellation(ops[i], k)
    requires k in s.active && s.active[k]
    ensures var r := ApplyAll(s, ops);
      && (k in r.jobs ==> r.jobs[k].status == Cancelled && r.jobs[k].error == Some(CancelledError))
      && k in r.active && r.active[k]
    decreases |ops|
  {
    if ops != [] {
      var s1 := Apply(s, ops[0]);
      var id := ops[0].id;
      if id != k {
        assert k in s1.jobs <==> k in s.jobs;
        assert k in s.jobs ==> s1.jobs[k] == (s1.jobs - {id})[k] == (s.jobs - {id})[k] == s.jobs[k];
      }
      CancelledPersists(s1, ops[1..], k);
    }
  }

  /** The store does not protect terminal states: a later completion overwrites a cancellation. */
  lemma CompletionOverwritesCancellation(s: StoreState, k: string, out: string)
    requires k in s.active && k in s.jobs && out != ""
    ensures var c := StoreCancel(s, k).0;
      var r := StoreComplete(c, k, Some(out), None);
      && c.jobs[k].status == Cancelled
      && r.jobs[k].status == Completed && r.jobs[k].progress == 100 && r.jobs[k].error == None
      && k !in r.active
  {
  }

  /** A job that is not registered cannot be cancelled, whatever its record says. */
  lemma CancelNeedsRegistration(s: StoreState, k: string)
    requires k !in s.active
    ensures StoreCancel(s, k) == (s, false)
  {
  }

  class JobStore {
    var jobs: map<string, Job>
    var active: map<string, bool>
    var events: seq<Event>

    function Model(): StoreState
      reads this
    {
      StoreState(jobs, active, events)
    }

    ghost predicate Valid()
      reads this
    {
      WellKeyed(Model())
    }

    constructor ()
      ensures Valid() && Model() == StoreState(map[], map[], [])
    {
      jobs, active, events := map[], map[], [];
    }

    method CreateJob(id: string, filename: string, options: FormOptions) returns (job: Job)
      requires Valid()
      modifies this
      ensures Valid() && Model() == StoreCreate(old(Model()), id, filename, options)
      ensures job == jobs[id]
    {
      job := Job(id, filename, options, Queued, 0, QueuedMessage, None, None);
      jobs := jobs[id := job];
    }

    method Register(id: string)
      requires Valid()
      modifies this
      ensures Valid() && Model() == StoreRegister(old(Model()), id)
    {
      active := active[id := false];
    }

    method UpdateJobProgress(id: string, progress: int, message: string, status: Option<Status>)
      requires Valid()
      modifies this
      ensures Valid() && Model() == StoreUpdateProgress(old(Model()), id, progress, message, status)
    {
      if id in jobs {
        var j := jobs[id];
        jobs := jobs[id := j.(progress := progress, message := message, status := status.GetOr(j.status))];
      }
      events := events + [ProgressUpdate(id, progress, message, status.GetOr(Processing))];
    }

    method GetJobStatus(id: string) returns (job: Option<Job>)
      ensures job == StoreGet(Model(), id)
    {
      job := if id in jobs then Some(jobs[id]) else None;
    }

    method CompleteJob(id: string, outputFilename: Option<string>, error: Option<string>)
      requires Valid()
      modifies this
      ensures Valid() && Model() == StoreComplete(old(Model()), id, outputFilename, error)
    {
      var status := if Truthy(outputFilename) then Completed else Failed;
      if id in jobs {
        jobs := jobs[id := jobs[id].(status := status, progress := if Truthy(outputFilename) then 100 else 0,
                                     outputFilename := outputFilename, error := error)];
      }
      if id in active {
        active := active - {id};
      }
      events := events + [JobCompleted(id, status, outputFilename, error)];
    }

    method CancelJob(id: string) returns (found: bool)
      requires Valid()
      modifies this
      ensures Valid() && (Model(), found) == StoreCancel(old(Model()), id)
    {
      if id in active {
        active := active[id := true];
        if id in jobs {
          jobs := jobs[id := jobs[id].(status := Cancelled, progress := 0, message := CancelledMessage,
                                       error := Some(CancelledError))];
        }
        events := events + [JobCompleted(id, Cancelled, None, Some(CancelledError))];
        found := true;
      } else {
        found := false;
      }
    }
  }
}
