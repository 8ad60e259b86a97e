/**
 The NZB job registry and the rule by which one tick of the listener loop
 reconciles it against the download service's history and queue snapshots.

 Everything here is a value: the registry is a map from job id to record, a
 snapshot is a sequence of slots, and every detached task the loop would spawn
 is an `Action` value, emitted in snapshot order.
 */
module NzbTick {

  /** One registry record. `uploaded` gates the completion task,
      `stopDupCheck` gates the duplicate and size checks, and `status` is the
      status the registry last stored for the job. */
  datatype Job = Job(uploaded: bool, stopDupCheck: bool, status: string)

  /** The registry: job id (the service's nzo_id) to record. */
  type Registry = map<string, Job>

  /** An entry of the service's history snapshot. */
  datatype HistorySlot = HistorySlot(nzoId: string, status: string, failMessage: string)

  /** An entry of the service's queue snapshot. */
  datatype QueueSlot = QueueSlot(nzoId: string, status: string, filename: string)

  /** What the two fetches at the start of a tick produced. */
  datatype Fetch =
    | Fetched(history: seq<HistorySlot>, queue: seq<QueueSlot>)
    | FetchFailed

  /** A detached task spawned by a tick. */
  datatype Action =
    | Complete(id: string)
    | Error(id: string, msg: string)
    | ChangeStatus(id: string, status: string)
    | DupCheck(id: string)
    | SizeCheck(id: string)

  /** A registry together with the actions emitted while producing it. */
  datatype Pass = Pass(jobs: Registry, actions: seq<Action>)

  /** The outcome of one tick; `stop` says the loop ended because the
      registry was empty. */
  datatype TickResult = TickResult(jobs: Registry, actions: seq<Action>, stop: bool)

  /** The record a freshly registered job gets. */
  const FreshJob: Job := Job(false, false, "Downloading")

  /** The history statuses that only report progress. */
  predicate IsIntermediate(st: string)
  {
    st in ["QuickCheck", "Verifying", "Repairing", "Fetching", "Moving", "Extracting"]
  }

  /** A queue slot that asks for the duplicate and size checks: a job that is
      downloading under a real name, not a "Trying..." placeholder. */
  predicate IsDupTrigger(q: QueueSlot)
  {
    q.status == "Downloading" && !("Trying" <= q.filename)
  }

  /** A record the registry can hold: `status` is only ever written together
      with `uploaded`, so the two agree. */
  predicate WellFormed(j: Job)
  {
    j.status == if j.uploaded then "Completed" else "Downloading"
  }

  predicate AllWellFormed(jobs: Registry)
  {
    forall id :: id in jobs ==> WellFormed(jobs[id])
  }

  /** Some history slot reports status `st` for job `id`. */
  predicate Reported(hs: seq<HistorySlot>, id: string, st: string)
  {
    exists h :: h in hs && h.nzoId == id && h.status == st
  }

  /** Some queue slot for job `id` asks for the duplicate and size checks. */
  predicate Triggered(qs: seq<QueueSlot>, id: string)
  {
    exists q :: q in qs && q.nzoId == id && IsDupTrigger(q)
  }

  /** Registration: the id gets a fresh record, replacing any earlier one. */
  function Register(jobs: Registry, id: string): (r: Registry)
    ensures id in r && r[id] == FreshJob
    ensures r.Keys == jobs.Keys + {id}
    ensures forall k :: k in jobs && k != id ==> k in r && r[k] == jobs[k]
  {
    jobs[id := FreshJob]
  }

  /** Eviction: the id is gone and every other record is untouched; an
      absent id leaves the registry as it was. */
  function Evict(jobs: Registry, id: string): (r: Registry)
    ensures id !in r
    ensures r.Keys == jobs.Keys - {id}
    ensures forall k :: k in r ==> r[k] == jobs[k]
    ensures id !in jobs ==> r == jobs
  {
    jobs - {id}
  }

  /** How one history slot is dispatched against the registry. */
  function HistoryStep(jobs: Registry, h: HistorySlot): (r: Pass)
    ensures r.jobs.Keys == jobs.Keys
    ensures forall k :: k in jobs && k != h.nzoId ==> r.jobs[k] == jobs[k]
    ensures h.nzoId !in jobs ==> r == Pass(jobs, [])
    ensures |r.actions| <= 1
    ensures forall a :: a in r.actions ==> a.id == h.nzoId
  {
    var id := h.nzoId;
    if id !in jobs then Pass(jobs, [])
    else if h.status == "Completed" then
      if !jobs[id].uploaded then
        Pass(jobs[id := jobs[id].(uploaded := true, status := "Completed")], [Complete(id)])
      else
        Pass(jobs, [])
    else if h.status == "Failed" then
      Pass(jobs, [Error(id, h.failMessage)])
    else if IsIntermediate(h.status) && h.status != jobs[id].status then
      Pass(jobs, [ChangeStatus(id, h.status)])
    else
      Pass(jobs, [])
  }

  /** The history slots dispatched one after another, in snapshot order. */
  function HistoryPass(jobs: Registry, hs: seq<HistorySlot>): (r: Pass)
    ensures r.jobs.Keys == jobs.Keys
    decreases |hs|
  {
    if hs == [] then Pass(jobs, [])
    else
      var before := HistoryPass(jobs, hs[..|hs| - 1]);
      var step := HistoryStep(before.jobs, hs[|hs| - 1]);
      Pass(step.jobs, before.actions + step.actions)
  }

  /** How one queue slot is dispatched against the registry. */
  function QueueStep(jobs: Registry, q: QueueSlot): (r: Pass)
    ensures r.jobs.Keys == jobs.Keys
    ensures forall k :: k in jobs && k != q.nzoId ==> r.jobs[k] == jobs[k]
    ensures q.nzoId !in jobs ==> r == Pass(jobs, [])
    ensures q.nzoId in jobs ==>
      r.jobs[q.nzoId].stopDupCheck == (jobs[q.nzoId].stopDupCheck || IsDupTrigger(q))
      && r.jobs[q.nzoId].uploaded == jobs[q.nzoId].uploaded
      && r.jobs[q.nzoId].status == jobs[q.nzoId].status
    ensures r.actions == [] || r.actions == [DupCheck(q.nzoId), SizeCheck(q.nzoId)]
  {
    var id := q.nzoId;
    if id in jobs && IsDupTrigger(q) && !jobs[id].stopDupCheck then
      Pass(jobs[id := jobs[id].(stopDupCheck := true)], [DupCheck(id), SizeCheck(id)])
    else
      Pass(jobs, [])
  }

  /** The queue slots dispatched one after another, in snapshot order. */
  function QueuePass(jobs: Registry, qs: seq<QueueSlot>): (r: Pass)
    ensures r.jobs.Keys == jobs.Keys
    decreases |qs|
  {
    if qs == [] then Pass(jobs, [])
    else
      var before := QueuePass(jobs, qs[..|qs| - 1]);
      var step := QueueStep(before.jobs, qs[|qs| - 1]);
      Pass(step.jobs, before.actions + step.actions)
  }

  /** What the duplicate or size policy answered about a job: no value
      (`None`) or a message, which may be empty. */
  datatype PolicyAnswer = NoAnswer | Answer(text: string)

  /** The answer is a refusal: a value that is truthy, that is, a message
      that is not empty. */
  predicate Refuses(answer: PolicyAnswer)
  {
    answer.Answer? && answer.text != ""
  }

  /** What `_stop_duplicate` and `_size_checker` spawn after consulting
      their policy: the error task with the policy's message when the answer
      is truthy, nothing when it is `None` or empty. */
  function PolicyFollowUp(id: string, answer: PolicyAnswer): (r: seq<Action>)
    ensures Refuses(answer) <==> r != []
    ensures Refuses(answer) ==> r == [Error(id, answer.text)]
  {
    match answer
    case NoAnswer => []
    case Answer(text) => if text == "" then [] else [Error(id, text)]
  }

  /** One tick on snapshots that were fetched: an empty registry stops the
      loop; otherwise the history and then the queue are dispatched. */
  function TickOutcome(jobs: Registry, history: seq<HistorySlot>, queue: seq<QueueSlot>): (r: TickResult)
    ensures r.jobs.Keys == jobs.Keys
    ensures r.stop <==> jobs == map[]
    ensures r.stop ==> r.actions == [] && r.jobs == jobs
  {
    if |jobs| == 0 then TickResult(jobs, [], true)
    else
      var h := HistoryPass(jobs, history);
      var q := QueuePass(h.jobs, queue);
      TickResult(q.jobs, h.actions + q.actions, false)
  }
}
