/**
 The listener's process-wide state as one object: the registry `nzb_jobs`
 and the interval slot `Intervals["nzb"]`, which records whether the poll loop
 is running. Its methods are the code of the listener that changes that state:
 registration, one pass of the poll loop, and the cleanup done by the removal,
 error and completion tasks. Calls to the download service are returned as
 `ServiceCall` values; what the service answered comes in as parameters.
 */
module NzbListener {
  import opened NzbTick
  import opened NzbTickFacts

  /** A request the listener makes to the download service. */
  datatype ServiceCall =
    | DeleteHistory(id: string, deleteFiles: bool)
    | DeleteCategory(key: string)
    | DeleteJob(id: string, deleteFiles: bool)

  class Listener {
    /** `nzb_jobs`. */
    var jobs: Registry
    /** Whether `Intervals["nzb"]` holds a loop task. */
    var loopRunning: bool

    /** Every record is one the listener can have written, and a non-empty
        registry always has the loop flag set. */
    ghost predicate Valid()
      reads this
    {
      AllWellFormed(jobs) && (jobs != map[] ==> loopRunning)
    }

    constructor ()
      ensures Valid() && jobs == map[] && !loopRunning
    {
      jobs := map[];
      loopRunning := false;
    }

    /** `onDownloadStart`: the id gets a fresh record, overwriting any record
        it had, and the loop is started unless the flag says it runs. */
    method OnDownloadStart(id: string) returns (startedLoop: bool)
      requires Valid()
      modifies this
      ensures Valid()
      ensures jobs == Register(old(jobs), id)
      ensures startedLoop == !old(loopRunning)
      ensures loopRunning
    {
      jobs := jobs[id := Job(false, false, "Downloading")];
      startedLoop := !loopRunning;
      if startedLoop {
        loopRunning := true;
      }
    }

    /** One tick of `_nzb_listener` on fetched snapshots: with an empty
        registry the flag is cleared and the loop stops; otherwise the history
        and then the queue are dispatched, updating records in place. */
    method Tick(history: seq<HistorySlot>, queue: seq<QueueSlot>) returns (actions: seq<Action>, stop: bool)
      requires Valid()
      modifies this
      ensures Valid()
      ensures var r := TickOutcome(old(jobs), history, queue);
        jobs == r.jobs && actions == r.actions && stop == r.stop
      ensures loopRunning == (old(loopRunning) && !stop)
    {
      if |jobs| == 0 {
        loopRunning := false;
        return [], true;
      }
      ghost var start := jobs;
      var historyActions := DispatchHistory(history);
      var queueActions := DispatchQueue(queue);
      actions := historyActions + queueActions;
      stop := false;
      TickWellFormed(start, history, queue);
    }

    /** The `for job in jobs` loop: the history slots in snapshot order. */
    method DispatchHistory(history: seq<HistorySlot>) returns (actions: seq<Action>)
      modifies this`jobs
      ensures Pass(jobs, actions) == HistoryPass(old(jobs), history)
    {
      actions := [];
      var i := 0;
      while i < |history|
        invariant 0 <= i <= |history|
        invariant Pass(jobs, actions) == HistoryPass(old(jobs), history[..i])
      {
        var emitted := DispatchHistorySlot(history[i]);
        actions := actions + emitted;
        assert history[..i + 1][..i] == history[..i];
        i := i + 1;
      }
      assert history[..|history|] == history;
    }

    /** The `for dl in downloads` loop: the queue slots in snapshot order. */
    method DispatchQueue(queue: seq<QueueSlot>) returns (actions: seq<Action>)
      modifies this`jobs
      ensures Pass(jobs, actions) == QueuePass(old(jobs), queue)
    {
      actions := [];
      var k := 0;
      while k < |queue|
        invariant 0 <= k <= |queue|
        invariant Pass(jobs, actions) == QueuePass(old(jobs), queue[..k])
      {
        var emitted := DispatchQueueSlot(queue[k]);
        actions := actions + emitted;
        assert queue[..k + 1][..k] == queue[..k];
        k := k + 1;
      }
      assert queue[..|queue|] == queue;
    }

    /** The body of the history loop for one slot. */
    method DispatchHistorySlot(h: HistorySlot) returns (emitted: seq<Action>)
      modifies this`jobs
      ensures Pass(jobs, emitted) == HistoryStep(old(jobs), h)
    {
      emitted := [];
      var id := h.nzoId;
      if id !in jobs {
        return;
      }
      if h.status == "Completed" {
        if !jobs[id].uploaded {
          jobs := jobs[id := jobs[id].(uploaded := true)];
          emitted := [Complete(id)];
          jobs := jobs[id := jobs[id].(status := "Completed")];
        }
      } else if h.status == "Failed" {
        emitted := [Error(id, h.failMessage)];
      } else if IsIntermediate(h.status) {
        if h.status != jobs[id].status {
          emitted := [ChangeStatus(id, h.status)];
        }
      }
    }

    /** The body of the queue loop for one slot. */
    method DispatchQueueSlot(q: QueueSlot) returns (emitted: seq<Action>)
      modifies this`jobs
      ensures Pass(jobs, emitted) == QueueStep(old(jobs), q)
    {
      emitted := [];
      var id := q.nzoId;
      if id !in jobs {
        return;
      }
      if q.status == "Downloading" && !jobs[id].stopDupCheck && !("Trying" <= q.filename) {
        jobs := jobs[id := jobs[id].(stopDupCheck := true)];
        emitted := [DupCheck(id), SizeCheck(id)];
      }
    }

    /** One pass of the `while not Intervals["stopAll"]` loop. With the
        shutdown flag set the loop exits, leaving the interval slot as it is;
        a failed fetch is caught and changes nothing; otherwise it is a tick. */
    method LoopIteration(stopAll: bool, fetch: Fetch) returns (actions: seq<Action>, exited: bool)
      requires Valid()
      modifies this
      ensures Valid()
      ensures stopAll ==> exited && actions == [] && jobs == old(jobs) && loopRunning == old(loopRunning)
      ensures !stopAll && fetch.FetchFailed? ==>
        !exited && actions == [] && jobs == old(jobs) && loopRunning == old(loopRunning)
      ensures !stopAll && fetch.Fetched? ==>
        var r := TickOutcome(old(jobs), fetch.history, fetch.queue);
        jobs == r.jobs && actions == r.actions && exited == r.stop
        && loopRunning == (old(loopRunning) && !r.stop)
    {
      if stopAll {
        return [], true;
      }
      match fetch
      case FetchFailed =>
        actions, exited := [], false;
      case Fetched(history, queue) =>
        actions, exited := Tick(history, queue);
    }

    /** `_remove_job`: deletes the history entry with its files and the
        category, falls back to a forced job deletion when the history
        deletion failed, and evicts the record if it is still there. */
    method RemoveJob(id: string, category: string, historyDeleted: bool) returns (calls: seq<ServiceCall>)
      requires Valid()
      modifies this`jobs
      ensures Valid()
      ensures jobs == Evict(old(jobs), id)
      ensures calls == [DeleteHistory(id, true), DeleteCategory(category)]
                       + (if historyDeleted then [] else [DeleteJob(id, true)])
      ensures DeleteJob(id, true) in calls <==> !historyDeleted
    {
      calls := [DeleteHistory(id, true), DeleteCategory(category)];
      if !historyDeleted {
        calls := calls + [DeleteJob(id, true)];
      }
      if id in jobs {
        jobs := jobs - {id};
      }
    }

    /** The cleanup of `_onDownloadError`: the removal, a forced deletion of
        the job and of its category, and a final eviction of the record. */
    method OnDownloadErrorCleanup(id: string, category: string, historyDeleted: bool) returns (calls: seq<ServiceCall>)
      requires Valid()
      modifies this`jobs
      ensures Valid()
      ensures jobs == Evict(old(jobs), id)
      ensures calls == [DeleteHistory(id, true), DeleteCategory(category)]
                       + (if historyDeleted then [] else [DeleteJob(id, true)])
                       + [DeleteJob(id, true), DeleteCategory(category)]
    {
      calls := RemoveJob(id, category, historyDeleted);
      calls := calls + [DeleteJob(id, true), DeleteCategory(category)];
      // The final eviction under the lock; the removal above has already
      // evicted the record, so here it leaves the registry as it is.
      jobs := jobs - {id};
    }

    /** The cleanup of `_onDownloadComplete`: the removal, unless the whole
        process is shutting down. */
    method OnDownloadCompleteCleanup(id: string, category: string, stopAll: bool, historyDeleted: bool)
      returns (calls: seq<ServiceCall>)
      requires Valid()
      modifies this`jobs
      ensures Valid()
      ensures stopAll ==> calls == [] && jobs == old(jobs)
      ensures !stopAll ==> jobs == Evict(old(jobs), id)
      ensures !stopAll ==> calls == [DeleteHistory(id, true), DeleteCategory(category)]
                                    + (if historyDeleted then [] else [DeleteJob(id, true)])
      ensures !stopAll ==> (DeleteJob(id, true) in calls <==> !historyDeleted)
    {
      if stopAll {
        return [];
      }
      calls := RemoveJob(id, category, historyDeleted);
    }
  }

  /** Registering jobs one after another starts the loop once: the first
      registration starts it and the second finds it running. */
  method RegisterTwo(l: Listener, a: string, b: string) returns (started: nat)
    requires l.Valid() && !l.loopRunning
    modifies l
    ensures l.Valid() && l.loopRunning && a in l.jobs && b in l.jobs
    ensures started == 1
  {
    var first := l.OnDownloadStart(a);
    var second := l.OnDownloadStart(b);
    started := (if first then 1 else 0) + (if second then 1 else 0);
  }

  /** Calling the removal twice leaves the registry as one call did. */
  lemma EvictIdempotent(jobs: Registry, id: string)
    ensures Evict(Evict(jobs, id), id) == Evict(jobs, id)
  {
  }
}
