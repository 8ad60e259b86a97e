/**
 What one tick does to the registry and which actions it emits, proved about
 the functions of `NzbTick`.
 */
module NzbTickFacts {
  import opened NzbTick

  predicate IsError(a: Action) { a.Error? }

  predicate IsChange(a: Action) { a.ChangeStatus? }

  /** The actions of `acts` that satisfy `keep`, in their order. */
  function Filter(keep: Action -> bool, acts: seq<Action>): (r: seq<Action>)
    ensures forall a :: a in r ==> a in acts && keep(a)
    decreases |acts|
  {
    if acts == [] then []
    else Filter(keep, acts[..|acts| - 1]) + (if keep(acts[|acts| - 1]) then [acts[|acts| - 1]] else [])
  }

  /** The `Error` actions the failed history slots of tracked jobs call for,
      in snapshot order. */
  function FailureReports(keys: set<string>, hs: seq<HistorySlot>): seq<Action>
    decreases |hs|
  {
    if hs == [] then []
    else
      var h := hs[|hs| - 1];
      FailureReports(keys, hs[..|hs| - 1])
        + (if h.nzoId in keys && h.status == "Failed" then [Error(h.nzoId, h.failMessage)] else [])
  }

  /** The `ChangeStatus` actions the progress slots of tracked jobs call for,
      in snapshot order, when no stored status is a progress status. */
  function ProgressReports(keys: set<string>, hs: seq<HistorySlot>): seq<Action>
    decreases |hs|
  {
    if hs == [] then []
    else
      var h := hs[|hs| - 1];
      ProgressReports(keys, hs[..|hs| - 1])
        + (if h.nzoId in keys && IsIntermediate(h.status) then [ChangeStatus(h.nzoId, h.status)] else [])
  }

  /** The history slots of tracked jobs, in snapshot order. */
  function TrackedHistory(keys: set<string>, hs: seq<HistorySlot>): (r: seq<HistorySlot>)
    ensures forall h :: h in r ==> h in hs && h.nzoId in keys
    decreases |hs|
  {
    if hs == [] then []
    else
      var h := hs[|hs| - 1];
      TrackedHistory(keys, hs[..|hs| - 1]) + (if h.nzoId in keys then [h] else [])
  }

  /** The queue slots of tracked jobs, in snapshot order. */
  function TrackedQueue(keys: set<string>, qs: seq<QueueSlot>): (r: seq<QueueSlot>)
    ensures forall q :: q in r ==> q in qs && q.nzoId in keys
    decreases |qs|
  {
    if qs == [] then []
    else
      var q := qs[|qs| - 1];
      TrackedQueue(keys, qs[..|qs| - 1]) + (if q.nzoId in keys then [q] else [])
  }

  /** The actions are a run of pairs `DupCheck(x), SizeCheck(x)`. */
  predicate CheckPairs(acts: seq<Action>)
    decreases |acts|
  {
    acts == [] ||
    (|acts| >= 2 && acts[|acts| - 2].DupCheck? && acts[|acts| - 1] == SizeCheck(acts[|acts| - 2].id)
     && CheckPairs(acts[..|acts| - 2]))
  }

  // ---------------------------------------------------------------------
  // Helpers on sequences

  lemma FilterAppend(keep: Action -> bool, a: seq<Action>, b: seq<Action>)
    ensures Filter(keep, a + b) == Filter(keep, a) + Filter(keep, b)
    decreases |b|
  {
    if b == [] {
      assert a + b == a;
    } else {
      assert (a + b)[..|a + b| - 1] == a + b[..|b| - 1];
      FilterAppend(keep, a, b[..|b| - 1]);
    }
  }

  lemma ReportedLast(hs: seq<HistorySlot>, id: string, st: string)
    requires hs != []
    ensures Reported(hs, id, st) <==>
      Reported(hs[..|hs| - 1], id, st) || (hs[|hs| - 1].nzoId == id && hs[|hs| - 1].status == st)
  {
    assert hs == hs[..|hs| - 1] + [hs[|hs| - 1]];
  }

  lemma TriggeredLast(qs: seq<QueueSlot>, id: string)
    requires qs != []
    ensures Triggered(qs, id) <==>
      Triggered(qs[..|qs| - 1], id) || (qs[|qs| - 1].nzoId == id && IsDupTrigger(qs[|qs| - 1]))
  {
    assert qs == qs[..|qs| - 1] + [qs[|qs| - 1]];
  }

  // ---------------------------------------------------------------------
  // The history pass

  /** A history pass changes a record only when a `Completed` slot meets a
      record that is not yet uploaded; then it sets `uploaded` and `status`
      and nothing else. `Failed` and progress slots never change a record. */
  lemma {:induction false} HistoryPassRecord(jobs: Registry, hs: seq<HistorySlot>, id: string)
    requires id in jobs
    ensures id in HistoryPass(jobs, hs).jobs
    ensures HistoryPass(jobs, hs).jobs[id] ==
      if jobs[id].uploaded || !Reported(hs, id, "Completed") then jobs[id]
      else jobs[id].(uploaded := true, status := "Completed")
    decreases |hs|
  {
    if hs != [] {
      HistoryPassRecord(jobs, hs[..|hs| - 1], id);
      ReportedLast(hs, id, "Completed");
    }
  }

  /** Only actions of kind Complete, Error and ChangeStatus come from the
      history, each for a tracked job and a slot that reported it. */
  lemma {:induction false} HistoryPassActions(jobs: Registry, hs: seq<HistorySlot>)
    ensures forall a :: a in HistoryPass(jobs, hs).actions ==>
      a.id in jobs &&
      (a.Complete? ==> Reported(hs, a.id, "Completed")) &&
      (a.Error? ==> exists h :: h in hs && h.nzoId == a.id && h.status == "Failed" && h.failMessage == a.msg) &&
      (a.ChangeStatus? ==> IsIntermediate(a.status) && Reported(hs, a.id, a.status)) &&
      !a.DupCheck? && !a.SizeCheck?
    decreases |hs|
  {
    if hs != [] {
      var p, h := hs[..|hs| - 1], hs[|hs| - 1];
      assert hs == p + [h];
      HistoryPassActions(jobs, p);
    }
  }

  /** Completion fires exactly when a `Completed` slot meets a tracked record
      that was not yet uploaded, and then exactly once, however many such
      slots the history holds. */
  lemma {:induction false} HistoryCompletions(jobs: Registry, hs: seq<HistorySlot>, id: string)
    ensures multiset(HistoryPass(jobs, hs).actions)[Complete(id)] ==
      if id in jobs && !jobs[id].uploaded && Reported(hs, id, "Completed") then 1 else 0
    decreases |hs|
  {
    if hs != [] {
      var p := hs[..|hs| - 1];
      HistoryCompletions(jobs, p, id);
      ReportedLast(hs, id, "Completed");
      if id in jobs {
        HistoryPassRecord(jobs, p, id);
      }
    }
  }

  /** Every `Failed` slot of a tracked job emits its `Error`, with the slot's
      message, in snapshot order, whatever the record says: there is no gate. */
  lemma {:induction false} HistoryErrors(jobs: Registry, hs: seq<HistorySlot>)
    ensures Filter(IsError, HistoryPass(jobs, hs).actions) == FailureReports(jobs.Keys, hs)
    decreases |hs|
  {
    if hs != [] {
      var before := HistoryPass(jobs, hs[..|hs| - 1]);
      var step := HistoryStep(before.jobs, hs[|hs| - 1]);
      HistoryErrors(jobs, hs[..|hs| - 1]);
      FilterAppend(IsError, before.actions, step.actions);
    }
  }

  /** A history pass keeps every record well formed. */
  lemma {:induction false} HistoryPassWellFormed(jobs: Registry, hs: seq<HistorySlot>)
    requires AllWellFormed(jobs)
    ensures AllWellFormed(HistoryPass(jobs, hs).jobs)
  {
    forall id | id in HistoryPass(jobs, hs).jobs
      ensures WellFormed(HistoryPass(jobs, hs).jobs[id])
    {
      HistoryPassRecord(jobs, hs, id);
    }
  }

  /** The stored status is compared but never updated by a progress slot, and
      a well-formed record never holds a progress status, so every progress
      slot of a tracked job emits its `ChangeStatus`, on every tick. */
  lemma {:induction false} HistoryStatusChanges(jobs: Registry, hs: seq<HistorySlot>)
    requires AllWellFormed(jobs)
    ensures Filter(IsChange, HistoryPass(jobs, hs).actions) == ProgressReports(jobs.Keys, hs)
    decreases |hs|
  {
    if hs != [] {
      var p, h := hs[..|hs| - 1], hs[|hs| - 1];
      var before := HistoryPass(jobs, p);
      var step := HistoryStep(before.jobs, h);
      HistoryStatusChanges(jobs, p);
      HistoryPassWellFormed(jobs, p);
      FilterAppend(IsChange, before.actions, step.actions);
      HistoryStepChange(before.jobs, h);
    }
  }

  lemma FilterSingle(keep: Action -> bool, a: Action)
    ensures Filter(keep, [a]) == if keep(a) then [a] else []
  {
    assert [a][..0] == [];
  }

  /** No stored status of a well-formed record is a progress status, nor is
      a terminal one. */
  lemma NotIntermediate(st: string)
    requires st in ["Completed", "Downloading", "Failed"]
    ensures !IsIntermediate(st)
  {
  }

  lemma HistoryStepChange(jobs: Registry, h: HistorySlot)
    requires AllWellFormed(jobs)
    ensures Filter(IsChange, HistoryStep(jobs, h).actions)
         == if h.nzoId in jobs && IsIntermediate(h.status) then [ChangeStatus(h.nzoId, h.status)] else []
  {
    var acts := HistoryStep(jobs, h).actions;
    var id := h.nzoId;
    if id !in jobs {
      assert acts == [];
    } else if h.status == "Completed" || h.status == "Failed" {
      NotIntermediate(h.status);
      if acts != [] {
        FilterSingle(IsChange, acts[0]);
        assert acts == [acts[0]];
      }
    } else if IsIntermediate(h.status) {
      assert WellFormed(jobs[id]);
      NotIntermediate(jobs[id].status);
      assert acts == [ChangeStatus(id, h.status)];
      FilterSingle(IsChange, acts[0]);
    } else {
      assert acts == [];
    }
  }

  /** A progress slot whose status equals the stored one emits nothing, as
      long as no `Completed` slot has changed the stored status. */
  lemma {:induction false} EqualStatusSilent(jobs: Registry, hs: seq<HistorySlot>, id: string)
    requires id in jobs && !Reported(hs, id, "Completed")
    ensures ChangeStatus(id, jobs[id].status) !in HistoryPass(jobs, hs).actions
    decreases |hs|
  {
    if hs != [] {
      var p := hs[..|hs| - 1];
      ReportedLast(hs, id, "Completed");
      EqualStatusSilent(jobs, p, id);
      HistoryPassRecord(jobs, p, id);
    }
  }

  // ---------------------------------------------------------------------
  // The queue pass

  /** A queue pass changes a record only by setting `stopDupCheck`, and only
      when a triggering slot meets a record whose flag is still clear. */
  lemma {:induction false} QueuePassRecord(jobs: Registry, qs: seq<QueueSlot>, id: string)
    requires id in jobs
    ensures id in QueuePass(jobs, qs).jobs
    ensures QueuePass(jobs, qs).jobs[id] ==
      if jobs[id].stopDupCheck || !Triggered(qs, id) then jobs[id]
      else jobs[id].(stopDupCheck := true)
    decreases |qs|
  {
    if qs != [] {
      QueuePassRecord(jobs, qs[..|qs| - 1], id);
      TriggeredLast(qs, id);
    }
  }

  /** The queue emits only `DupCheck(x)` immediately followed by
      `SizeCheck(x)`. */
  lemma {:induction false} QueuePassPairs(jobs: Registry, qs: seq<QueueSlot>)
    ensures CheckPairs(QueuePass(jobs, qs).actions)
    decreases |qs|
  {
    if qs != [] {
      var p, q := qs[..|qs| - 1], qs[|qs| - 1];
      QueuePassPairs(jobs, p);
      var before := QueuePass(jobs, p);
      var step := QueueStep(before.jobs, q);
      var acts := before.actions + step.actions;
      if step.actions != [] {
        assert acts[..|acts| - 2] == before.actions;
      } else {
        assert acts == before.actions;
      }
    }
  }

  /** Every queue action is a check for a tracked job with a triggering slot. */
  lemma {:induction false} QueuePassActions(jobs: Registry, qs: seq<QueueSlot>)
    ensures forall a :: a in QueuePass(jobs, qs).actions ==>
      a.id in jobs && (a.DupCheck? || a.SizeCheck?) && Triggered(qs, a.id)
    decreases |qs|
  {
    if qs != [] {
      var p, q := qs[..|qs| - 1], qs[|qs| - 1];
      assert qs == p + [q];
      QueuePassActions(jobs, p);
    }
  }

  /** The duplicate and size checks fire exactly when a triggering slot meets
      a tracked record whose flag is clear, and then exactly once each. */
  lemma {:induction false} QueueChecks(jobs: Registry, qs: seq<QueueSlot>, id: string)
    ensures var acts := multiset(QueuePass(jobs, qs).actions);
      var n := if id in jobs && !jobs[id].stopDupCheck && Triggered(qs, id) then 1 else 0;
      acts[DupCheck(id)] == n && acts[SizeCheck(id)] == n
    decreases |qs|
  {
    if qs != [] {
      var p := qs[..|qs| - 1];
      QueueChecks(jobs, p, id);
      TriggeredLast(qs, id);
      if id in jobs {
        QueuePassRecord(jobs, p, id);
      }
    }
  }

  // ---------------------------------------------------------------------
  // A whole tick

  /** What a tick does to a tracked record: `uploaded` and `stopDupCheck`
      only ever go from false to true, each exactly when its slot is seen,
      and `status` changes only to "Completed" together with `uploaded`. */
  lemma TickRecord(jobs: Registry, history: seq<HistorySlot>, queue: seq<QueueSlot>, id: string)
    requires id in jobs
    ensures var r := TickOutcome(jobs, history, queue);
      var j := jobs[id];
      var completes := !j.uploaded && Reported(history, id, "Completed");
      id in r.jobs &&
      r.jobs[id] == Job(j.uploaded || completes,
                        j.stopDupCheck || Triggered(queue, id),
                        if completes then "Completed" else j.status)
  {
    var h := HistoryPass(jobs, history);
    HistoryPassRecord(jobs, history, id);
    QueuePassRecord(h.jobs, queue, id);
  }

  /** A tick keeps every record well formed. */
  lemma TickWellFormed(jobs: Registry, history: seq<HistorySlot>, queue: seq<QueueSlot>)
    requires AllWellFormed(jobs)
    ensures AllWellFormed(TickOutcome(jobs, history, queue).jobs)
  {
    var r := TickOutcome(jobs, history, queue);
    forall id | id in r.jobs ensures WellFormed(r.jobs[id]) {
      TickRecord(jobs, history, queue, id);
    }
  }

  /** Every action of a tick is about a tracked job. */
  lemma TickActionsTracked(jobs: Registry, history: seq<HistorySlot>, queue: seq<QueueSlot>)
    ensures forall a :: a in TickOutcome(jobs, history, queue).actions ==> a.id in jobs
  {
    if jobs != map[] {
      var h := HistoryPass(jobs, history);
      HistoryPassActions(jobs, history);
      QueuePassActions(h.jobs, queue);
    }
  }

  /** The history's actions come first, then the queue's duplicate/size
      pairs. */
  lemma TickActionOrder(jobs: Registry, history: seq<HistorySlot>, queue: seq<QueueSlot>)
    ensures var r := TickOutcome(jobs, history, queue);
      exists k :: 0 <= k <= |r.actions| && CheckPairs(r.actions[k..]) &&
        forall i :: 0 <= i < k ==> !r.actions[i].DupCheck? && !r.actions[i].SizeCheck?
  {
    var r := TickOutcome(jobs, history, queue);
    if r.stop {
      assert r.actions[0..] == [];
    } else {
      var h := HistoryPass(jobs, history);
      var q := QueuePass(h.jobs, queue);
      HistoryPassActions(jobs, history);
      QueuePassPairs(h.jobs, queue);
      var k := |h.actions|;
      assert r.actions[k..] == q.actions;
      forall i | 0 <= i < k ensures !r.actions[i].DupCheck? && !r.actions[i].SizeCheck? {
        assert r.actions[i] == h.actions[i];
      }
    }
  }

  /** Completion fires at most once per tick, and only for a tracked job that
      this very tick marks as uploaded. */
  lemma TickCompletions(jobs: Registry, history: seq<HistorySlot>, queue: seq<QueueSlot>, id: string)
    ensures var r := TickOutcome(jobs, history, queue);
      multiset(r.actions)[Complete(id)] ==
        if id in jobs && !jobs[id].uploaded && r.jobs[id].uploaded then 1 else 0
  {
    var r := TickOutcome(jobs, history, queue);
    if !r.stop {
      var h := HistoryPass(jobs, history);
      HistoryCompletions(jobs, history, id);
      QueuePassActions(h.jobs, queue);
      assert Complete(id) !in QueuePass(h.jobs, queue).actions;
      if id in jobs {
        TickRecord(jobs, history, queue, id);
      }
    }
  }

  /** The duplicate and size checks fire at most once each per tick, and only
      for a tracked job whose flag this very tick sets. */
  lemma TickChecks(jobs: Registry, history: seq<HistorySlot>, queue: seq<QueueSlot>, id: string)
    ensures var r := TickOutcome(jobs, history, queue);
      var n := if id in jobs && !jobs[id].stopDupCheck && r.jobs[id].stopDupCheck then 1 else 0;
      multiset(r.actions)[DupCheck(id)] == n && multiset(r.actions)[SizeCheck(id)] == n
  {
    var r := TickOutcome(jobs, history, queue);
    if !r.stop {
      var h := HistoryPass(jobs, history);
      HistoryPassActions(jobs, history);
      assert DupCheck(id) !in h.actions && SizeCheck(id) !in h.actions;
      QueueChecks(h.jobs, queue, id);
      if id in jobs {
        HistoryPassRecord(jobs, history, id);
        TickRecord(jobs, history, queue, id);
      }
    }
  }

  /** The `Error` actions of a tick are exactly the failed slots of tracked
      jobs, in snapshot order. */
  lemma TickErrors(jobs: Registry, history: seq<HistorySlot>, queue: seq<QueueSlot>)
    ensures Filter(IsError, TickOutcome(jobs, history, queue).actions) == FailureReports(jobs.Keys, history)
  {
    if jobs == map[] {
      FailureReportsUntracked(jobs.Keys, history);
    } else {
      var h := HistoryPass(jobs, history);
      var q := QueuePass(h.jobs, queue);
      HistoryErrors(jobs, history);
      QueuePassActions(h.jobs, queue);
      FilterAppend(IsError, h.actions, q.actions);
      FilterNone(IsError, q.actions);
    }
  }

  lemma {:induction false} FailureReportsCover(keys: set<string>, hs: seq<HistorySlot>, h: HistorySlot)
    requires h in hs && h.nzoId in keys && h.status == "Failed"
    ensures Error(h.nzoId, h.failMessage) in FailureReports(keys, hs)
    decreases |hs|
  {
    var p := hs[..|hs| - 1];
    assert hs == p + [hs[|hs| - 1]];
    if h != hs[|hs| - 1] {
      FailureReportsCover(keys, p, h);
    }
  }

  /** A `Failed` slot of a tracked job emits its `Error` on every tick that
      sees it, whatever earlier ticks did. */
  lemma TickFailedReported(jobs: Registry, history: seq<HistorySlot>, queue: seq<QueueSlot>, h: HistorySlot)
    requires h in history && h.nzoId in jobs && h.status == "Failed"
    ensures Error(h.nzoId, h.failMessage) in TickOutcome(jobs, history, queue).actions
  {
    TickErrors(jobs, history, queue);
    FailureReportsCover(jobs.Keys, history, h);
  }

  /** From a well-formed registry, the `ChangeStatus` actions of a tick are
      exactly the progress slots of tracked jobs, in snapshot order. */
  lemma TickStatusChanges(jobs: Registry, history: seq<HistorySlot>, queue: seq<QueueSlot>)
    requires AllWellFormed(jobs)
    ensures Filter(IsChange, TickOutcome(jobs, history, queue).actions) == ProgressReports(jobs.Keys, history)
  {
    if jobs == map[] {
      ProgressReportsUntracked(jobs.Keys, history);
    } else {
      var h := HistoryPass(jobs, history);
      var q := QueuePass(h.jobs, queue);
      HistoryStatusChanges(jobs, history);
      QueuePassActions(h.jobs, queue);
      FilterAppend(IsChange, h.actions, q.actions);
      FilterNone(IsChange, q.actions);
    }
  }

  lemma {:induction false} FilterNone(keep: Action -> bool, acts: seq<Action>)
    requires forall a :: a in acts ==> !keep(a)
    ensures Filter(keep, acts) == []
    decreases |acts|
  {
    if acts != [] {
      assert acts == acts[..|acts| - 1] + [acts[|acts| - 1]];
      FilterNone(keep, acts[..|acts| - 1]);
    }
  }

  lemma {:induction false} FailureReportsUntracked(keys: set<string>, hs: seq<HistorySlot>)
    requires keys == {}
    ensures FailureReports(keys, hs) == []
    decreases |hs|
  {
    if hs != [] { FailureReportsUntracked(keys, hs[..|hs| - 1]); }
  }

  lemma {:induction false} ProgressReportsUntracked(keys: set<string>, hs: seq<HistorySlot>)
    requires keys == {}
    ensures ProgressReports(keys, hs) == []
    decreases |hs|
  {
    if hs != [] { ProgressReportsUntracked(keys, hs[..|hs| - 1]); }
  }

  // ---------------------------------------------------------------------
  // Untracked slots are skipped

  lemma HistoryPassSnoc(jobs: Registry, p: seq<HistorySlot>, h: HistorySlot)
    ensures var before := HistoryPass(jobs, p);
      HistoryPass(jobs, p + [h])
        == Pass(HistoryStep(before.jobs, h).jobs, before.actions + HistoryStep(before.jobs, h).actions)
  {
    assert (p + [h])[..|p|] == p;
  }

  lemma QueuePassSnoc(jobs: Registry, p: seq<QueueSlot>, q: QueueSlot)
    ensures var before := QueuePass(jobs, p);
      QueuePass(jobs, p + [q])
        == Pass(QueueStep(before.jobs, q).jobs, before.actions + QueueStep(before.jobs, q).actions)
  {
    assert (p + [q])[..|p|] == p;
  }

  lemma {:induction false} HistoryIgnoresUntracked(jobs: Registry, hs: seq<HistorySlot>)
    ensures HistoryPass(jobs, hs) == HistoryPass(jobs, TrackedHistory(jobs.Keys, hs))
    decreases |hs|
  {
    if hs != [] {
      var p, h := hs[..|hs| - 1], hs[|hs| - 1];
      var tp := TrackedHistory(jobs.Keys, p);
      assert hs == p + [h];
      HistoryIgnoresUntracked(jobs, p);
      HistoryPassSnoc(jobs, p, h);
      var before := HistoryPass(jobs, p);
      if h.nzoId in jobs {
        assert TrackedHistory(jobs.Keys, hs) == tp + [h];
        HistoryPassSnoc(jobs, tp, h);
      } else {
        assert TrackedHistory(jobs.Keys, hs) == tp;
        assert before.actions + [] == before.actions;
      }
    }
  }

  lemma {:induction false} QueueIgnoresUntracked(jobs: Registry, qs: seq<QueueSlot>)
    ensures QueuePass(jobs, qs) == QueuePass(jobs, TrackedQueue(jobs.Keys, qs))
    decreases |qs|
  {
    if qs != [] {
      var p, q := qs[..|qs| - 1], qs[|qs| - 1];
      var tp := TrackedQueue(jobs.Keys, p);
      assert qs == p + [q];
      QueueIgnoresUntracked(jobs, p);
      QueuePassSnoc(jobs, p, q);
      var before := QueuePass(jobs, p);
      if q.nzoId in jobs {
        assert TrackedQueue(jobs.Keys, qs) == tp + [q];
        QueuePassSnoc(jobs, tp, q);
      } else {
        assert TrackedQueue(jobs.Keys, qs) == tp;
        assert before.actions + [] == before.actions;
      }
    }
  }

  /** Slots whose id is not in the registry are skipped: dropping them from
      both snapshots changes neither the new registry nor the actions. */
  lemma TickIgnoresUntracked(jobs: Registry, history: seq<HistorySlot>, queue: seq<QueueSlot>)
    ensures TickOutcome(jobs, history, queue)
         == TickOutcome(jobs, TrackedHistory(jobs.Keys, history), TrackedQueue(jobs.Keys, queue))
  {
    if jobs != map[] {
      var h := HistoryPass(jobs, history);
      HistoryIgnoresUntracked(jobs, history);
      QueueIgnoresUntracked(h.jobs, queue);
    }
  }

  /** The duplicate and the size policy consulted for one job: one error task
      per policy that refuses, each naming the job with a non-empty message. */
  lemma CheckFollowUps(id: string, dup: PolicyAnswer, size: PolicyAnswer)
    ensures var r := PolicyFollowUp(id, dup) + PolicyFollowUp(id, size);
      |r| == (if Refuses(dup) then 1 else 0) + (if Refuses(size) then 1 else 0)
      && forall a :: a in r ==> a.Error? && a.id == id && a.msg != ""
  {
  }

  /** The error tasks the policies spawn for the checks among `acts`, in
      order: a `DupCheck` consults the duplicate policy, a `SizeCheck` the
      size policy. */
  function FollowUps(acts: seq<Action>, dup: string -> PolicyAnswer, size: string -> PolicyAnswer): (r: seq<Action>)
    ensures forall a :: a in r ==> a.Error? && a.msg != "" && (DupCheck(a.id) in acts || SizeCheck(a.id) in acts)
    decreases |acts|
  {
    if acts == [] then []
    else
      var a := acts[|acts| - 1];
      var more := match a
        case DupCheck(x) => PolicyFollowUp(x, dup(x))
        case SizeCheck(x) => PolicyFollowUp(x, size(x))
        case _ => [];
      FollowUps(acts[..|acts| - 1], dup, size) + more
  }

  /** A policy refusal after a tick can only concern a job whose checks that
      tick started: it was tracked with its flag clear, and the tick set it. */
  lemma TickPolicyErrors(jobs: Registry, history: seq<HistorySlot>, queue: seq<QueueSlot>,
                         dup: string -> PolicyAnswer, size: string -> PolicyAnswer)
    ensures var r := TickOutcome(jobs, history, queue);
      forall a :: a in FollowUps(r.actions, dup, size) ==>
        a.id in jobs && !jobs[a.id].stopDupCheck && a.id in r.jobs && r.jobs[a.id].stopDupCheck
  {
    var r := TickOutcome(jobs, history, queue);
    forall a | a in FollowUps(r.actions, dup, size)
      ensures a.id in jobs && !jobs[a.id].stopDupCheck && a.id in r.jobs && r.jobs[a.id].stopDupCheck
    {
      TickChecks(jobs, history, queue, a.id);
    }
  }
}
