/**
 Runs of the registry: registrations, ticks and removals in any order, as the
 detached tasks of the listener may interleave them. What is proved here holds
 for every such interleaving, so in particular for the ones the event loop can
 produce.
 */
module NzbTrace {
  import opened NzbTick
  import opened NzbTickFacts

  /** One thing that happens to the registry. */
  datatype Event =
    | Start(id: string)                                       // onDownloadStart
    | Poll(history: seq<HistorySlot>, queue: seq<QueueSlot>)  // one tick on fetched snapshots
    | Remove(id: string)                                      // _remove_job, or the eviction of _onDownloadError

  function Apply(jobs: Registry, e: Event): Pass
  {
    match e
    case Start(id) => Pass(Register(jobs, id), [])
    case Poll(history, queue) =>
      var r := TickOutcome(jobs, history, queue);
      Pass(r.jobs, r.actions)
    case Remove(id) => Pass(Evict(jobs, id), [])
  }

  /** The registry after the events, with every action the ticks emitted. */
  function Run(jobs: Registry, evs: seq<Event>): Pass
    decreases |evs|
  {
    if evs == [] then Pass(jobs, [])
    else
      var before := Run(jobs, evs[..|evs| - 1]);
      var step := Apply(before.jobs, evs[|evs| - 1]);
      Pass(step.jobs, before.actions + step.actions)
  }

  /** 1 when the job is registered and its completion has not fired yet. */
  function PendingCompletion(jobs: Registry, id: string): nat
  {
    if id in jobs && !jobs[id].uploaded then 1 else 0
  }

  /** 1 when the job is registered and its checks have not fired yet. */
  function PendingChecks(jobs: Registry, id: string): nat
  {
    if id in jobs && !jobs[id].stopDupCheck then 1 else 0
  }

  lemma ApplyCompletion(jobs: Registry, e: Event, id: string)
    ensures var r := Apply(jobs, e);
      multiset(r.actions)[Complete(id)] + PendingCompletion(r.jobs, id)
        <= PendingCompletion(jobs, id) + (if e == Start(id) then 1 else 0)
  {
    if e.Poll? {
      TickCompletions(jobs, e.history, e.queue, id);
      if id in jobs {
        TickRecord(jobs, e.history, e.queue, id);
      }
    }
  }

  lemma ApplyChecks(jobs: Registry, e: Event, id: string, check: Action)
    requires check == DupCheck(id) || check == SizeCheck(id)
    ensures var r := Apply(jobs, e);
      multiset(r.actions)[check] + PendingChecks(r.jobs, id)
        <= PendingChecks(jobs, id) + (if e == Start(id) then 1 else 0)
  {
    if e.Poll? {
      TickChecks(jobs, e.history, e.queue, id);
      if id in jobs {
        TickRecord(jobs, e.history, e.queue, id);
      }
    }
  }

  /** How many times the events register `id`. */
  function Registrations(evs: seq<Event>, id: string): nat
    decreases |evs|
  {
    if evs == [] then 0
    else Registrations(evs[..|evs| - 1], id) + (if evs[|evs| - 1] == Start(id) then 1 else 0)
  }

  /** Every completion of a job is paid for by a registration: the number of
      `Complete(id)` actions, plus one if a completion is still pending at the
      end, never exceeds the registrations of `id` plus one if a completion
      was pending at the start. */
  lemma {:induction false} CompletionBudget(jobs: Registry, evs: seq<Event>, id: string)
    ensures var r := Run(jobs, evs);
      multiset(r.actions)[Complete(id)] + PendingCompletion(r.jobs, id)
        <= PendingCompletion(jobs, id) + Registrations(evs, id)
    decreases |evs|
  {
    if evs != [] {
      var p, e := evs[..|evs| - 1], evs[|evs| - 1];
      CompletionBudget(jobs, p, id);
      var before := Run(jobs, p);
      var step := Apply(before.jobs, e);
      ApplyCompletion(before.jobs, e, id);
      assert Run(jobs, evs).actions == before.actions + step.actions;
      assert multiset(Run(jobs, evs).actions)[Complete(id)]
          == multiset(before.actions)[Complete(id)] + multiset(step.actions)[Complete(id)];
    }
  }

  /** The same budget for the duplicate check and for the size check. */
  lemma {:induction false} CheckBudget(jobs: Registry, evs: seq<Event>, id: string, check: Action)
    requires check == DupCheck(id) || check == SizeCheck(id)
    ensures var r := Run(jobs, evs);
      multiset(r.actions)[check] + PendingChecks(r.jobs, id)
        <= PendingChecks(jobs, id) + Registrations(evs, id)
    decreases |evs|
  {
    if evs != [] {
      var p, e := evs[..|evs| - 1], evs[|evs| - 1];
      CheckBudget(jobs, p, id, check);
      var before := Run(jobs, p);
      var step := Apply(before.jobs, e);
      ApplyChecks(before.jobs, e, id, check);
      assert Run(jobs, evs).actions == before.actions + step.actions;
      assert multiset(Run(jobs, evs).actions)[check]
          == multiset(before.actions)[check] + multiset(step.actions)[check];
    }
  }

  lemma {:induction false} NoRegistrations(evs: seq<Event>, id: string)
    requires Start(id) !in evs
    ensures Registrations(evs, id) == 0
    decreases |evs|
  {
    if evs != [] {
      assert evs == evs[..|evs| - 1] + [evs[|evs| - 1]];
      NoRegistrations(evs[..|evs| - 1], id);
    }
  }

  /** Between one registration of a job and the next, its completion fires
      at most once, whatever ticks and removals happen. */
  lemma CompletesOncePerRegistration(jobs: Registry, id: string, evs: seq<Event>)
    requires Start(id) !in evs
    ensures multiset(Run(Register(jobs, id), evs).actions)[Complete(id)] <= 1
  {
    CompletionBudget(Register(jobs, id), evs, id);
    NoRegistrations(evs, id);
  }

  /** Between one registration of a job and the next, its duplicate check and
      its size check fire at most once each. */
  lemma ChecksOncePerRegistration(jobs: Registry, id: string, evs: seq<Event>)
    requires Start(id) !in evs
    ensures var r := Run(Register(jobs, id), evs);
      multiset(r.actions)[DupCheck(id)] <= 1 && multiset(r.actions)[SizeCheck(id)] <= 1
  {
    CheckBudget(Register(jobs, id), evs, id, DupCheck(id));
    CheckBudget(Register(jobs, id), evs, id, SizeCheck(id));
    NoRegistrations(evs, id);
  }

  /** Once a job is uploaded, no later tick completes it again unless it is
      registered anew. */
  lemma NoCompletionAfterUpload(jobs: Registry, id: string, evs: seq<Event>)
    requires id in jobs && jobs[id].uploaded && Start(id) !in evs
    ensures Complete(id) !in Run(jobs, evs).actions
  {
    CompletionBudget(jobs, evs, id);
    NoRegistrations(evs, id);
  }

  /** A job that is not registered, and is not registered again, is never
      processed: it stays absent and no action names it. */
  lemma {:induction false} UntrackedNeverProcessed(jobs: Registry, evs: seq<Event>, id: string)
    requires id !in jobs && Start(id) !in evs
    ensures id !in Run(jobs, evs).jobs
    ensures forall a :: a in Run(jobs, evs).actions ==> a.id != id
    decreases |evs|
  {
    if evs != [] {
      var p, e := evs[..|evs| - 1], evs[|evs| - 1];
      assert evs == p + [e];
      UntrackedNeverProcessed(jobs, p, id);
      var before := Run(jobs, p);
      if e.Poll? {
        TickActionsTracked(before.jobs, e.history, e.queue);
      }
    }
  }

  /** Every registry reachable from a well-formed one is well formed. */
  lemma {:induction false} RunWellFormed(jobs: Registry, evs: seq<Event>)
    requires AllWellFormed(jobs)
    ensures AllWellFormed(Run(jobs, evs).jobs)
    decreases |evs|
  {
    if evs != [] {
      var p, e := evs[..|evs| - 1], evs[|evs| - 1];
      RunWellFormed(jobs, p);
      var before := Run(jobs, p);
      if e.Poll? {
        TickWellFormed(before.jobs, e.history, e.queue);
      }
    }
  }

  lemma HistoryPassOne(jobs: Registry, h: HistorySlot)
    ensures HistoryPass(jobs, [h]) == HistoryStep(jobs, h)
  {
    assert [h][..0] == [];
    assert [] + HistoryStep(jobs, h).actions == HistoryStep(jobs, h).actions;
  }

  lemma QueuePassOne(jobs: Registry, q: QueueSlot)
    ensures QueuePass(jobs, [q]) == QueueStep(jobs, q)
  {
    assert [q][..0] == [];
    assert [] + QueueStep(jobs, q).actions == QueueStep(jobs, q).actions;
  }

  /** The ticks of the completed-job scenario, one at a time: the
      placeholder name changes nothing, the real name starts the checks, the
      completion fires once, and is not repeated. */
  lemma CompletedJobTicks(id: string, placeholder: string, name: string, msg: string)
    requires "Trying" <= placeholder && !("Trying" <= name)
    ensures var j0 := map[id := FreshJob];
      Apply(j0, Poll([], [QueueSlot(id, "Downloading", placeholder)])) == Pass(j0, [])
    ensures Apply(map[id := FreshJob], Poll([], [QueueSlot(id, "Downloading", name)]))
         == Pass(map[id := Job(false, true, "Downloading")], [DupCheck(id), SizeCheck(id)])
    ensures Apply(map[id := Job(false, true, "Downloading")],
                  Poll([HistorySlot(id, "Completed", msg)], [QueueSlot(id, "Downloading", name)]))
         == Pass(map[id := Job(true, true, "Completed")], [Complete(id)])
    ensures var j3 := map[id := Job(true, true, "Completed")];
      Apply(j3, Poll([HistorySlot(id, "Completed", msg)], [])) == Pass(j3, [])
  {
    var q1 := QueueSlot(id, "Downloading", placeholder);
    var q2 := QueueSlot(id, "Downloading", name);
    var done := HistorySlot(id, "Completed", msg);
    var j0 := map[id := FreshJob];
    var j2 := map[id := Job(false, true, "Downloading")];
    var j3 := map[id := Job(true, true, "Completed")];
    assert Apply(j0, Poll([], [q1])) == Pass(j0, []) by {
      QueuePassOne(j0, q1);
    }
    assert Apply(j0, Poll([], [q2])) == Pass(j2, [DupCheck(id), SizeCheck(id)]) by {
      QueuePassOne(j0, q2);
    }
    assert Apply(j2, Poll([done], [q2])) == Pass(j3, [Complete(id)]) by {
      HistoryPassOne(j2, done);
      assert HistoryStep(j2, done) == Pass(j3, [Complete(id)]);
      QueuePassOne(j3, q2);
      assert [Complete(id)] + [] == [Complete(id)];
    }
    assert Apply(j3, Poll([done], [])) == Pass(j3, []) by {
      HistoryPassOne(j3, done);
    }
  }

  /** A job is registered, a placeholder name ("Trying...") is seen, then
      its real name, then its completion on two ticks, and it is removed: the
      checks fire once, the completion fires once, and the registry ends
      empty. */
  lemma CompletedJobScenario(id: string, placeholder: string, name: string, msg: string)
    requires "Trying" <= placeholder && !("Trying" <= name)
    ensures var s0 := Apply(map[], Start(id));
      var s1 := Apply(s0.jobs, Poll([], [QueueSlot(id, "Downloading", placeholder)]));
      var s2 := Apply(s1.jobs, Poll([], [QueueSlot(id, "Downloading", name)]));
      var s3 := Apply(s2.jobs, Poll([HistorySlot(id, "Completed", msg)], [QueueSlot(id, "Downloading", name)]));
      var s4 := Apply(s3.jobs, Poll([HistorySlot(id, "Completed", msg)], []));
      var s5 := Apply(s4.jobs, Remove(id));
      && s0.actions + s1.actions + s2.actions + s3.actions + s4.actions + s5.actions
           == [DupCheck(id), SizeCheck(id), Complete(id)]
      && s5.jobs == map[]
  {
    CompletedJobTicks(id, placeholder, name, msg);
    assert Apply(map[], Start(id)) == Pass(map[id := FreshJob], []);
  }

  /** A failed job is reported on every tick until it is removed; after the
      removal the next tick sees an empty registry and stops. */
  lemma FailedJobScenario(id: string, msg: string)
    ensures var failed := [HistorySlot(id, "Failed", msg)];
      var s0 := Apply(map[], Start(id));
      var s1 := Apply(s0.jobs, Poll(failed, []));
      var s2 := Apply(s1.jobs, Poll(failed, []));
      var s3 := Apply(s2.jobs, Remove(id));
      && s0.actions + s1.actions + s2.actions + s3.actions == [Error(id, msg), Error(id, msg)]
      && s2.jobs == map[id := FreshJob]
      && TickOutcome(s3.jobs, failed, []).stop
  {
    var failed := [HistorySlot(id, "Failed", msg)];
    var j0 := map[id := FreshJob];
    HistoryPassOne(j0, failed[0]);
    assert Apply(j0, Poll(failed, [])) == Pass(j0, [Error(id, msg)]);
  }
}
