/**
 The scheduler as the daemon runs it: objects updated in place, loops over what Docker lists.
 Each method is proved against the functions of Scheduler.dfy, Adoption.dfy and DaemonRuns.dfy.
 The three locked objects are one `State` to the specifications (`View`).
 */
module Daemon {
  import opened Text
  import opened Gate
  import opened Scheduler
  import A = Adoption
  import R = DaemonRuns

  class StartQueue {
    var ids: seq<JobId>

    constructor ()
      ensures ids == []
    {
      ids := [];
    }

    method Push(j: JobId)
      modifies this
      ensures ids == old(ids) + [j]
    {
      ids := ids + [j];
    }

    /** Retains every other job, in order. */
    method Remove(j: JobId)
      modifies this
      ensures ids == Without(old(ids), {j})
    {
      var kept, i := [], |ids|;
      while 0 < i
        invariant 0 <= i <= |ids| && ids == old(ids)
        invariant kept == Without(ids[i..], {j})
      {
        i := i - 1;
        assert ids[i..] == [ids[i]] + ids[i + 1..];
        if ids[i] != j {
          kept := [ids[i]] + kept;
        }
      }
      assert ids[0..] == ids;
      ids := kept;
    }
  }

  class CreatedContainers {
    var ids: map<JobId, ContainerId>

    constructor ()
      ensures ids == map[]
    {
      ids := map[];
    }

    method Record(j: JobId, c: ContainerId)
      modifies this
      ensures ids == old(ids)[j := c]
    {
      ids := ids[j := c];
    }

    method Forget(j: JobId)
      modifies this
      ensures ids == old(ids) - {j}
    {
      ids := ids - {j};
    }
  }

  /** Reap tombstones and create claims; the scheduler only ever forgets entries here. */
  class JobRegistry {
    var known: set<JobId>

    constructor ()
      ensures known == {}
    {
      known := {};
    }

    method Forget(j: JobId)
      modifies this
      ensures known == old(known) - {j}
    {
      known := known - {j};
    }
  }

  ghost function View(gate: Gate, queue: StartQueue, created: CreatedContainers): State
    reads gate, queue, created
  {
    State(gate.budget, gate.queueMax, gate.jobs, queue.ids, created.ids)
  }

  /** Where the promotion loop stands after offering the first `i` pending jobs. */
  ghost predicate Promoting(budget: JobSize, jobs0: Jobs, pending: seq<JobId>, i: nat,
                            jobs: Jobs, ids: seq<JobId>, started: seq<JobId>)
    requires i <= |pending|
  {
    && started + StartedOf(budget, jobs, pending[i..]) == StartedOf(budget, jobs0, pending)
    && jobs == MarkRunning(jobs0, Elements(started))
    && ids == Without(pending, Elements(started))
  }

  lemma PromotingStep(budget: JobSize, jobs0: Jobs, pending: seq<JobId>, i: nat,
                      jobs: Jobs, ids: seq<JobId>, started: seq<JobId>)
    requires i < |pending| && Promoting(budget, jobs0, pending, i, jobs, ids, started)
    ensures var j := pending[i];
            if Starts(budget, jobs, j)
            then Promoting(budget, jobs0, pending, i + 1, jobs[j := Entry(jobs[j].size, true)], Without(ids, {j}),
                           started + [j])
            else Promoting(budget, jobs0, pending, i + 1, jobs, ids, started)
  {
    var j := pending[i];
    assert pending[i..][0] == j && pending[i..][1..] == pending[i + 1..];
    if Starts(budget, jobs, j) {
      var jobs' := jobs[j := Entry(jobs[j].size, true)];
      assert started + StartedOf(budget, jobs, pending[i..])
          == (started + [j]) + StartedOf(budget, jobs', pending[i + 1..]);
      WithoutTwice(pending, Elements(started), {j});
      MarkRunningStep(jobs0, Elements(started), j);
      assert Elements(started + [j]) == Elements(started) + {j};
    }
  }

  lemma PromotingBegins(budget: JobSize, jobs0: Jobs, pending: seq<JobId>)
    ensures Promoting(budget, jobs0, pending, 0, jobs0, pending, [])
  {
    WithoutNothing(pending, Elements([]));
    assert pending[0..] == pending;
    assert MarkRunning(jobs0, Elements([])) == jobs0;
  }

  lemma PromotingEnds(budget: JobSize, jobs0: Jobs, pending: seq<JobId>, jobs: Jobs, ids: seq<JobId>,
                      started: seq<JobId>)
    requires Promoting(budget, jobs0, pending, |pending|, jobs, ids, started)
    ensures started == StartedOf(budget, jobs0, pending)
    ensures jobs == MarkRunning(jobs0, Elements(started)) && ids == Without(pending, Elements(started))
  {
    assert pending[|pending|..] == [];
    assert started + [] == started;
  }

  method PromoteQueue(gate: Gate, queue: StartQueue) returns (started: seq<JobId>)
    modifies gate, queue
    ensures started == StartedOf(gate.budget, old(gate.jobs), old(queue.ids))
    ensures gate.jobs == MarkRunning(old(gate.jobs), Elements(started))
    ensures queue.ids == Without(old(queue.ids), Elements(started))
  {
    var pending := queue.ids;
    started := [];
    ghost var jobs0 := gate.jobs;
    PromotingBegins(gate.budget, jobs0, pending);
    var i := 0;
    while i < |pending|
      invariant 0 <= i <= |pending|
      invariant Promoting(gate.budget, jobs0, pending, i, gate.jobs, queue.ids, started)
    {
      PromotingStep(gate.budget, jobs0, pending, i, gate.jobs, queue.ids, started);
      var j := pending[i];
      var outcome := gate.TryStart(j);
      if outcome.Started? {
        queue.Remove(j);
        started := started + [j];
      }
      i := i + 1;
    }
    PromotingEnds(gate.budget, jobs0, pending, gate.jobs, queue.ids, started);
  }

  method ReleaseJob(gate: Gate, registry: JobRegistry, queue: StartQueue, created: CreatedContainers, j: JobId)
    returns (freed: Option<JobSize>)
    modifies gate, registry, queue, created
    ensures View(gate, queue, created) == ReleaseAll(old(View(gate, queue, created)), {j})
    ensures registry.known == old(registry.known) - {j}
    ensures freed == if j in old(gate.jobs) then Some(old(gate.jobs)[j].size) else None
  {
    freed := gate.Release(j);
    registry.Forget(j);
    created.Forget(j);
    queue.Remove(j);
  }

  /** `routes::handlers::release`, run without interruption: its three locked sections in turn. */
  method ReleaseRequest(gate: Gate, queue: StartQueue, created: CreatedContainers, j: JobId)
    modifies gate, queue, created
    ensures R.AtRest(View(gate, queue, created), [])
         == R.ReleasedNow(R.AtRest(old(View(gate, queue, created)), []), j)
  {
    R.ReleasedNowIsReleaseAll(R.AtRest(View(gate, queue, created), []), j);
    var _ := gate.Release(j);
    queue.Remove(j);
    created.Forget(j);
  }

  /** The jobs whose listed containers ended. */
  ghost function EndedJobs(snapshot: seq<Snapshot>, now: int, before: set<JobId>): set<JobId> {
    set e | e in snapshot && Ends(e, now, before) :: e.job
  }

  lemma EndedSnoc(snapshot: seq<Snapshot>, e: Snapshot, now: int, before: set<JobId>)
    ensures var ended, removed := EndedJobs(snapshot, now, before), Removals(snapshot, now, before);
            && EndedJobs(snapshot + [e], now, before) == (if Ends(e, now, before) then ended + {e.job} else ended)
            && Removals(snapshot + [e], now, before)
                == (if Ends(e, now, before) then removed + [e.container] else removed)
  {
    assert (snapshot + [e])[..|snapshot|] == snapshot;
  }

  ghost function Unlisted(snapshot: seq<Snapshot>, before: set<JobId>): set<JobId> {
    set j | j in before && forall e :: e in snapshot ==> e.job != j
  }

  /** Scheduler and registry with the jobs in `gone` dropped from both. */
  ghost predicate Dropped(s0: State, known0: set<JobId>, s: State, known: set<JobId>, gone: set<JobId>) {
    s == ReleaseAll(s0, gone) && known == known0 - gone
  }

  lemma NothingDropped(s: State, known: set<JobId>)
    ensures Dropped(s, known, s, known, {})
  {
    WithoutNothing(s.queue, {});
    assert s.jobs - {} == s.jobs && s.created - {} == s.created;
  }

  lemma DroppedMore(s0: State, known0: set<JobId>, s: State, known: set<JobId>, gone: set<JobId>, j: JobId)
    requires Dropped(s0, known0, s, known, gone)
    ensures Dropped(s0, known0, ReleaseAll(s, {j}), known - {j}, gone + {j})
  {
    ReleaseAllTwice(s0, gone, {j});
  }

  /** Pass one of a tick: every listed container that ended takes its job with it. */
  method ReleaseEnded(gate: Gate, registry: JobRegistry, queue: StartQueue, created: CreatedContainers,
                      snapshot: seq<Snapshot>, now: int, before: set<JobId>)
    returns (remove: seq<ContainerId>)
    modifies gate, registry, queue, created
    ensures remove == Removals(snapshot, now, before)
    ensures Dropped(old(View(gate, queue, created)), old(registry.known), View(gate, queue, created), registry.known,
                    EndedJobs(snapshot, now, before))
  {
    remove := [];
    ghost var s0, known0 := View(gate, queue, created), registry.known;
    NothingDropped(s0, known0);
    assert EndedJobs(snapshot[..0], now, before) == {};
    var i := 0;
    while i < |snapshot|
      invariant 0 <= i <= |snapshot|
      invariant remove == Removals(snapshot[..i], now, before)
      invariant Dropped(s0, known0, View(gate, queue, created), registry.known, EndedJobs(snapshot[..i], now, before))
    {
      var entry := snapshot[i];
      assert snapshot[..i + 1] == snapshot[..i] + [entry];
      EndedSnoc(snapshot[..i], entry, now, before);
      DroppedMore(s0, known0, View(gate, queue, created), registry.known, EndedJobs(snapshot[..i], now, before),
                  entry.job);
      var deadlinePassed := entry.deadlineMs <= now;
      var exitedOnItsOwn := !entry.running && entry.job in before;
      if deadlinePassed || exitedOnItsOwn {
        var _ := ReleaseJob(gate, registry, queue, created, entry.job);
        remove := remove + [entry.container];
      }
      i := i + 1;
    }
    assert snapshot[..i] == snapshot;
  }

  /** Pass two of a tick: a running job nothing lists has vanished. */
  method ReleaseUnlisted(gate: Gate, registry: JobRegistry, queue: StartQueue, created: CreatedContainers,
                         snapshot: seq<Snapshot>, before: set<JobId>)
    modifies gate, registry, queue, created
    ensures Dropped(old(View(gate, queue, created)), old(registry.known), View(gate, queue, created), registry.known,
                    Unlisted(snapshot, before))
  {
    var seen := set e | e in snapshot :: e.job;
    ghost var s0, known0 := View(gate, queue, created), registry.known;
    NothingDropped(s0, known0);
    var rest := before;
    assert (before - rest) - seen == {};
    while rest != {}
      invariant rest <= before
      invariant Dropped(s0, known0, View(gate, queue, created), registry.known, (before - rest) - seen)
      decreases |rest|
    {
      var j :| j in rest;
      ghost var gone := (before - rest) - seen;
      DroppedMore(s0, known0, View(gate, queue, created), registry.known, gone, j);
      if j !in seen {
        var _ := ReleaseJob(gate, registry, queue, created, j);
        assert (before - (rest - {j})) - seen == gone + {j};
      } else {
        assert (before - (rest - {j})) - seen == gone;
      }
      rest := rest - {j};
    }
    assert (before - rest) - seen == Unlisted(snapshot, before);
  }

  lemma DroppedInBothPasses(s0: State, known0: set<JobId>, s1: State, known1: set<JobId>, s2: State, known2: set<JobId>,
                            a: set<JobId>, b: set<JobId>)
    requires Dropped(s0, known0, s1, known1, a) && Dropped(s1, known1, s2, known2, b)
    ensures Dropped(s0, known0, s2, known2, a + b)
  {
    ReleaseAllTwice(s0, a, b);
  }

  method RunTick(gate: Gate, registry: JobRegistry, queue: StartQueue, created: CreatedContainers,
                 snapshot: seq<Snapshot>, now: int)
    returns (remove: seq<ContainerId>, start: seq<StartRequest>)
    modifies gate, registry, queue, created
    ensures Tick(View(gate, queue, created), remove, start) == Reconcile(old(View(gate, queue, created)), snapshot, now)
    ensures forall j :: j in registry.known
              <==> j in old(registry.known) && !LetGo(old(View(gate, queue, created)), snapshot, now, j)
  {
    ghost var s0, known0 := View(gate, queue, created), registry.known;
    var before := gate.RunningJobIds();
    assert before == RunningJobs(s0.jobs);
    remove := ReleaseEnded(gate, registry, queue, created, snapshot, now, before);
    ghost var s1, known1 := View(gate, queue, created), registry.known;
    ReleaseUnlisted(gate, registry, queue, created, snapshot, before);
    DroppedInBothPasses(s0, known0, s1, known1, View(gate, queue, created), registry.known,
                        EndedJobs(snapshot, now, before), Unlisted(snapshot, before));
    assert Doomed(s0, snapshot, now) == EndedJobs(snapshot, now, before) + Unlisted(snapshot, before);
    forall j ensures j in Doomed(s0, snapshot, now) <==> LetGo(s0, snapshot, now, j) {
      DoomedAreLetGo(s0, snapshot, now, j);
    }
    var promoted := PromoteQueue(gate, queue);
    start := CollectStarts(created, promoted);
  }

  /** The promoted jobs that have a recorded container, each with the request to start it. */
  method CollectStarts(created: CreatedContainers, promoted: seq<JobId>) returns (start: seq<StartRequest>)
    ensures start == StartRequests(created.ids, promoted)
  {
    start := [];
    var i := 0;
    while i < |promoted|
      invariant 0 <= i <= |promoted|
      invariant start == StartRequests(created.ids, promoted[..i])
    {
      assert promoted[..i + 1] == promoted[..i] + [promoted[i]];
      if promoted[i] in created.ids {
        start := start + [StartRequest(promoted[i], created.ids[promoted[i]])];
      }
      i := i + 1;
    }
    assert promoted[..i] == promoted;
  }

  method RequeueAfterFailedStart(gate: Gate, queue: StartQueue, ghost created: CreatedContainers, j: JobId)
    modifies gate, queue
    ensures View(gate, queue, created) == Requeue(old(View(gate, queue, created)), j)
  {
    var stillTracked := gate.Unstart(j);
    if !stillTracked {
      return;
    }
    queue.Push(j);
  }

  /** The state after the answers to all of these requests. */
  function AfterAnswers(s: State, requests: seq<StartRequest>, results: seq<R.StartResult>): State
    requires |results| == |requests|
  {
    if requests == [] then s
    else
      var n := |requests| - 1;
      R.AfterAnswer(AfterAnswers(s, requests[..n], results[..n]), requests[n].job, results[n])
  }

  /** The jobs whose containers Docker no longer had. */
  function Vanished(requests: seq<StartRequest>, results: seq<R.StartResult>): set<JobId>
    requires |results| == |requests|
  {
    if requests == [] then {}
    else
      var n := |requests| - 1;
      var rest := Vanished(requests[..n], results[..n]);
      if results[n] == R.NoSuchContainer then rest + {requests[n].job} else rest
  }

  /** The steps the daemon takes on one answer. */
  function AnswerEvents(result: R.StartResult): seq<R.Event> {
    if result == R.Transient then [R.StartAnswered(result), R.PushBack] else [R.StartAnswered(result)]
  }

  function Answered(results: seq<R.StartResult>): seq<R.Event> {
    if results == [] then []
    else Answered(results[..|results| - 1]) + AnswerEvents(results[|results| - 1])
  }

  lemma AnswerStep(d: R.Daemon, before: seq<R.Event>, s: State, requests: seq<StartRequest>, result: R.StartResult)
    requires requests != [] && R.Run(d, before) == R.AtRest(s, requests)
    ensures R.Run(d, before + AnswerEvents(result))
         == R.AtRest(R.AfterAnswer(s, requests[0].job, result), requests[1..])
  {
    var first := R.StartAnswered(result);
    R.AnswerAtRest(s, requests, result);
    R.RunSnoc(d, before, first);
    if result == R.Transient {
      R.RunSnoc(d, before + [first], R.PushBack);
      assert before + [first, R.PushBack] == (before + [first]) + [R.PushBack];
    }
  }

  /** Carrying out the requests is the run of Docker's answers, each with its push-back. */
  lemma {:induction false} AnswersAreARun(s: State, requests: seq<StartRequest>, results: seq<R.StartResult>,
                                          more: seq<StartRequest>)
    requires |results| == |requests|
    ensures R.Run(R.AtRest(s, requests + more), Answered(results)) == R.AtRest(AfterAnswers(s, requests, results), more)
    decreases |requests|
  {
    if requests == [] {
      assert requests + more == more;
    } else {
      var n := |requests| - 1;
      var rest := [requests[n]] + more;
      assert requests + more == requests[..n] + rest && rest[1..] == more;
      AnswersAreARun(s, requests[..n], results[..n], rest);
      AnswerStep(R.AtRest(s, requests + more), Answered(results[..n]), AfterAnswers(s, requests[..n], results[..n]),
                 rest, results[n]);
    }
  }

  /** What `start_promoted` does with one answer. */
  method ActOnAnswer(gate: Gate, registry: JobRegistry, queue: StartQueue, created: CreatedContainers,
                     j: JobId, result: R.StartResult)
    modifies gate, registry, queue, created
    ensures View(gate, queue, created) == R.AfterAnswer(old(View(gate, queue, created)), j, result)
    ensures registry.known == if result == R.NoSuchContainer then old(registry.known) - {j} else old(registry.known)
  {
    match result
    case Ok =>
    case Transient => RequeueAfterFailedStart(gate, queue, created, j);
    case NoSuchContainer => var _ := ReleaseJob(gate, registry, queue, created, j);
  }

  /** Docker's answer to the i-th start request is `results[i]`. */
  method StartPromoted(gate: Gate, registry: JobRegistry, queue: StartQueue, created: CreatedContainers,
                       requests: seq<StartRequest>, results: seq<R.StartResult>)
    requires |results| == |requests|
    modifies gate, registry, queue, created
    ensures View(gate, queue, created) == AfterAnswers(old(View(gate, queue, created)), requests, results)
    ensures registry.known == old(registry.known) - Vanished(requests, results)
  {
    ghost var s0 := View(gate, queue, created);
    var i := 0;
    while i < |requests|
      invariant 0 <= i <= |requests|
      invariant View(gate, queue, created) == AfterAnswers(s0, requests[..i], results[..i])
      invariant registry.known == old(registry.known) - Vanished(requests[..i], results[..i])
    {
      assert requests[..i + 1][..i] == requests[..i] && results[..i + 1][..i] == results[..i];
      ActOnAnswer(gate, registry, queue, created, requests[i].job, results[i]);
      i := i + 1;
    }
    assert requests[..i] == requests && results[..i] == results;
  }

  method AdoptAll(gate: Gate, queue: StartQueue, created: CreatedContainers, containers: seq<A.Container>, now: int)
    returns (resumed: seq<A.ArmedJob>, requeued: seq<A.ArmedJob>, remove: seq<ContainerId>)
    modifies gate, queue, created
    ensures A.Adopted(View(gate, queue, created), resumed, requeued, remove)
         == A.Adopt(old(View(gate, queue, created)), containers, now)
  {
    resumed, requeued, remove := [], [], [];
    ghost var s0 := View(gate, queue, created);
    var i := 0;
    while i < |containers|
      invariant 0 <= i <= |containers|
      invariant A.Adopted(View(gate, queue, created), resumed, requeued, remove) == A.Adopt(s0, containers[..i], now)
    {
      var c := containers[i];
      assert containers[..i + 1][..i] == containers[..i];
      match A.ActionFor(c, now) {
        case Resume =>
          var r := gate.AdoptRunning(c.job, c.size);
          if r.Admitted? {
            created.Record(c.job, c.container);
            resumed := resumed + [A.Armed(c)];
          } else {
            remove := remove + [c.container];
          }
        case Requeue =>
          var r := gate.Admit(c.job, c.size);
          if r.Admitted? {
            created.Record(c.job, c.container);
            queue.Push(c.job);
            requeued := requeued + [A.Armed(c)];
          } else {
            remove := remove + [c.container];
          }
        case Remove =>
          remove := remove + [c.container];
      }
      i := i + 1;
    }
    assert containers[..i] == containers;
  }
}
