/**
 What the compute daemon's scheduler means (crates/daemon/src/reaper.rs, adopt.rs and the
 start-failure paths of docker.rs), as functions on one value: the gate's job map, the start
 queue and the created-container map. Daemon.dfy proves the step-by-step code against these.
 */
module Scheduler {
  import opened Text
  import opened Gate

  datatype ContainerId = ContainerId(text: string)

  datatype State = State(
    budget: JobSize,
    queueMax: u32,
    jobs: Jobs,
    queue: seq<JobId>,
    created: map<JobId, ContainerId>)

  datatype Snapshot = Snapshot(job: JobId, container: ContainerId, deadlineMs: int, running: bool)
  datatype StartRequest = StartRequest(job: JobId, container: ContainerId)

  function Fresh(budget: JobSize, queueMax: u32): State {
    State(budget, queueMax, map[], [], map[])
  }

  // ------------------------------------------------------------- queues as sequences

  /** `q` with every job in `gone` dropped and the rest in the order they had. */
  function Without(q: seq<JobId>, gone: set<JobId>): (r: seq<JobId>)
    ensures forall j :: j in r <==> j in q && j !in gone
    ensures |r| <= |q|
  {
    if q == [] then []
    else if q[0] in gone then Without(q[1..], gone)
    else [q[0]] + Without(q[1..], gone)
  }

  lemma {:induction false} WithoutKeepsNoDup(q: seq<JobId>, gone: set<JobId>)
    requires NoDup(q)
    ensures NoDup(Without(q, gone))
  {
    if q != [] {
      assert q[0] !in q[1..];
      WithoutKeepsNoDup(q[1..], gone);
    }
  }

  lemma {:induction false} WithoutTwice(q: seq<JobId>, a: set<JobId>, b: set<JobId>)
    ensures Without(Without(q, a), b) == Without(q, a + b)
  {
    if q != [] {
      WithoutTwice(q[1..], a, b);
      var r := Without(q[1..], a);
      if q[0] !in a {
        assert ([q[0]] + r)[1..] == r;
      }
    }
  }

  lemma {:induction false} WithoutNothing(q: seq<JobId>, gone: set<JobId>)
    requires forall j :: j in q ==> j !in gone
    ensures Without(q, gone) == q
  {
    if q != [] {
      WithoutNothing(q[1..], gone);
    }
  }

  /** `a` can be read off `b` from left to right, skipping elements. */
  predicate Subsequence<T(==)>(a: seq<T>, b: seq<T>)
    decreases |b|
  {
    a == [] || (b != [] && ((a[0] == b[0] && Subsequence(a[1..], b[1..])) || Subsequence(a, b[1..])))
  }

  lemma {:induction false} WithoutIsSubsequence(q: seq<JobId>, gone: set<JobId>)
    ensures Subsequence(Without(q, gone), q)
  {
    if q != [] {
      WithoutIsSubsequence(q[1..], gone);
      if q[0] !in gone {
        assert ([q[0]] + Without(q[1..], gone))[1..] == Without(q[1..], gone);
      }
    }
  }

  // ------------------------------------------------------------------- transitions

  /** `reaper::release_job`, `routes::handlers::release`: drop every trace of each job in `gone`. */
  function ReleaseAll(s: State, gone: set<JobId>): State {
    s.(jobs := s.jobs - gone, queue := Without(s.queue, gone), created := s.created - gone)
  }

  lemma ReleaseAllTwice(s: State, a: set<JobId>, b: set<JobId>)
    ensures ReleaseAll(ReleaseAll(s, a), b) == ReleaseAll(s, a + b)
  {
    WithoutTwice(s.queue, a, b);
    assert s.jobs - a - b == s.jobs - (a + b);
    assert s.created - a - b == s.created - (a + b);
  }

  /** `Gate::admit` on behalf of `POST /v1/jobs`. */
  function Admit(s: State, j: JobId, size: JobSize): State {
    if AdmitDecision(s.budget, s.queueMax, s.jobs, j, size).Admitted?
    then s.(jobs := s.jobs[j := Entry(size, false)])
    else s
  }

  /** `routes::handlers::remember_created`: record the container and queue the job, if still tracked. */
  function RememberCreated(s: State, j: JobId, c: ContainerId): State {
    if j in s.jobs then s.(created := s.created[j := c], queue := s.queue + [j]) else s
  }

  /** `docker::requeue_after_failed_start`, with its two critical sections taken together. */
  function Requeue(s: State, j: JobId): State {
    if j in s.jobs
    then s.(jobs := s.jobs[j := Entry(s.jobs[j].size, false)], queue := s.queue + [j])
    else s
  }

  /** The jobs `promote` starts, in order, when it walks `pending` against the free budget. */
  ghost function StartedOf(budget: JobSize, jobs: Jobs, pending: seq<JobId>): seq<JobId> {
    if pending == [] then []
    else if Starts(budget, jobs, pending[0]) then
      [pending[0]] + StartedOf(budget, jobs[pending[0] := Entry(jobs[pending[0]].size, true)], pending[1..])
    else StartedOf(budget, jobs, pending[1..])
  }

  function MarkRunning(jobs: Jobs, js: set<JobId>): Jobs {
    map j | j in jobs :: Entry(jobs[j].size, jobs[j].running || j in js)
  }

  ghost function Promote(s: State): State {
    var started := Elements(StartedOf(s.budget, s.jobs, s.queue));
    s.(jobs := MarkRunning(s.jobs, started), queue := Without(s.queue, started))
  }

  /** Why one listed container ends its job: past its deadline, or exited on its own. */
  predicate Ends(e: Snapshot, now: int, before: set<JobId>) {
    e.deadlineMs <= now || (!e.running && e.job in before)
  }

  function Doomed(s: State, snapshot: seq<Snapshot>, now: int): set<JobId> {
    (set e | e in snapshot && Ends(e, now, RunningJobs(s.jobs)) :: e.job)
    + (set j | j in RunningJobs(s.jobs) && forall e :: e in snapshot ==> e.job != j)
  }

  function Removals(snapshot: seq<Snapshot>, now: int, before: set<JobId>): seq<ContainerId> {
    if snapshot == [] then []
    else
      var rest := Removals(snapshot[..|snapshot| - 1], now, before);
      var e := snapshot[|snapshot| - 1];
      if Ends(e, now, before) then rest + [e.container] else rest
  }

  function StartRequests(created: map<JobId, ContainerId>, started: seq<JobId>): seq<StartRequest> {
    if started == [] then []
    else
      var rest := StartRequests(created, started[..|started| - 1]);
      var j := started[|started| - 1];
      if j in created then rest + [StartRequest(j, created[j])] else rest
  }

  datatype Tick = Tick(state: State, remove: seq<ContainerId>, start: seq<StartRequest>)

  /** `reaper::reconcile`: release what ended, then promote into what that freed. */
  ghost function Reconcile(s: State, snapshot: seq<Snapshot>, now: int): Tick {
    var freed := ReleaseAll(s, Doomed(s, snapshot, now));
    Tick(Promote(freed),
         Removals(snapshot, now, RunningJobs(s.jobs)),
         StartRequests(freed.created, StartedOf(freed.budget, freed.jobs, freed.queue)))
  }

  // --------------------------------------------------------------------- coherence

  /**
   The gate, the queue and the container map tell one story: a tracked job is running, or
   waiting in the queue, or still being created, never two of these; it has a recorded
   container exactly when it is one of the first two.
   */
  predicate Coherent(s: State) {
    CoherentBut(s, {})
  }

  /** Coherent but for the queue places and containers of untracked jobs in `loose`. */
  predicate CoherentBut(s: State, loose: set<JobId>) {
    && NoDup(s.queue)
    && (forall j :: j in s.queue ==> (j in s.jobs && !s.jobs[j].running) || j in loose)
    && (forall j :: j in s.created ==> j in s.jobs || j in loose)
    && (forall j :: j in s.jobs ==> j !in loose && (j in s.created <==> s.jobs[j].running || j in s.queue))
  }

  /** Every job that is not running could run on an empty box. */
  predicate Startable(s: State) {
    forall j :: j in s.jobs && !s.jobs[j].running ==> s.jobs[j].size.FitsWithin(s.budget)
  }

  lemma ReleaseKeepsCoherent(s: State, loose: set<JobId>, gone: set<JobId>)
    requires CoherentBut(s, loose)
    ensures CoherentBut(ReleaseAll(s, gone), loose)
  {
    WithoutKeepsNoDup(s.queue, gone);
  }

  lemma AdmitKeepsCoherent(s: State, j: JobId, size: JobSize)
    requires Coherent(s)
    ensures Coherent(Admit(s, j, size))
    ensures Startable(s) ==> Startable(Admit(s, j, size))
  {
    if j !in s.jobs {
      assert j !in s.created && j !in s.queue;
    }
  }

  /** Recording a container keeps the story straight exactly when the job has none recorded yet. */
  lemma RememberCreatedKeepsCoherentIff(s: State, j: JobId, c: ContainerId)
    requires Coherent(s)
    ensures Coherent(RememberCreated(s, j, c)) <==> j !in s.created
  {
    var s' := RememberCreated(s, j, c);
    if j in s.jobs {
      assert s'.queue[|s.queue|] == j;
      if j in s.created {
        if j in s.queue {
          var i :| 0 <= i < |s.queue| && s.queue[i] == j;
          assert s'.queue[i] == s'.queue[|s.queue|];
        }
        assert !Coherent(s');
      } else {
        assert Coherent(s');
      }
    }
  }

  /**
   Undoing a failed start keeps the story straight exactly when the job is gone or still
   marked running. A job that was released and admitted again while its start was in flight
   is tracked but not running, and then it does not.
   */
  lemma RequeueKeepsCoherentIff(s: State, j: JobId)
    requires Coherent(s)
    ensures Coherent(Requeue(s, j)) <==> (j in s.jobs ==> s.jobs[j].running)
  {
    var s' := Requeue(s, j);
    if j in s.jobs {
      assert s'.queue[|s.queue|] == j;
      if s.jobs[j].running {
        assert j !in s.queue;
        assert Coherent(s');
      } else if j in s.queue {
        var i :| 0 <= i < |s.queue| && s.queue[i] == j;
        assert s'.queue[i] == s'.queue[|s.queue|];
      } else {
        assert j !in s'.created && j in s'.queue;
      }
    }
  }

  // --------------------------------------------------------------------- promotion

  lemma {:induction false} StartedFromPending(budget: JobSize, jobs: Jobs, pending: seq<JobId>)
    ensures forall j :: j in StartedOf(budget, jobs, pending) ==> j in pending && j in jobs
    ensures Subsequence(StartedOf(budget, jobs, pending), pending)
    decreases |pending|
  {
    if pending != [] {
      var j := pending[0];
      if Starts(budget, jobs, j) {
        var jobs' := jobs[j := Entry(jobs[j].size, true)];
        StartedFromPending(budget, jobs', pending[1..]);
        assert StartedOf(budget, jobs, pending)[1..] == StartedOf(budget, jobs', pending[1..]);
      } else {
        StartedFromPending(budget, jobs, pending[1..]);
      }
    }
  }

  lemma {:induction false} SubsequenceMembers<T>(a: seq<T>, b: seq<T>)
    requires Subsequence(a, b)
    ensures forall x :: x in a ==> x in b
    ensures NoDup(b) ==> NoDup(a)
    decreases |b|
  {
    if a != [] {
      if a[0] == b[0] && Subsequence(a[1..], b[1..]) {
        SubsequenceMembers(a[1..], b[1..]);
        assert a == [a[0]] + a[1..];
        assert b == [b[0]] + b[1..];
        assert NoDup(b) ==> b[0] !in b[1..] && NoDup(b[1..]);
      } else {
        SubsequenceMembers(a, b[1..]);
      }
    }
  }

  /** Marking the started jobs one by one or all at once is the same. */
  lemma MarkRunningStep(jobs: Jobs, js: set<JobId>, j: JobId)
    requires j in jobs
    ensures MarkRunning(jobs, js + {j}) == MarkRunning(jobs, js)[j := Entry(jobs[j].size, true)]
  {
  }

  lemma {:induction false} StartedUses(budget: JobSize, jobs: Jobs, pending: seq<JobId>, d: Dimension)
    ensures TrueUsed(jobs, d) <= TrueUsed(MarkRunning(jobs, Elements(StartedOf(budget, jobs, pending))), d)
    ensures TrueUsed(MarkRunning(jobs, Elements(StartedOf(budget, jobs, pending))), d)
         <= Max(Amount(budget, d), TrueUsed(jobs, d))
    decreases |pending|
  {
    var started := StartedOf(budget, jobs, pending);
    if pending == [] {
      assert started == [] && Elements(started) == {};
      assert MarkRunning(jobs, Elements(started)) == jobs;
    } else if Starts(budget, jobs, pending[0]) {
      var j := pending[0];
      var jobs' := jobs[j := Entry(jobs[j].size, true)];
      StartedUses(budget, jobs', pending[1..], d);
      assert started[1..] == StartedOf(budget, jobs', pending[1..]);
      assert Elements(started) == {j} + Elements(started[1..]);
      assert MarkRunning(jobs, Elements(started)) == MarkRunning(jobs', Elements(started[1..]));
      TrueUsedUpdate(jobs, j, Entry(jobs[j].size, true), d);
      if !jobs[j].running {
        FitsNowIsTrueRoom(budget, jobs, jobs[j].size);
      }
    } else {
      StartedUses(budget, jobs, pending[1..], d);
    }
  }

  function Max(a: nat, b: nat): nat {
    if a < b then b else a
  }

  /** More running jobs leave no more room. */
  lemma FitsNowShrinks(budget: JobSize, jobs: Jobs, jobs': Jobs, size: JobSize)
    requires forall d :: TrueUsed(jobs, d) <= TrueUsed(jobs', d)
    requires FitsNow(budget, jobs', size)
    ensures FitsNow(budget, jobs, size)
  {
    FitsNowIsTrueRoom(budget, jobs, size);
    FitsNowIsTrueRoom(budget, jobs', size);
    assert forall d :: Room(budget, jobs', size, d) ==> Room(budget, jobs, size, d);
  }

  lemma {:induction false} PassedOverDoNotFit(budget: JobSize, jobs: Jobs, pending: seq<JobId>, j: JobId)
    requires j in pending && j in jobs && j !in StartedOf(budget, jobs, pending)
    ensures !FitsNow(budget, MarkRunning(jobs, Elements(StartedOf(budget, jobs, pending))), jobs[j].size)
    decreases |pending|
  {
    var started := StartedOf(budget, jobs, pending);
    var h := pending[0];
    if Starts(budget, jobs, h) {
      var jobs' := jobs[h := Entry(jobs[h].size, true)];
      assert started == [h] + StartedOf(budget, jobs', pending[1..]);
      assert h in started;
      PassedOverDoNotFit(budget, jobs', pending[1..], j);
      assert Elements(started) == {h} + Elements(StartedOf(budget, jobs', pending[1..]));
      assert MarkRunning(jobs, Elements(started))
          == MarkRunning(jobs', Elements(StartedOf(budget, jobs', pending[1..])));
    } else if h == j {
      forall d ensures TrueUsed(jobs, d) <= TrueUsed(MarkRunning(jobs, Elements(started)), d) {
        StartedUses(budget, jobs, pending, d);
      }
      if FitsNow(budget, MarkRunning(jobs, Elements(started)), jobs[j].size) {
        FitsNowShrinks(budget, jobs, MarkRunning(jobs, Elements(started)), jobs[j].size);
      }
    } else {
      PassedOverDoNotFit(budget, jobs, pending[1..], j);
    }
  }

  lemma {:induction false} WithoutSplitsMultiset(q: seq<JobId>, started: seq<JobId>)
    requires NoDup(q) && Subsequence(started, q)
    ensures multiset(q) == multiset(started) + multiset(Without(q, Elements(started)))
  {
    SubsequenceMembers(started, q);
    WithoutKeepsNoDup(q, Elements(started));
    var w := Without(q, Elements(started));
    forall j ensures multiset(q)[j] == multiset(started)[j] + multiset(w)[j] {
      NoDupMultiplicity(q, j);
      NoDupMultiplicity(started, j);
      NoDupMultiplicity(w, j);
    }
  }

  lemma {:induction false} NoDupMultiplicity<T>(s: seq<T>, x: T)
    requires NoDup(s)
    ensures multiset(s)[x] == if x in s then 1 else 0
  {
    if s != [] {
      assert s == [s[0]] + s[1..];
      NoDupMultiplicity(s[1..], x);
    }
  }

  /**
   Promotion is fair and maximal: the jobs it starts and the jobs it leaves are both in arrival
   order and together are the queue, and no tracked job left behind fits what remains free.
   */
  lemma PromotionIsFairAndMaximal(s: State)
    requires NoDup(s.queue)
    ensures var started := StartedOf(s.budget, s.jobs, s.queue);
            && Subsequence(started, s.queue)
            && Subsequence(Promote(s).queue, s.queue)
            && multiset(s.queue) == multiset(started) + multiset(Promote(s).queue)
    ensures forall j :: j in Promote(s).queue && j in s.jobs
              ==> !FitsNow(s.budget, Promote(s).jobs, s.jobs[j].size)
  {
    var started := StartedOf(s.budget, s.jobs, s.queue);
    StartedFromPending(s.budget, s.jobs, s.queue);
    WithoutIsSubsequence(s.queue, Elements(started));
    WithoutSplitsMultiset(s.queue, started);
    forall j | j in Promote(s).queue && j in s.jobs
      ensures !FitsNow(s.budget, Promote(s).jobs, s.jobs[j].size)
    {
      PassedOverDoNotFit(s.budget, s.jobs, s.queue, j);
    }
  }

  /** Promotion is never stuck: with the box idle, whoever has waited longest starts. */
  lemma IdleBoxStartsTheHead(s: State)
    requires Coherent(s) && Startable(s) && s.queue != []
    requires RunningJobs(s.jobs) == {}
    ensures s.queue[..1] <= StartedOf(s.budget, s.jobs, s.queue)
  {
    var h := s.queue[0];
    assert forall j :: j in s.jobs && s.jobs[j].running ==> j in RunningJobs(s.jobs);
    TrueUsedNothingRunning(s.jobs, Vcpu);
    TrueUsedNothingRunning(s.jobs, Memory);
    FitsNowIsTrueRoom(s.budget, s.jobs, s.jobs[h].size);
    assert Starts(s.budget, s.jobs, h);
  }

  lemma PromoteKeepsCoherent(s: State, loose: set<JobId>)
    requires CoherentBut(s, loose)
    ensures CoherentBut(Promote(s), loose)
    ensures Startable(s) ==> Startable(Promote(s))
  {
    var started := StartedOf(s.budget, s.jobs, s.queue);
    StartedFromPending(s.budget, s.jobs, s.queue);
    WithoutKeepsNoDup(s.queue, Elements(started));
  }

  // --------------------------------------------------------------------- reconcile

  /** The containers still count as running: listed, and every listing running and in time. */
  predicate StillRunning(snapshot: seq<Snapshot>, now: int, j: JobId) {
    && (exists e :: e in snapshot && e.job == j)
    && (forall e :: e in snapshot && e.job == j ==> e.running && now < e.deadlineMs)
  }

  /** A listed container of the job is past its deadline. */
  predicate Expires(snapshot: seq<Snapshot>, now: int, j: JobId) {
    exists e :: e in snapshot && e.job == j && e.deadlineMs <= now
  }

  /** What a tick lets go: a job with an expired container, and a running one that no longer counts as running. */
  predicate LetGo(s: State, snapshot: seq<Snapshot>, now: int, j: JobId) {
    Expires(snapshot, now, j) || (j in s.jobs && s.jobs[j].running && !StillRunning(snapshot, now, j))
  }

  predicate OnePerJob(snapshot: seq<Snapshot>) {
    forall e, f :: e in snapshot && f in snapshot && e.job == f.job ==> e == f
  }

  lemma {:induction false} StartRequestsForAll(created: map<JobId, ContainerId>, started: seq<JobId>)
    requires forall j :: j in started ==> j in created
    ensures |StartRequests(created, started)| == |started|
    ensures forall i :: 0 <= i < |started| ==>
            StartRequests(created, started)[i] == StartRequest(started[i], created[started[i]])
  {
    if started != [] {
      var front := started[..|started| - 1];
      assert forall j :: j in front ==> j in started;
      StartRequestsForAll(created, front);
    }
  }

  lemma ReconcileStartsThePromoted(s: State, loose: set<JobId>, snapshot: seq<Snapshot>, now: int)
    requires CoherentBut(s, loose)
    ensures var freed := ReleaseAll(s, Doomed(s, snapshot, now));
            var t := Reconcile(s, snapshot, now);
            && JobsOf(t.start) == StartedOf(freed.budget, freed.jobs, freed.queue)
            && NoDup(JobsOf(t.start))
            && (forall r :: r in t.start ==>
                  && r.job in s.queue
                  && r.job in t.state.created
                  && r.container == t.state.created[r.job] == s.created[r.job])
  {
    var freed := ReleaseAll(s, Doomed(s, snapshot, now));
    var started := StartedOf(freed.budget, freed.jobs, freed.queue);
    ReleaseKeepsCoherent(s, loose, Doomed(s, snapshot, now));
    StartedFromPending(freed.budget, freed.jobs, freed.queue);
    StartRequestsForAll(freed.created, started);
    SubsequenceMembers(started, freed.queue);
    var start := StartRequests(freed.created, started);
    assert JobsOf(start) == started;
    forall r | r in start ensures r.job in started && r.job in freed.created && r.container == freed.created[r.job] {
      var i :| 0 <= i < |start| && start[i] == r;
      assert r == StartRequest(started[i], freed.created[started[i]]);
    }
  }

  lemma ReconcileKeepsCoherent(s: State, loose: set<JobId>, snapshot: seq<Snapshot>, now: int)
    requires CoherentBut(s, loose)
    ensures CoherentBut(Reconcile(s, snapshot, now).state, loose)
    ensures Startable(s) ==> Startable(Reconcile(s, snapshot, now).state)
  {
    ReleaseKeepsCoherent(s, loose, Doomed(s, snapshot, now));
    PromoteKeepsCoherent(ReleaseAll(s, Doomed(s, snapshot, now)), loose);
  }

  lemma DoomedAreLetGo(s: State, snapshot: seq<Snapshot>, now: int, j: JobId)
    ensures j in Doomed(s, snapshot, now) <==> LetGo(s, snapshot, now, j)
  {
    if j in RunningJobs(s.jobs) {
      RunningSurvives(s, snapshot, now, j);
    }
  }

  /**
   One tick, declaratively: a job runs afterwards exactly when it ran before and every container
   listed for it is running and in time, or when this tick asks for its container to be started;
   a job is let go exactly when one of its listed containers has expired or it ran and does not count
   as running any more; the queue keeps whoever waits unexpired and was not started.
   */
  lemma ReconcileMeaning(s: State, loose: set<JobId>, snapshot: seq<Snapshot>, now: int, j: JobId)
    requires CoherentBut(s, loose)
    ensures var t := Reconcile(s, snapshot, now);
            && (j in RunningJobs(t.state.jobs) <==>
                  (j in RunningJobs(s.jobs) && StillRunning(snapshot, now, j)) || j in JobsOf(t.start))
            && (j in t.state.jobs <==> j in s.jobs && !LetGo(s, snapshot, now, j))
            && (j in t.state.queue <==> j in s.queue && !Expires(snapshot, now, j) && j !in JobsOf(t.start))
            && (j in t.state.created <==> j in s.created && !LetGo(s, snapshot, now, j))
            && (j in t.state.jobs ==> t.state.jobs[j].size == s.jobs[j].size)
            && (j in t.state.created ==> t.state.created[j] == s.created[j])
  {
    ReconcileStartsThePromoted(s, loose, snapshot, now);
    DoomedAreLetGo(s, snapshot, now, j);
    var freed := ReleaseAll(s, Doomed(s, snapshot, now));
    StartedFromPending(freed.budget, freed.jobs, freed.queue);
  }

  function JobsOf(requests: seq<StartRequest>): seq<JobId> {
    seq(|requests|, i requires 0 <= i < |requests| => requests[i].job)
  }

  lemma RunningSurvives(s: State, snapshot: seq<Snapshot>, now: int, j: JobId)
    requires j in RunningJobs(s.jobs)
    ensures j !in Doomed(s, snapshot, now) <==> StillRunning(snapshot, now, j)
  {
    if StillRunning(snapshot, now, j) {
      assert forall e :: e in snapshot && Ends(e, now, RunningJobs(s.jobs)) ==> e.job != j;
    } else if exists e :: e in snapshot && e.job == j {
      var e :| e in snapshot && e.job == j && !(e.running && now < e.deadlineMs);
      assert Ends(e, now, RunningJobs(s.jobs));
    }
  }

  /** With one container per job, surviving means being reported running and unexpired. */
  lemma OneContainerSurvival(snapshot: seq<Snapshot>, now: int, j: JobId)
    requires OnePerJob(snapshot)
    ensures StillRunning(snapshot, now, j)
         <==> exists e :: e in snapshot && e.job == j && e.running && now < e.deadlineMs
  {
  }

  /**
   A listing failure reads as an empty snapshot, and an empty snapshot releases every running job:
   their budget is offered to the queue in the same tick. Nothing is released exactly when nothing runs.
   */
  lemma EmptySnapshotReleasesEverythingRunning(s: State, now: int)
    ensures Reconcile(s, [], now).state.jobs.Keys == s.jobs.Keys - RunningJobs(s.jobs)
    ensures Reconcile(s, [], now).state.jobs.Keys == s.jobs.Keys <==> RunningJobs(s.jobs) == {}
    ensures Reconcile(s, [], now).remove == []
  {
    assert Doomed(s, [], now) == RunningJobs(s.jobs);
    assert RunningJobs(s.jobs) <= s.jobs.Keys;
    assert (s.jobs - RunningJobs(s.jobs)).Keys == s.jobs.Keys - RunningJobs(s.jobs);
  }

  // ------------------------------------------------------------ a queue entry without a job

  /** The first locked section of undoing a failed start, for a tracked job. */
  function Unstarted(s: State, j: JobId): State
    requires j in s.jobs
  {
    s.(jobs := s.jobs[j := Entry(s.jobs[j].size, false)])
  }

  /** The second. */
  function Pushed(s: State, j: JobId): State {
    s.(queue := s.queue + [j])
  }

  /**
   Undoing a failed start with releases landing between its two sections keeps the story straight
   exactly when the job itself is not among those released.
   */
  lemma PushAfterReleaseIff(s: State, j: JobId, gone: set<JobId>)
    requires Coherent(s) && j in RunningJobs(s.jobs)
    ensures Coherent(Pushed(ReleaseAll(Unstarted(s, j), gone), j)) <==> j !in gone
  {
    var u := Unstarted(s, j);
    var t := Pushed(ReleaseAll(u, gone), j);
    assert t.queue[|t.queue| - 1] == j;
    WithoutKeepsNoDup(s.queue, gone);
    assert j !in s.queue;
  }

  ghost predicate Leaked(s: State, j: JobId) {
    j in s.queue && j !in s.jobs
  }

  /** A queue entry the gate does not know stays one, whatever the state, until a listed container of
      that job has passed its deadline. */
  lemma LeakedThroughTick(s: State, snapshot: seq<Snapshot>, now: int, j: JobId)
    requires j !in s.jobs
    ensures j !in Reconcile(s, snapshot, now).state.jobs
    ensures Leaked(Reconcile(s, snapshot, now).state, j) <==> Leaked(s, j) && !Expires(snapshot, now, j)
  {
    var freed := ReleaseAll(s, Doomed(s, snapshot, now));
    StartedFromPending(freed.budget, freed.jobs, freed.queue);
    assert j in Doomed(s, snapshot, now) <==> Expires(snapshot, now, j);
  }

  datatype Listing = Listing(snapshot: seq<Snapshot>, now: int)

  ghost function Ticks(s: State, listings: seq<Listing>): State {
    if listings == [] then s
    else
      var last := listings[|listings| - 1];
      Reconcile(Ticks(s, listings[..|listings| - 1]), last.snapshot, last.now).state
  }

  ghost predicate NeverExpires(listings: seq<Listing>, j: JobId) {
    forall i :: 0 <= i < |listings| ==> !Expires(listings[i].snapshot, listings[i].now, j)
  }

  lemma NeverExpiresSnoc(front: seq<Listing>, last: Listing, j: JobId)
    ensures NeverExpires(front + [last], j) <==> NeverExpires(front, j) && !Expires(last.snapshot, last.now, j)
  {
    var all := front + [last];
    assert all[|front|] == last && forall i :: 0 <= i < |front| ==> all[i] == front[i];
  }

  lemma TicksSnoc(s: State, front: seq<Listing>, last: Listing)
    ensures Ticks(s, front + [last]) == Reconcile(Ticks(s, front), last.snapshot, last.now).state
  {
    assert (front + [last])[..|front|] == front;
  }

  /** Over any number of ticks it is drained exactly by the first expired container of that job. */
  lemma {:induction false} LeakedThroughTicks(s: State, listings: seq<Listing>, j: JobId)
    requires Leaked(s, j)
    ensures j !in Ticks(s, listings).jobs
    ensures Leaked(Ticks(s, listings), j) <==> NeverExpires(listings, j)
    decreases |listings|
  {
    if listings != [] {
      var front, last := listings[..|listings| - 1], listings[|listings| - 1];
      assert listings == front + [last];
      LeakedThroughTicks(s, front, j);
      TicksSnoc(s, front, last);
      NeverExpiresSnoc(front, last, j);
      LeakedThroughTick(Ticks(s, front), last.snapshot, last.now, j);
    }
  }

  // ------------------------------------------------------------ a job without a queue entry

  /** Tracked, not running, and not waiting in the queue. */
  ghost predicate Stranded(s: State, j: JobId) {
    j in s.jobs && !s.jobs[j].running && j !in s.queue
  }

  /** A tick neither starts such a job nor lets it go until a listed container of it has passed its
      deadline; and a job once let go does not come back. */
  lemma StrandedThroughTick(s: State, snapshot: seq<Snapshot>, now: int, j: JobId)
    ensures Stranded(s, j) ==> (Stranded(Reconcile(s, snapshot, now).state, j) <==> !Expires(snapshot, now, j))
    ensures Stranded(s, j) && Expires(snapshot, now, j) ==> j !in Reconcile(s, snapshot, now).state.jobs
    ensures j !in s.jobs ==> j !in Reconcile(s, snapshot, now).state.jobs
  {
    var freed := ReleaseAll(s, Doomed(s, snapshot, now));
    StartedFromPending(freed.budget, freed.jobs, freed.queue);
    if Stranded(s, j) {
      assert j in Doomed(s, snapshot, now) <==> Expires(snapshot, now, j);
    }
  }

  /** Over any number of ticks it holds its place exactly until the first expired container of that job. */
  lemma {:induction false} StrandedThroughTicks(s: State, listings: seq<Listing>, j: JobId)
    requires Stranded(s, j)
    ensures Stranded(Ticks(s, listings), j) <==> NeverExpires(listings, j)
    ensures !NeverExpires(listings, j) ==> j !in Ticks(s, listings).jobs
    decreases |listings|
  {
    if listings != [] {
      var front, last := listings[..|listings| - 1], listings[|listings| - 1];
      assert listings == front + [last];
      StrandedThroughTicks(s, front, j);
      TicksSnoc(s, front, last);
      NeverExpiresSnoc(front, last, j);
      StrandedThroughTick(Ticks(s, front), last.snapshot, last.now, j);
    }
  }
}
