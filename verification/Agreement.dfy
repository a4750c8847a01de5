/**
 Exactly which steps of a run keep the daemon's gate, start queue and container map in agreement
 (crates/daemon/src/docker.rs, crates/daemon/src/routes/handlers.rs).
 */
module Agreement {
  import opened Text
  import opened Gate
  import opened Scheduler
  import opened DaemonRuns
  import Adoption

  // ------------------------------------------------------------------------ agreement

  /** What the three say about one job, given what is under way: a queue place belongs to a waiting job, or
      a release will still remove it; a recorded container belongs to a tracked job, or a release will still
      forget it; a tracked job has one exactly when it is running or has a queue place. */
  predicate JobAgrees(d: Daemon, j: JobId) {
    var s := Due(d);
    && (j in s.queue ==> if j in s.jobs then !s.jobs[j].running else j in d.unqueue)
    && (j in s.created ==> j in s.jobs || j in Releasing(d))
    && (j in s.jobs ==> (j in s.created <==> s.jobs[j].running || j in s.queue))
  }

  ghost predicate Agrees(d: Daemon) {
    NoDup(Due(d).queue) && forall j :: JobAgrees(d, j)
  }

  /** With nothing under way but unanswered starts, agreement is coherence. */
  lemma AgreesAtRest(s: State, pending: seq<StartRequest>)
    ensures Agrees(AtRest(s, pending)) <==> Coherent(s)
  {
    var d := AtRest(s, pending);
    assert Releasing(d) == {} && Due(d) == s;
    if Agrees(d) {
      forall j ensures j in s.queue ==> j in s.jobs && !s.jobs[j].running {
        assert JobAgrees(d, j);
      }
      forall j ensures j in s.created ==> j in s.jobs {
        assert JobAgrees(d, j);
      }
      forall j | j in s.jobs ensures j in s.created <==> s.jobs[j].running || j in s.queue {
        assert JobAgrees(d, j);
      }
    }
  }

  // --------------------------------------------------------------------- what each step needs

  /** The guard of the branch that would break agreement, for each step that can. */
  predicate Guard(d: Daemon, e: Event) {
    var s := d.state;
    match e
    case PostJob(j, size) =>
      AdmitDecision(s.budget, s.queueMax, s.jobs, j, size).Admitted? ==> (j in s.created <==> j in Due(d).queue)
    case CreateFinished(j, _) => j in s.jobs ==> j !in s.created
    case ReleaseQueue(j) =>
      if j in s.jobs then j !in s.queue else d.pushing == Some(j) ==> d.unqueue[j] > 1
    case ReleaseCreated(j) => j in s.jobs ==> j !in s.created
    case StartAnswered(result) =>
      result == Transient && d.pending != [] && d.pending[0].job in s.jobs ==> s.jobs[d.pending[0].job].running
    case _ => true
  }

  /** Nothing that agreement looks at differs between the two for this job. */
  predicate Same(d: Daemon, e: Daemon, j: JobId) {
    && (j in d.state.jobs <==> j in e.state.jobs)
    && (j in d.state.jobs ==> d.state.jobs[j].running == e.state.jobs[j].running)
    && (j in Due(d).queue <==> j in Due(e).queue)
    && (j in d.state.created <==> j in e.state.created)
    && (j in d.unqueue <==> j in e.unqueue)
    && (j in Releasing(d) <==> j in Releasing(e))
  }

  /** A step that concerns one job only keeps agreement exactly when it does so for that job. */
  lemma OneJobDecides(d: Daemon, e: Daemon, j: JobId)
    requires Agrees(d) && NoDup(Due(e).queue) && forall i :: i != j ==> Same(d, e, i)
    ensures Agrees(e) <==> JobAgrees(e, j)
  {
    forall i | i != j ensures JobAgrees(e, i) {
      assert JobAgrees(d, i) && Same(d, e, i);
    }
  }

  lemma PostAgreesIff(d: Daemon, j: JobId, size: JobSize)
    requires Agrees(d)
    ensures Agrees(Apply(d, PostJob(j, size))) <==> Guard(d, PostJob(j, size))
  {
    var e := Apply(d, PostJob(j, size));
    if AdmitDecision(d.state.budget, d.state.queueMax, d.state.jobs, j, size).Admitted? {
      assert Due(e).queue == Due(d).queue && Releasing(e) == Releasing(d);
      OneJobDecides(d, e, j);
    } else {
      assert e == d;
    }
  }

  lemma CreateAgreesIff(d: Daemon, j: JobId, c: ContainerId)
    requires Agrees(d)
    ensures Agrees(Apply(d, CreateFinished(j, c))) <==> Guard(d, CreateFinished(j, c))
  {
    var e := Apply(d, CreateFinished(j, c));
    assert JobAgrees(d, j);
    if j !in d.state.jobs {
      assert e == d;
    } else if j in Due(d).queue {
      QueuedTwice(d, j, c);
    } else {
      CreatedQueue(d, j, c);
      assert Releasing(e) == Releasing(d);
      OneJobDecides(d, e, j);
    }
  }

  lemma QueuedTwice(d: Daemon, j: JobId, c: ContainerId)
    requires NoDup(Due(d).queue) && j in d.state.jobs && j in Due(d).queue
    ensures !NoDup(Due(Apply(d, CreateFinished(j, c))).queue)
  {
    DueQueue(d);
    PushedNoDup(d.state.queue, j);
    if d.pushing.Some? {
      PushedNoDup(d.state.queue + [j], d.pushing.value);
      assert (d.state.queue + [j])[|d.state.queue|] == j;
    }
  }

  lemma GateAgrees(d: Daemon, j: JobId)
    requires Agrees(d)
    ensures Agrees(Apply(d, ReleaseGate(j)))
  {
    var e := Apply(d, ReleaseGate(j));
    assert Due(e).queue == Due(d).queue && Releasing(e) == Releasing(d) + {j};
    OneJobDecides(d, e, j);
  }

  lemma QueueAgreesIff(d: Daemon, j: JobId)
    requires Agrees(d) && j in d.unqueue
    ensures Agrees(Apply(d, ReleaseQueue(j))) <==> Guard(d, ReleaseQueue(j))
  {
    var e := Apply(d, ReleaseQueue(j));
    DueQueue(d);
    UnqueuedQueue(d, j);
    assert forall i :: i != j ==> (i in e.unqueue <==> i in d.unqueue);
    assert Releasing(e) == Releasing(d);
    assert JobAgrees(d, j);
    OneJobDecides(d, e, j);
  }

  lemma CreatedAgreesIff(d: Daemon, j: JobId)
    requires Agrees(d) && j in d.forget
    ensures Agrees(Apply(d, ReleaseCreated(j))) <==> Guard(d, ReleaseCreated(j))
  {
    var e := Apply(d, ReleaseCreated(j));
    assert Due(e).queue == Due(d).queue;
    assert forall i :: i != j ==> (i in e.forget <==> i in d.forget);
    assert forall i :: i != j ==> (i in Releasing(e) <==> i in Releasing(d));
    assert JobAgrees(d, j);
    OneJobDecides(d, e, j);
  }

  /** For a tick, what is under way concerns untracked jobs only. */
  lemma AgreesIsCoherentBut(d: Daemon)
    requires Agrees(d)
    ensures CoherentBut(Due(d), Releasing(d) - d.state.jobs.Keys)
  {
    var s, loose := Due(d), Releasing(d) - d.state.jobs.Keys;
    forall j | j in s.queue ensures (j in s.jobs && !s.jobs[j].running) || j in loose {
      assert JobAgrees(d, j);
    }
    forall j | j in s.created ensures j in s.jobs || j in loose {
      assert JobAgrees(d, j);
    }
    forall j | j in s.jobs ensures j in s.created <==> s.jobs[j].running || j in s.queue {
      assert JobAgrees(d, j);
    }
  }

  lemma TickAgrees(d: Daemon, snapshot: seq<Snapshot>, now: int)
    requires Agrees(d) && d.pushing.None?
    ensures Agrees(Apply(d, TimerTick(snapshot, now)))
  {
    var s, loose, e := d.state, Releasing(d) - d.state.jobs.Keys, Apply(d, TimerTick(snapshot, now));
    AgreesIsCoherentBut(d);
    ReconcileKeepsCoherent(s, loose, snapshot, now);
    assert Releasing(e) == Releasing(d);
    forall j ensures JobAgrees(e, j) {
      assert JobAgrees(d, j);
      ReconcileMeaning(s, loose, snapshot, now, j);
    }
  }

  lemma FailedStartAgreesIff(d: Daemon)
    requires Agrees(d) && d.pending != [] && d.pushing.None?
    ensures Agrees(AnswerStart(d, Transient)) <==> Guard(d, StartAnswered(Transient))
  {
    var j, e := d.pending[0].job, AnswerStart(d, Transient);
    assert Releasing(e) == Releasing(d) && JobAgrees(d, j);
    if j in d.state.jobs {
      PushedNoDup(d.state.queue, j);
      if j !in d.state.queue {
        DueQueue(e);
      }
    }
    if NoDup(Due(e).queue) {
      OneJobDecides(d, e, j);
    }
  }

  lemma AnswerAgreesIff(d: Daemon, result: StartResult)
    requires Agrees(d) && d.pending != [] && d.pushing.None?
    ensures Agrees(AnswerStart(d, result)) <==> Guard(d, StartAnswered(result))
  {
    var j, e := d.pending[0].job, AnswerStart(d, result);
    match result
    case Ok => OneJobDecides(d, e, j); assert JobAgrees(d, j);
    case Transient => FailedStartAgreesIff(d);
    case NoSuchContainer =>
      WithoutKeepsNoDup(d.state.queue, {j});
      OneJobDecides(d, e, j);
  }

  lemma PushAgrees(d: Daemon)
    requires Agrees(d) && d.pushing.Some?
    ensures Agrees(Apply(d, PushBack))
  {
    var e, j := Apply(d, PushBack), d.pushing.value;
    assert Due(e) == Due(d);
    OneJobDecides(d, e, j);
    assert JobAgrees(d, j);
  }

  /** Each step the code can take keeps agreement exactly when its guard holds. */
  lemma StepAgreesIff(d: Daemon, e: Event)
    requires Agrees(d) && Enabled(d, e)
    ensures Agrees(Apply(d, e)) <==> Guard(d, e)
  {
    match e
    case PostJob(j, size) => PostAgreesIff(d, j, size);
    case CreateFinished(j, c) => CreateAgreesIff(d, j, c);
    case ReleaseGate(j) => GateAgrees(d, j);
    case ReleaseQueue(j) => QueueAgreesIff(d, j);
    case ReleaseCreated(j) => CreatedAgreesIff(d, j);
    case TimerTick(snapshot, now) => TickAgrees(d, snapshot, now);
    case StartAnswered(result) => AnswerAgreesIff(d, result);
    case PushBack => PushAgrees(d);
  }

  // ------------------------------------------------------------------------ whole runs

  ghost predicate AgreesThroughout(d: Daemon, events: seq<Event>) {
    forall n :: 0 <= n <= |events| ==> Agrees(Run(d, events[..n]))
  }

  ghost predicate Guarded(d: Daemon, events: seq<Event>) {
    forall n :: 0 <= n < |events| ==> Guard(Run(d, events[..n]), events[n])
  }

  lemma RunAgreesNext(d: Daemon, events: seq<Event>, n: nat)
    requires n < |events| && Agrees(Run(d, events[..n])) && Enabled(Run(d, events[..n]), events[n])
    ensures Agrees(Run(d, events[..n + 1])) <==> Guard(Run(d, events[..n]), events[n])
  {
    RunNext(d, events, n);
    StepAgreesIff(Run(d, events[..n]), events[n]);
  }

  lemma {:induction false} GuardedRunsAgree(d: Daemon, events: seq<Event>, n: nat)
    requires Agrees(d) && Orderly(d, events) && Guarded(d, events) && n <= |events|
    ensures Agrees(Run(d, events[..n]))
    decreases n
  {
    if n > 0 {
      GuardedRunsAgree(d, events, n - 1);
      RunAgreesNext(d, events, n - 1);
    }
  }

  /** A run in the code's own order that starts in agreement stays in it all along exactly when the guard of
      every step of it holds. */
  lemma RunsAgreeIff(d: Daemon, events: seq<Event>)
    requires Agrees(d) && Orderly(d, events)
    ensures AgreesThroughout(d, events) <==> Guarded(d, events)
  {
    if Guarded(d, events) {
      forall n | 0 <= n <= |events| ensures Agrees(Run(d, events[..n])) {
        GuardedRunsAgree(d, events, n);
      }
    }
    if AgreesThroughout(d, events) {
      forall n | 0 <= n < |events| ensures Guard(Run(d, events[..n]), events[n]) {
        assert Agrees(Run(d, events[..n])) && Agrees(Run(d, events[..n + 1]));
        RunAgreesNext(d, events, n);
      }
    }
  }

  lemma AdoptedAgrees(budget: JobSize, queueMax: u32, listing: seq<Adoption.Container>, now: int)
    ensures Agrees(AtRest(Adoption.Adopt(Fresh(budget, queueMax), listing, now).state, []))
  {
    Adoption.AdoptKeepsCoherent(Fresh(budget, queueMax), listing, now);
    AgreesAtRest(Adoption.Adopt(Fresh(budget, queueMax), listing, now).state, []);
  }

  // ------------------------------------------------------------- the sufficient condition

  lemma InvAgrees(d: Daemon)
    requires Inv(d)
    ensures Agrees(d)
  {
    forall j ensures JobAgrees(d, j) {
    }
  }

  /** After any adoption, runs whose operations keep out of each other's way agree all along. */
  lemma SafeRunsAgree(budget: JobSize, queueMax: u32, listing: seq<Adoption.Container>, now: int, events: seq<Event>)
    requires var d := AtRest(Adoption.Adopt(Fresh(budget, queueMax), listing, now).state, []);
             Orderly(d, events) && AllSafe(d, events)
    ensures AgreesThroughout(AtRest(Adoption.Adopt(Fresh(budget, queueMax), listing, now).state, []), events)
  {
    var d := AtRest(Adoption.Adopt(Fresh(budget, queueMax), listing, now).state, []);
    AdoptedIsInv(budget, queueMax, listing, now);
    forall n | 0 <= n <= |events| ensures Agrees(Run(d, events[..n])) {
      SafeRunsKeepInv(d, events, n);
      InvAgrees(Run(d, events[..n]));
    }
  }
}
