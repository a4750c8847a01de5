/**
 Whole runs of the compute daemon: requests, finished creates, releases, timer ticks and the answers
 Docker gives to start requests, interleaved in any order. Each step is one locked section of the code
 (crates/daemon/src/docker.rs, crates/daemon/src/routes/handlers.rs).
 */
module DaemonRuns {
  import opened Text
  import opened Gate
  import opened Scheduler
  import Adoption

  /**
   The scheduler, and what is under way: the start requests of the current tick that Docker has not
   answered yet, the job whose failed start still has to be pushed back, and the releases that have
   still to take their job off the queue, or off the container map.
   */
  datatype Daemon = Daemon(
    state: State,
    pending: seq<StartRequest>,
    pushing: Option<JobId>,
    unqueue: multiset<JobId>,
    forget: multiset<JobId>)

  datatype StartResult = Ok | Transient | NoSuchContainer

  /** A tick, a create and the release of a vanished container hold every lock they need at once; a
      requested release and the undoing of a failed start go through theirs one after the other. */
  datatype Event =
    | PostJob(job: JobId, size: JobSize)
    | CreateFinished(job: JobId, container: ContainerId)
    | ReleaseGate(job: JobId)
    | ReleaseQueue(job: JobId)
    | ReleaseCreated(job: JobId)
    | TimerTick(snapshot: seq<Snapshot>, now: int)
    | StartAnswered(result: StartResult)
    | PushBack

  function AtRest(s: State, pending: seq<StartRequest>): Daemon {
    Daemon(s, pending, None, multiset{}, multiset{})
  }

  function AnswerStart(d: Daemon, result: StartResult): Daemon
    requires d.pending != []
  {
    var j, rest := d.pending[0].job, d.pending[1..];
    match result
    case Ok => d.(pending := rest)
    case Transient =>
      if j in d.state.jobs then d.(state := Unstarted(d.state, j), pushing := Some(j), pending := rest)
      else d.(pending := rest)
    case NoSuchContainer => d.(state := ReleaseAll(d.state, {j}), pending := rest)
  }

  ghost function Apply(d: Daemon, e: Event): Daemon {
    var s := d.state;
    match e
    case PostJob(j, size) => d.(state := Admit(s, j, size))
    case CreateFinished(j, c) => d.(state := RememberCreated(s, j, c))
    case ReleaseGate(j) => d.(state := s.(jobs := s.jobs - {j}), unqueue := d.unqueue + multiset{j})
    case ReleaseQueue(j) =>
      d.(state := s.(queue := Without(s.queue, {j})), unqueue := d.unqueue - multiset{j},
         forget := d.forget + multiset{j})
    case ReleaseCreated(j) => d.(state := s.(created := s.created - {j}), forget := d.forget - multiset{j})
    case TimerTick(snapshot, now) =>
      var t := Reconcile(s, snapshot, now);
      d.(state := t.state, pending := d.pending + t.start)
    case StartAnswered(result) => if d.pending == [] then d else AnswerStart(d, result)
    case PushBack => if d.pushing.None? then d else d.(state := Pushed(s, d.pushing.value), pushing := None)
  }

  ghost function Run(d: Daemon, events: seq<Event>): Daemon {
    if events == [] then d else Apply(Run(d, events[..|events| - 1]), events[|events| - 1])
  }

  /** What one answer, and the push it may call for, does when nothing else is under way. */
  function AfterAnswer(s: State, j: JobId, result: StartResult): State {
    match result
    case Ok => s
    case Transient => Requeue(s, j)
    case NoSuchContainer => ReleaseAll(s, {j})
  }

  lemma AnswerAtRest(s: State, pending: seq<StartRequest>, result: StartResult)
    requires pending != []
    ensures var d := Apply(AtRest(s, pending), StartAnswered(result));
            AtRest(AfterAnswer(s, pending[0].job, result), pending[1..])
            == if result == Transient then Apply(d, PushBack) else d
  {
  }

  /**
   What an answer means: a started job is left alone; one whose start failed for now is tracked as not running
   and waits behind all others, if it is tracked; one whose container is gone leaves no trace. Other jobs keep
   what they have.
   */
  lemma AnswerMeaning(s: State, j: JobId, result: StartResult, i: JobId)
    ensures var t := AfterAnswer(s, j, result);
            && t.budget == s.budget && t.queueMax == s.queueMax
            && (result == Ok ==> t == s)
            && (result == Transient ==> t.created == s.created && t.queue == s.queue + if j in s.jobs then [j] else [])
            && (result == Transient && j in s.jobs ==> t.jobs == s.jobs[j := Entry(s.jobs[j].size, false)])
            && (result == NoSuchContainer ==> j !in t.jobs && j !in t.queue && j !in t.created)
            && (i != j || (result == Transient && j !in s.jobs) ==>
                  && (i in t.jobs <==> i in s.jobs) && (i in t.jobs ==> t.jobs[i] == s.jobs[i])
                  && (i in t.created <==> i in s.created) && (i in t.created ==> t.created[i] == s.created[i])
                  && (i in t.queue <==> i in s.queue))
  {
  }

  lemma RunSnoc(d: Daemon, events: seq<Event>, e: Event)
    ensures Run(d, events + [e]) == Apply(Run(d, events), e)
  {
    assert (events + [e])[..|events|] == events;
  }

  // ------------------------------------------------------------- budget, over every run

  /** In each dimension the running jobs truly use at most the budget, or what `base` already used. */
  ghost predicate Within(s: State, base: State) {
    && s.budget == base.budget && s.queueMax == base.queueMax
    && (forall d :: TrueUsed(s.jobs, d) <= Max(Amount(s.budget, d), TrueUsed(base.jobs, d)))
    && |s.jobs| <= Max(s.queueMax, |base.jobs|)
  }

  lemma DropStaysWithin(s: State, base: State, gone: set<JobId>)
    requires Within(s, base)
    ensures Within(s.(jobs := s.jobs - gone), base)
  {
    forall d ensures TrueUsed(s.jobs - gone, d) <= TrueUsed(s.jobs, d) {
      TrueUsedShrinks(s.jobs, gone, d);
    }
    assert (s.jobs - gone).Keys == s.jobs.Keys - gone;
    assert |s.jobs.Keys| == |s.jobs.Keys - gone| + |s.jobs.Keys * gone|;
    assert |(s.jobs - gone).Keys| == |s.jobs - gone| && |s.jobs.Keys| == |s.jobs|;
  }

  lemma ReleaseStaysWithin(s: State, base: State, gone: set<JobId>)
    requires Within(s, base)
    ensures Within(ReleaseAll(s, gone), base)
  {
    DropStaysWithin(s, base, gone);
    WithinIgnoresQueues(s.(jobs := s.jobs - gone), base, Without(s.queue, gone), s.created - gone);
  }

  lemma PromoteStaysWithin(s: State, base: State)
    requires Within(s, base)
    ensures Within(Promote(s), base)
  {
    forall d ensures TrueUsed(Promote(s).jobs, d) <= Max(Amount(s.budget, d), TrueUsed(s.jobs, d)) {
      StartedUses(s.budget, s.jobs, s.queue, d);
    }
    assert Promote(s).jobs.Keys == s.jobs.Keys;
    assert |Promote(s).jobs.Keys| == |Promote(s).jobs| && |s.jobs.Keys| == |s.jobs|;
  }

  lemma SetEntryStaysWithin(s: State, base: State, j: JobId, size: JobSize)
    requires Within(s, base)
    requires if j in s.jobs then size == s.jobs[j].size else |s.jobs| < s.queueMax
    ensures Within(s.(jobs := s.jobs[j := Entry(size, false)]), base)
  {
    forall d ensures TrueUsed(s.jobs[j := Entry(size, false)], d) <= TrueUsed(s.jobs, d) {
      TrueUsedUpdate(s.jobs, j, Entry(size, false), d);
    }
    SizeOfUpdate(s.jobs, j, Entry(size, false));
  }

  lemma WithinIgnoresQueues(s: State, base: State, queue: seq<JobId>, created: map<JobId, ContainerId>)
    requires Within(s, base)
    ensures Within(s.(queue := queue, created := created), base)
  {
  }

  lemma AnswerStaysWithin(d: Daemon, base: State, result: StartResult)
    requires Within(d.state, base) && d.pending != []
    ensures Within(AnswerStart(d, result).state, base)
  {
    var s, j := d.state, d.pending[0].job;
    ReleaseStaysWithin(s, base, {j});
    if j in s.jobs {
      SetEntryStaysWithin(s, base, j, s.jobs[j].size);
    }
  }

  lemma StepStaysWithin(d: Daemon, base: State, e: Event)
    requires Within(d.state, base)
    ensures Within(Apply(d, e).state, base)
  {
    var s := d.state;
    match e
    case PostJob(j, size) =>
      if AdmitDecision(s.budget, s.queueMax, s.jobs, j, size).Admitted? {
        SetEntryStaysWithin(s, base, j, size);
      }
    case CreateFinished(j, c) => WithinIgnoresQueues(s, base, s.queue + [j], s.created[j := c]);
    case ReleaseGate(j) => DropStaysWithin(s, base, {j});
    case ReleaseQueue(j) => WithinIgnoresQueues(s, base, Without(s.queue, {j}), s.created);
    case ReleaseCreated(j) => WithinIgnoresQueues(s, base, s.queue, s.created - {j});
    case TimerTick(snapshot, now) =>
      ReleaseStaysWithin(s, base, Doomed(s, snapshot, now));
      PromoteStaysWithin(ReleaseAll(s, Doomed(s, snapshot, now)), base);
    case StartAnswered(result) =>
      if d.pending != [] {
        AnswerStaysWithin(d, base, result);
      }
    case PushBack =>
      if d.pushing.Some? {
        WithinIgnoresQueues(s, base, s.queue + [d.pushing.value], s.created);
      }
  }

  /**
   Budget safety over every run, whatever the interleaving: after adoption the true use of each
   resource never exceeds the larger of the budget and what was adopted, and the tracked jobs
   never exceed the larger of the ceiling and the number adopted.
   */
  lemma BudgetIsSafe(budget: JobSize, queueMax: u32, listing: seq<Adoption.Container>, now: int, events: seq<Event>)
    ensures var adopted := Adoption.Adopt(Fresh(budget, queueMax), listing, now).state;
            var s := Run(AtRest(adopted, []), events).state;
            && (forall d :: TrueUsed(s.jobs, d) <= Max(Amount(budget, d), TrueUsed(adopted.jobs, d)))
            && |s.jobs| <= Max(queueMax, |adopted.jobs|)
  {
    var adopted := Adoption.Adopt(Fresh(budget, queueMax), listing, now).state;
    Adoption.AdoptKeepsCoherent(Fresh(budget, queueMax), listing, now);
    RunStaysWithin(AtRest(adopted, []), events);
  }

  lemma {:induction false} RunStaysWithin(d: Daemon, events: seq<Event>)
    ensures Within(Run(d, events).state, d.state)
  {
    if events != [] {
      RunStaysWithin(d, events[..|events| - 1]);
      StepStaysWithin(Run(d, events[..|events| - 1]), d.state, events[|events| - 1]);
    }
  }

  // ---------------------------------------------------------- coherence, over every run

  /** An unanswered start request names a job that is gone, or running with that very container. */
  predicate Backed(s: State, r: StartRequest) {
    r.job in s.jobs ==>
      && s.jobs[r.job].running
      && s.jobs[r.job].size.FitsWithin(s.budget)
      && r.job in s.created && s.created[r.job] == r.container
  }

  predicate AllBacked(s: State, pending: seq<StartRequest>) {
    forall i :: 0 <= i < |pending| ==> Backed(s, pending[i])
  }

  /** The state once the push under way has been made. */
  function Due(d: Daemon): State {
    if d.pushing.Some? then Pushed(d.state, d.pushing.value) else d.state
  }

  function Releasing(d: Daemon): set<JobId> {
    (set j | j in d.unqueue) + (set j | j in d.forget)
  }

  /** Gate, queue and container map agree, but for what releases under way have still to do; an
      untracked queue entry has a release under way that will still remove it. */
  predicate Inv(d: Daemon) {
    && CoherentBut(Due(d), Releasing(d))
    && (forall j :: j in Due(d).queue && j !in d.state.jobs ==> j in d.unqueue)
    && Startable(d.state)
    && NoDup(JobsOf(d.pending))
    && AllBacked(d.state, d.pending)
  }

  /** With nothing under way, that is coherence. */
  lemma AtRestIsCoherent(d: Daemon)
    requires Inv(d) && d.pushing.None? && d.unqueue == multiset{} && d.forget == multiset{}
    ensures Coherent(d.state)
  {
    assert Releasing(d) == {};
  }

  /** What the code's own order of execution allows next: sections of one operation in turn, one tick
      at a time, answers and push-backs within it. */
  predicate Enabled(d: Daemon, e: Event) {
    match e
    case PostJob(_, _) => true
    case CreateFinished(_, _) => true
    case ReleaseGate(_) => true
    case ReleaseQueue(j) => j in d.unqueue
    case ReleaseCreated(j) => j in d.forget
    case TimerTick(_, _) => d.pending == [] && d.pushing.None?
    case StartAnswered(_) => d.pending != [] && d.pushing.None?
    case PushBack => d.pushing.Some?
  }

  /**
   Enough to stay out of each other's way: an id is not admitted again while a start or a release of it is
   under way; no create finishes for a tracked job that already has a container; and the last release of
   a job does not leave the queue before that job's own push-back enters it.
   */
  predicate Safe(d: Daemon, e: Event) {
    match e
    case PostJob(j, size) =>
      AdmitDecision(d.state.budget, d.state.queueMax, d.state.jobs, j, size).Admitted?
      ==> j !in JobsOf(d.pending) && j !in Releasing(d)
    case CreateFinished(j, _) => j in d.state.jobs ==> j !in d.state.created
    case ReleaseQueue(j) => d.pushing == Some(j) ==> d.unqueue[j] > 1
    case _ => true
  }

  // -------------------------------------------------------------------- step by step

  lemma PendingJob(pending: seq<StartRequest>, j: JobId)
    ensures j in JobsOf(pending) <==> exists i :: 0 <= i < |pending| && pending[i].job == j
  {
    var jobs := JobsOf(pending);
    if j in jobs {
      var i :| 0 <= i < |jobs| && jobs[i] == j;
      assert pending[i].job == j;
    }
    if i :| 0 <= i < |pending| && pending[i].job == j {
      assert jobs[i] == j;
    }
  }

  lemma PushedNoDup(q: seq<JobId>, j: JobId)
    ensures NoDup(q + [j]) <==> NoDup(q) && j !in q
  {
    var all := q + [j];
    assert all[|q|] == j && forall i :: 0 <= i < |q| ==> all[i] == q[i];
  }

  lemma DueQueue(d: Daemon)
    requires NoDup(Due(d).queue)
    ensures NoDup(d.state.queue) && (d.pushing.Some? ==> d.pushing.value !in d.state.queue)
    ensures forall j :: j in Due(d).queue <==> j in d.state.queue || d.pushing == Some(j)
  {
    if d.pushing.Some? {
      PushedNoDup(d.state.queue, d.pushing.value);
    }
  }

  /** Dropping untracked entries from the queue and the container map. */
  lemma DropUntracked(s: State, t: State, loose: set<JobId>, left: set<JobId>)
    requires CoherentBut(s, loose) && t.jobs == s.jobs && left <= loose && NoDup(t.queue)
    requires forall i :: i in t.queue ==> i in s.queue && (i in s.jobs || i in left)
    requires forall i :: i in t.created ==> i in s.created && (i in s.jobs || i in left)
    requires forall i :: i in s.jobs ==> (i in s.queue ==> i in t.queue) && (i in s.created ==> i in t.created)
    ensures CoherentBut(t, left)
  {
  }

  lemma StillBacked(s: State, t: State, pending: seq<StartRequest>)
    requires AllBacked(s, pending) && t.budget == s.budget
    requires forall i :: 0 <= i < |pending| && pending[i].job in t.jobs ==>
               var j := pending[i].job;
               && j in s.jobs && t.jobs[j] == s.jobs[j]
               && (j in s.created ==> j in t.created && t.created[j] == s.created[j])
    ensures AllBacked(t, pending)
  {
    forall i | 0 <= i < |pending| ensures Backed(t, pending[i]) {
      assert Backed(s, pending[i]);
    }
  }

  lemma AdmitKeepsRest(s: State, loose: set<JobId>, j: JobId, size: JobSize)
    requires CoherentBut(s, loose) && j !in s.jobs && j !in loose
    ensures CoherentBut(s.(jobs := s.jobs[j := Entry(size, false)]), loose)
  {
    assert j !in s.queue && j !in s.created;
  }

  lemma PostIsSafe(d: Daemon, j: JobId, size: JobSize)
    requires Inv(d) && AdmitDecision(d.state.budget, d.state.queueMax, d.state.jobs, j, size).Admitted?
    requires j !in JobsOf(d.pending) && j !in Releasing(d)
    ensures Inv(Apply(d, PostJob(j, size)))
  {
    var d' := Apply(d, PostJob(j, size));
    assert Releasing(d') == Releasing(d);
    AdmitKeepsRest(Due(d), Releasing(d), j, size);
    assert Due(d') == Due(d).(jobs := d'.state.jobs);
    PendingJob(d.pending, j);
    StillBacked(d.state, d'.state, d.pending);
  }

  lemma CreatedQueue(d: Daemon, j: JobId, c: ContainerId)
    requires NoDup(Due(d).queue) && j in d.state.jobs && j !in Due(d).queue
    ensures var q := Due(Apply(d, CreateFinished(j, c))).queue;
            NoDup(q) && forall i :: i in q <==> i in Due(d).queue || i == j
  {
    DueQueue(d);
    PushedNoDup(d.state.queue, j);
    if d.pushing.Some? {
      PushedNoDup(d.state.queue + [j], d.pushing.value);
    }
  }

  lemma CreateOnce(d: Daemon, j: JobId, c: ContainerId)
    requires Inv(d) && j in d.state.jobs && j !in d.state.created
    ensures Inv(Apply(d, CreateFinished(j, c)))
  {
    var d' := Apply(d, CreateFinished(j, c));
    assert j !in Due(d).queue && Releasing(d') == Releasing(d);
    CreatedQueue(d, j, c);
    assert forall i :: 0 <= i < |d.pending| ==> Backed(d.state, d.pending[i]);
    StillBacked(d.state, d'.state, d.pending);
  }

  lemma GateKeepsInv(d: Daemon, j: JobId)
    requires Inv(d)
    ensures Inv(Apply(d, ReleaseGate(j)))
  {
    var d' := Apply(d, ReleaseGate(j));
    assert Releasing(d') == Releasing(d) + {j};
    assert Due(d').queue == Due(d).queue && Due(d').created == Due(d).created;
    StillBacked(d.state, d'.state, d.pending);
  }

  lemma UnqueuedQueue(d: Daemon, j: JobId)
    requires NoDup(Due(d).queue)
    ensures var q := Due(Apply(d, ReleaseQueue(j))).queue;
            NoDup(q) && forall i :: i in q <==> i in Due(d).queue && (i == j ==> d.pushing == Some(j))
  {
    DueQueue(d);
    WithoutKeepsNoDup(d.state.queue, {j});
    if d.pushing.Some? {
      PushedNoDup(Without(d.state.queue, {j}), d.pushing.value);
    }
  }

  lemma QueueIsSafe(d: Daemon, j: JobId)
    requires Inv(d) && j in d.unqueue && (d.pushing == Some(j) ==> d.unqueue[j] > 1)
    ensures Inv(Apply(d, ReleaseQueue(j)))
  {
    var d' := Apply(d, ReleaseQueue(j));
    assert j in Releasing(d) && Releasing(d') == Releasing(d);
    UnqueuedQueue(d, j);
    assert forall i :: i != j ==> (i in d'.unqueue <==> i in d.unqueue);
    DropUntracked(Due(d), Due(d'), Releasing(d), Releasing(d'));
    StillBacked(d.state, d'.state, d.pending);
  }

  lemma CreatedKeepsInv(d: Daemon, j: JobId)
    requires Inv(d) && j in d.forget
    ensures Inv(Apply(d, ReleaseCreated(j)))
  {
    var d' := Apply(d, ReleaseCreated(j));
    assert j !in d.state.jobs;
    assert Due(d').queue == Due(d).queue;
    assert forall i :: i != j ==> (i in d'.forget <==> i in d.forget);
    assert forall i :: i != j ==> (i in Releasing(d') <==> i in Releasing(d));
    assert j in Releasing(d);
    DropUntracked(Due(d), Due(d'), Releasing(d), Releasing(d'));
    StillBacked(d.state, d'.state, d.pending);
  }

  lemma PromotedAreBacked(s: State, loose: set<JobId>, snapshot: seq<Snapshot>, now: int)
    requires CoherentBut(s, loose) && Startable(s)
    ensures AllBacked(Reconcile(s, snapshot, now).state, Reconcile(s, snapshot, now).start)
  {
    var t := Reconcile(s, snapshot, now);
    ReconcileStartsThePromoted(s, loose, snapshot, now);
    forall i | 0 <= i < |t.start| ensures Backed(t.state, t.start[i]) {
      assert JobsOf(t.start)[i] == t.start[i].job && t.start[i] in t.start;
      ReconcileMeaning(s, loose, snapshot, now, t.start[i].job);
    }
  }

  lemma TickKeepsInv(d: Daemon, snapshot: seq<Snapshot>, now: int)
    requires Inv(d) && d.pending == [] && d.pushing.None?
    ensures Inv(Apply(d, TimerTick(snapshot, now)))
  {
    var s, loose := d.state, Releasing(d);
    var t := Reconcile(s, snapshot, now);
    assert d.pending + t.start == t.start;
    assert Due(d) == s;
    ReconcileKeepsCoherent(s, loose, snapshot, now);
    assert NoDup(JobsOf(t.start)) by { ReconcileStartsThePromoted(s, loose, snapshot, now); }
    PromotedAreBacked(s, loose, snapshot, now);
    forall j | j in t.state.queue && j !in t.state.jobs ensures j in d.unqueue {
      ReconcileMeaning(s, loose, snapshot, now, j);
    }
  }

  lemma RestBacked(s: State, pending: seq<StartRequest>, t: State)
    requires pending != [] && NoDup(JobsOf(pending)) && AllBacked(s, pending) && t.budget == s.budget
    requires forall i :: i != pending[0].job && i in t.jobs ==>
               && i in s.jobs && t.jobs[i] == s.jobs[i]
               && (i in s.created ==> i in t.created && t.created[i] == s.created[i])
    ensures NoDup(JobsOf(pending[1..])) && AllBacked(t, pending[1..])
  {
    var all := JobsOf(pending);
    assert JobsOf(pending[1..]) == all[1..];
    forall i | 0 <= i < |pending| - 1 ensures Backed(t, pending[1..][i]) {
      assert pending[1..][i] == pending[i + 1] && all[0] != all[i + 1];
      assert Backed(s, pending[i + 1]);
    }
  }

  lemma FailedStartKeepsInv(d: Daemon)
    requires Inv(d) && d.pending != [] && d.pushing.None?
    ensures Inv(AnswerStart(d, Transient))
  {
    var j, d' := d.pending[0].job, AnswerStart(d, Transient);
    assert Backed(d.state, d.pending[0]);
    RestBacked(d.state, d.pending, d'.state);
    if j in d.state.jobs {
      assert j !in d.state.queue;
      PushedNoDup(d.state.queue, j);
      assert Due(d').queue == d.state.queue + [j];
    }
  }

  lemma AnswerKeepsInv(d: Daemon, result: StartResult)
    requires Inv(d) && d.pending != [] && d.pushing.None?
    ensures Inv(AnswerStart(d, result))
  {
    var j, d' := d.pending[0].job, AnswerStart(d, result);
    match result
    case Ok => RestBacked(d.state, d.pending, d.state);
    case Transient => FailedStartKeepsInv(d);
    case NoSuchContainer =>
      RestBacked(d.state, d.pending, d'.state);
      ReleaseKeepsCoherent(d.state, Releasing(d), {j});
  }

  lemma PostKeepsInv(d: Daemon, j: JobId, size: JobSize)
    requires Inv(d) && Safe(d, PostJob(j, size))
    ensures Inv(Apply(d, PostJob(j, size)))
  {
    if AdmitDecision(d.state.budget, d.state.queueMax, d.state.jobs, j, size).Admitted? {
      PostIsSafe(d, j, size);
    } else {
      assert Apply(d, PostJob(j, size)) == d;
    }
  }

  lemma CreateKeepsInv(d: Daemon, j: JobId, c: ContainerId)
    requires Inv(d) && Safe(d, CreateFinished(j, c))
    ensures Inv(Apply(d, CreateFinished(j, c)))
  {
    if j in d.state.jobs {
      CreateOnce(d, j, c);
    } else {
      assert Apply(d, CreateFinished(j, c)) == d;
    }
  }

  /** Each safe step the code can take keeps the invariant. */
  lemma StepKeepsInv(d: Daemon, e: Event)
    requires Inv(d) && Enabled(d, e) && Safe(d, e)
    ensures Inv(Apply(d, e))
  {
    match e
    case PostJob(j, size) => PostKeepsInv(d, j, size);
    case CreateFinished(j, c) => CreateKeepsInv(d, j, c);
    case ReleaseGate(j) => GateKeepsInv(d, j);
    case ReleaseQueue(j) => QueueIsSafe(d, j);
    case ReleaseCreated(j) => CreatedKeepsInv(d, j);
    case TimerTick(snapshot, now) => TickKeepsInv(d, snapshot, now);
    case StartAnswered(result) => AnswerKeepsInv(d, result);
    case PushBack =>
  }

  // ------------------------------------------------------------------------ whole runs

  ghost predicate Orderly(d: Daemon, events: seq<Event>) {
    forall n :: 0 <= n < |events| ==> Enabled(Run(d, events[..n]), events[n])
  }

  ghost predicate AllSafe(d: Daemon, events: seq<Event>) {
    forall n :: 0 <= n < |events| ==> Safe(Run(d, events[..n]), events[n])
  }

  lemma RunNext(d: Daemon, events: seq<Event>, n: nat)
    requires n < |events|
    ensures Run(d, events[..n + 1]) == Apply(Run(d, events[..n]), events[n])
  {
    assert events[..n + 1] == events[..n] + [events[n]];
    RunSnoc(d, events[..n], events[n]);
  }

  lemma SafeStepKeepsInv(d: Daemon, events: seq<Event>, n: nat)
    requires n < |events| && Orderly(d, events) && AllSafe(d, events) && Inv(Run(d, events[..n]))
    ensures Inv(Run(d, events[..n + 1]))
  {
    RunNext(d, events, n);
    StepKeepsInv(Run(d, events[..n]), events[n]);
  }

  /** A run in the code's own order whose steps are all safe keeps the invariant all along. */
  lemma {:induction false} SafeRunsKeepInv(d: Daemon, events: seq<Event>, n: nat)
    requires Inv(d) && Orderly(d, events) && AllSafe(d, events) && n <= |events|
    ensures Inv(Run(d, events[..n]))
    decreases n
  {
    if n > 0 {
      SafeRunsKeepInv(d, events, n - 1);
      SafeStepKeepsInv(d, events, n - 1);
    }
  }

  lemma AdoptedIsInv(budget: JobSize, queueMax: u32, listing: seq<Adoption.Container>, now: int)
    ensures Inv(AtRest(Adoption.Adopt(Fresh(budget, queueMax), listing, now).state, []))
  {
    Adoption.AdoptKeepsCoherent(Fresh(budget, queueMax), listing, now);
    assert Releasing(AtRest(Adoption.Adopt(Fresh(budget, queueMax), listing, now).state, [])) == {};
  }

  // ------------------------------------------------------------- what an unsafe step does

  /** A requested release, its three sections in a row. */
  ghost function ReleasedNow(d: Daemon, j: JobId): Daemon {
    Apply(Apply(Apply(d, ReleaseGate(j)), ReleaseQueue(j)), ReleaseCreated(j))
  }

  lemma ReleasedNowIsReleaseAll(d: Daemon, j: JobId)
    ensures ReleasedNow(d, j) == d.(state := ReleaseAll(d.state, {j}))
  {
    assert d.unqueue + multiset{j} - multiset{j} == d.unqueue;
    assert d.forget + multiset{j} - multiset{j} == d.forget;
  }

  /** A start that fails for a job admitted again since: it is queued, and has no container. */
  lemma FailedStartOfReposted(d: Daemon, j: JobId)
    requires d.pending != [] && d.pushing.None? && d.pending[0].job == j
    requires j in d.state.jobs && !d.state.jobs[j].running && j !in d.state.created
    ensures var s := Apply(Apply(d, StartAnswered(Transient)), PushBack).state;
            j in s.jobs && !s.jobs[j].running && j in s.queue && j !in s.created
  {
    var s := Apply(Apply(d, StartAnswered(Transient)), PushBack).state;
    assert s.queue[|d.state.queue|] == j;
  }

  /**
   A job id posted again while its old start is unanswered: when the old start then fails
   transiently, the new admission lands in the queue without a container.
   */
  lemma RepostDuringStartBreaksCoherence(d: Daemon, size: JobSize)
    requires d.pending != [] && d.pushing.None?
    requires size.FitsWithin(d.state.budget) && |d.state.jobs - {d.pending[0].job}| < d.state.queueMax
    ensures var j := d.pending[0].job;
            var posted := Apply(ReleasedNow(d, j), PostJob(j, size));
            var s := Apply(Apply(posted, StartAnswered(Transient)), PushBack).state;
            j in s.jobs && !s.jobs[j].running && j in s.queue && j !in s.created && !Coherent(s)
  {
    var j := d.pending[0].job;
    ReleasedNowIsReleaseAll(d, j);
    FailedStartOfReposted(Apply(ReleasedNow(d, j), PostJob(j, size)), j);
  }

  /**
   A job id admitted again while a release of it is under way: once its container is recorded, the rest
   of the old release takes the new job off the queue and its container off the map. Over any number of
   later ticks the gate goes on tracking it, never running, exactly until some tick lists an expired
   container of that job.
   */
  lemma RepostDuringReleaseStrandsTheJob(d: Daemon, j: JobId, size: JobSize, c: ContainerId, listings: seq<Listing>)
    requires AdmitDecision(d.state.budget, d.state.queueMax, d.state.jobs, j, size).Admitted?
    ensures var posted := Apply(Apply(Apply(d, ReleaseGate(j)), PostJob(j, size)), CreateFinished(j, c));
            var s := Apply(Apply(posted, ReleaseQueue(j)), ReleaseCreated(j)).state;
            && Stranded(s, j) && j !in s.created
            && (Stranded(Ticks(s, listings), j) <==> NeverExpires(listings, j))
            && (!NeverExpires(listings, j) ==> j !in Ticks(s, listings).jobs)
  {
    assert d.state.jobs - {j} == d.state.jobs;
    var posted := Apply(Apply(Apply(d, ReleaseGate(j)), PostJob(j, size)), CreateFinished(j, c));
    RestOfRelease(posted, j);
    StrandedThroughTicks(Apply(Apply(posted, ReleaseQueue(j)), ReleaseCreated(j)).state, listings, j);
  }

  lemma RestOfRelease(d: Daemon, j: JobId)
    requires j in d.state.jobs && !d.state.jobs[j].running
    ensures var s := Apply(Apply(d, ReleaseQueue(j)), ReleaseCreated(j)).state;
            Stranded(s, j) && j !in s.created
  {
  }

  lemma PushLeaks(d: Daemon, j: JobId)
    requires d.pushing == Some(j) && j !in d.state.jobs
    ensures Leaked(Apply(d, PushBack).state, j)
  {
    assert Apply(d, PushBack).state.queue[|d.state.queue|] == j;
  }

  lemma LeakOf(d: Daemon, j: JobId)
    requires d.pending != [] && d.pushing.None? && d.pending[0].job == j && j in d.state.jobs
    ensures Leaked(Apply(ReleasedNow(Apply(d, StartAnswered(Transient)), j), PushBack).state, j)
  {
    ReleasedNowIsReleaseAll(Apply(d, StartAnswered(Transient)), j);
    PushLeaks(ReleasedNow(Apply(d, StartAnswered(Transient)), j), j);
  }

  /**
   A release whose sections all land between the two of undoing a failed start leaves a queue entry
   the gate does not know; over any number of later ticks it is drained exactly when some tick lists an
   expired container of that job.
   */
  lemma ReleaseBetweenSectionsLeaks(d: Daemon, listings: seq<Listing>)
    requires d.pending != [] && d.pushing.None? && d.pending[0].job in d.state.jobs
    ensures var j := d.pending[0].job;
            var s := Apply(ReleasedNow(Apply(d, StartAnswered(Transient)), j), PushBack).state;
            && Leaked(s, j)
            && (Leaked(Ticks(s, listings), j) <==> NeverExpires(listings, j))
            && j !in Ticks(s, listings).jobs
  {
    var j := d.pending[0].job;
    LeakOf(d, j);
    LeakedThroughTicks(Apply(ReleasedNow(Apply(d, StartAnswered(Transient)), j), PushBack).state, listings, j);
  }
}
