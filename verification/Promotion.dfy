/**
 Exactly which jobs a tick starts and which containers it removes (crates/daemon/src/reaper.rs), stated on
 what is waiting, what Docker lists and what the running jobs truly use.
 */
module Promotion {
  import opened Text
  import opened Gate
  import opened Scheduler

  // ------------------------------------------------------------------ in arrival order

  lemma MarkTwice(jobs: Jobs, a: set<JobId>, b: set<JobId>)
    ensures MarkRunning(MarkRunning(jobs, a), b) == MarkRunning(jobs, a + b)
  {
  }

  lemma MarkOne(jobs: Jobs, j: JobId)
    requires j in jobs
    ensures MarkRunning(jobs, {j}) == jobs[j := Entry(jobs[j].size, true)]
  {
  }

  /** The jobs further back are offered what those ahead leave. */
  lemma {:induction false} StartedInTurn(budget: JobSize, jobs: Jobs, a: seq<JobId>, b: seq<JobId>)
    ensures var ahead := StartedOf(budget, jobs, a);
            StartedOf(budget, jobs, a + b) == ahead + StartedOf(budget, MarkRunning(jobs, Elements(ahead)), b)
    decreases |a|
  {
    if a == [] {
      assert a + b == b;
      assert MarkRunning(jobs, Elements(StartedOf(budget, jobs, a))) == jobs;
    } else {
      var j, ab := a[0], a + b;
      assert ab[0] == j && ab[1..] == a[1..] + b;
      if Starts(budget, jobs, j) {
        var jobs' := jobs[j := Entry(jobs[j].size, true)];
        var more := StartedOf(budget, jobs', a[1..]);
        StartedInTurn(budget, jobs', a[1..], b);
        MarkOne(jobs, j);
        MarkTwice(jobs, {j}, Elements(more));
        assert Elements([j] + more) == {j} + Elements(more);
        ConcatAssoc([j], more, StartedOf(budget, MarkRunning(jobs', Elements(more)), b));
      } else {
        StartedInTurn(budget, jobs, a[1..], b);
      }
    }
  }

  lemma {:induction false} WithoutAppend(a: seq<JobId>, b: seq<JobId>, gone: set<JobId>)
    ensures Without(a + b, gone) == Without(a, gone) + Without(b, gone)
    decreases |a|
  {
    if a == [] {
      assert a + b == b;
    } else {
      assert (a + b)[1..] == a[1..] + b;
      WithoutAppend(a[1..], b, gone);
    }
  }

  lemma WithoutAround(before: seq<JobId>, j: JobId, after: seq<JobId>, gone: set<JobId>)
    requires j !in gone
    ensures Without(before + ([j] + after), gone) == Without(before, gone) + ([j] + Without(after, gone))
  {
    WithoutAppend(before, [j] + after, gone);
    assert ([j] + after)[1..] == after;
  }

  /** A waiting job starts exactly when it fits on top of what runs and what starts ahead of it. */
  lemma StartsInTurnIff(s: State, before: seq<JobId>, j: JobId, after: seq<JobId>)
    requires NoDup(s.queue) && s.queue == before + ([j] + after) && j in s.jobs && !s.jobs[j].running
    ensures var started := StartedOf(s.budget, s.jobs, s.queue);
            var ahead := set i | i in before && i in started;
            j in started <==> FitsNow(s.budget, MarkRunning(s.jobs, ahead), s.jobs[j].size)
  {
    var first := StartedOf(s.budget, s.jobs, before);
    var jobs := MarkRunning(s.jobs, Elements(first));
    var rest := StartedOf(s.budget, jobs, [j] + after);
    StartedInTurn(s.budget, s.jobs, before, [j] + after);
    StartedFromPending(s.budget, s.jobs, before);
    StartedFromPending(s.budget, jobs, [j] + after);
    Apart(before, [j] + after);
    assert Elements(first) == set i | i in before && i in first + rest;
    StartsFirstIff(s.budget, jobs, j, after);
  }

  lemma Apart(a: seq<JobId>, b: seq<JobId>)
    requires NoDup(a + b)
    ensures NoDup(a) && NoDup(b) && forall i :: i in a ==> i !in b
  {
    var ab := a + b;
    assert forall k :: 0 <= k < |a| ==> ab[k] == a[k];
    assert forall k :: 0 <= k < |b| ==> ab[|a| + k] == b[k];
  }

  lemma StartsFirstIff(budget: JobSize, jobs: Jobs, j: JobId, after: seq<JobId>)
    requires j in jobs && !jobs[j].running && j !in after
    ensures j in StartedOf(budget, jobs, [j] + after) <==> FitsNow(budget, jobs, jobs[j].size)
  {
    assert ([j] + after)[1..] == after;
    StartedFromPending(budget, jobs, after);
    StartedFromPending(budget, jobs[j := Entry(jobs[j].size, true)], after);
  }

  // ------------------------------------------------------------------------- a whole tick

  /** What runs once the tick has let go what it lets go, with the jobs in `ahead` started. */
  function Load(s: State, snapshot: seq<Snapshot>, now: int, ahead: set<JobId>): Jobs {
    map j | j in s.jobs && !LetGo(s, snapshot, now, j) :: Entry(s.jobs[j].size, s.jobs[j].running || j in ahead)
  }

  ghost predicate HasRoom(budget: JobSize, jobs: Jobs, size: JobSize) {
    Room(budget, jobs, size, Vcpu) && Room(budget, jobs, size, Memory)
  }

  lemma LoadIsFreed(s: State, snapshot: seq<Snapshot>, now: int, ahead: set<JobId>)
    ensures MarkRunning(ReleaseAll(s, Doomed(s, snapshot, now)).jobs, ahead) == Load(s, snapshot, now, ahead)
  {
    forall j ensures j in Doomed(s, snapshot, now) <==> LetGo(s, snapshot, now, j) {
      DoomedAreLetGo(s, snapshot, now, j);
    }
  }

  /**
   A tick starts a waiting unexpired job exactly when the true sums leave room for it on top of what still
   runs and what the tick starts ahead of it in the queue.
   */
  lemma TickStartsIffRoom(s: State, loose: set<JobId>, snapshot: seq<Snapshot>, now: int,
                          before: seq<JobId>, j: JobId, after: seq<JobId>)
    requires CoherentBut(s, loose) && s.queue == before + ([j] + after)
    requires j in s.jobs && !Expires(snapshot, now, j)
    ensures var started := JobsOf(Reconcile(s, snapshot, now).start);
            var ahead := set i | i in before && i in started;
            j in started <==> HasRoom(s.budget, Load(s, snapshot, now, ahead), s.jobs[j].size)
  {
    var gone := Doomed(s, snapshot, now);
    var freed := ReleaseAll(s, gone);
    assert s.queue[|before|] == j;
    DoomedAreLetGo(s, snapshot, now, j);
    ReconcileStartsThePromoted(s, loose, snapshot, now);
    ReleaseKeepsCoherent(s, loose, gone);
    WithoutAround(before, j, after, gone);
    StartsInTurnIff(freed, Without(before, gone), j, Without(after, gone));
    AheadIsAhead(s, gone, before);
    var ahead := set i | i in before && i in JobsOf(Reconcile(s, snapshot, now).start);
    LoadIsFreed(s, snapshot, now, ahead);
    FitsNowIsTrueRoom(s.budget, Load(s, snapshot, now, ahead), s.jobs[j].size);
  }

  lemma AheadIsAhead(s: State, gone: set<JobId>, before: seq<JobId>)
    ensures var freed := ReleaseAll(s, gone);
            var started := StartedOf(freed.budget, freed.jobs, freed.queue);
            (set i | i in Without(before, gone) && i in started) == (set i | i in before && i in started)
  {
    var freed := ReleaseAll(s, gone);
    StartedFromPending(freed.budget, freed.jobs, freed.queue);
  }

  /** A job that fits starts ahead of one that has waited longer and does not. */
  lemma SmallerStartsFirst(s: State, loose: set<JobId>, snapshot: seq<Snapshot>, now: int, h: JobId, j: JobId)
    requires CoherentBut(s, loose) && s.queue == [h, j] && h in s.jobs && j in s.jobs
    requires !Expires(snapshot, now, h) && !Expires(snapshot, now, j)
    requires !HasRoom(s.budget, Load(s, snapshot, now, {}), s.jobs[h].size)
    requires HasRoom(s.budget, Load(s, snapshot, now, {}), s.jobs[j].size)
    ensures var t := Reconcile(s, snapshot, now);
            h !in JobsOf(t.start) && j in JobsOf(t.start) && h in t.state.queue
  {
    var started := JobsOf(Reconcile(s, snapshot, now).start);
    assert [h, j] == [] + ([h] + [j]) && [h, j] == [h] + ([j] + []);
    TickStartsIffRoom(s, loose, snapshot, now, [], h, [j]);
    assert (set i | i in [] && i in started) == {};
    TickStartsIffRoom(s, loose, snapshot, now, [h], j, []);
    assert (set i | i in [h] && i in started) == {};
    ReconcileMeaning(s, loose, snapshot, now, h);
  }

  /** After a tick no waiting job fits what is left. */
  lemma TickLeavesNoRoom(s: State, loose: set<JobId>, snapshot: seq<Snapshot>, now: int, j: JobId)
    requires CoherentBut(s, loose)
    ensures var t := Reconcile(s, snapshot, now).state;
            j in t.queue && j in t.jobs ==> !HasRoom(t.budget, t.jobs, t.jobs[j].size)
  {
    var freed, t := ReleaseAll(s, Doomed(s, snapshot, now)), Reconcile(s, snapshot, now).state;
    ReleaseKeepsCoherent(s, loose, Doomed(s, snapshot, now));
    PromotionIsFairAndMaximal(freed);
    if j in t.queue && j in t.jobs {
      FitsNowIsTrueRoom(t.budget, t.jobs, t.jobs[j].size);
    }
  }

  /**
   With nothing running any more, the first waiting job that has not expired is the first started, in its
   recorded container.
   */
  lemma IdleTickStartsTheHead(s: State, loose: set<JobId>, snapshot: seq<Snapshot>, now: int,
                              before: seq<JobId>, j: JobId, after: seq<JobId>)
    requires CoherentBut(s, loose) && Startable(s) && s.queue == before + ([j] + after)
    requires j in s.jobs && !Expires(snapshot, now, j)
    requires forall i :: i in before ==> Expires(snapshot, now, i)
    requires forall i :: i in s.jobs && s.jobs[i].running ==> !StillRunning(snapshot, now, i)
    ensures j in s.created && [StartRequest(j, s.created[j])] <= Reconcile(s, snapshot, now).start
  {
    var gone, t := Doomed(s, snapshot, now), Reconcile(s, snapshot, now);
    var freed := ReleaseAll(s, gone);
    assert s.queue[|before|] == j;
    DoomedAreLetGo(s, snapshot, now, j);
    forall i | i in before ensures i in gone {
      DoomedAreLetGo(s, snapshot, now, i);
    }
    WithoutAround(before, j, after, gone);
    assert Without(before, gone) == [];
    NothingRuns(s, snapshot, now);
    FitsNowIsTrueRoom(freed.budget, freed.jobs, freed.jobs[j].size);
    assert Starts(freed.budget, freed.jobs, j);
    ReconcileStartsThePromoted(s, loose, snapshot, now);
    assert JobsOf(t.start)[0] == j && t.start[0] in t.start;
  }

  lemma NothingRuns(s: State, snapshot: seq<Snapshot>, now: int)
    requires forall i :: i in s.jobs && s.jobs[i].running ==> !StillRunning(snapshot, now, i)
    ensures var freed := ReleaseAll(s, Doomed(s, snapshot, now));
            TrueUsed(freed.jobs, Vcpu) == 0 && TrueUsed(freed.jobs, Memory) == 0
  {
    var freed := ReleaseAll(s, Doomed(s, snapshot, now));
    forall i | i in freed.jobs ensures !freed.jobs[i].running {
      DoomedAreLetGo(s, snapshot, now, i);
    }
    TrueUsedNothingRunning(freed.jobs, Vcpu);
    TrueUsedNothingRunning(freed.jobs, Memory);
  }

  // ----------------------------------------------------------------------------- removals

  lemma {:induction false} RemovalsAppend(a: seq<Snapshot>, b: seq<Snapshot>, now: int, before: set<JobId>)
    ensures Removals(a + b, now, before) == Removals(a, now, before) + Removals(b, now, before)
    decreases |b|
  {
    if b == [] {
      assert a + b == a;
    } else {
      var front := b[..|b| - 1];
      assert (a + b)[..|a + b| - 1] == a + front;
      RemovalsAppend(a, front, now, before);
    }
  }

  /** Each listed container is removed or not on its own: if it is past its deadline, or has stopped and its job
      was running. */
  lemma TickRemoves(s: State, front: seq<Snapshot>, e: Snapshot, back: seq<Snapshot>, now: int)
    ensures Reconcile(s, [], now).remove == []
    ensures Reconcile(s, front + ([e] + back), now).remove
         == Reconcile(s, front, now).remove
            + ((if e.deadlineMs <= now || (!e.running && e.job in s.jobs && s.jobs[e.job].running)
                then [e.container] else [])
               + Reconcile(s, back, now).remove)
  {
    var before := RunningJobs(s.jobs);
    RemovalsAppend(front, [e] + back, now, before);
    RemovalsAppend([e], back, now, before);
    assert [e][..0] == [];
    assert e.job in before <==> e.job in s.jobs && s.jobs[e.job].running;
  }
}
