/**
 The start queue over whole runs (crates/daemon/src/docker.rs, crates/daemon/src/reaper.rs): while a job
 waits, none that came later gets ahead of it.
 */
module ArrivalOrder {
  import opened Text
  import opened Gate
  import opened Scheduler
  import opened DaemonRuns

  /** `i` waits, and stands ahead of wherever `j` stands. */
  predicate Ahead(q: seq<JobId>, i: JobId, j: JobId) {
    i in q && forall y :: 0 <= y < |q| && q[y] == j ==> i in q[..y]
  }

  lemma {:induction false} DroppingKeepsAhead(q: seq<JobId>, gone: set<JobId>, i: JobId, j: JobId)
    requires i != j && Ahead(q, i, j) && i !in gone
    ensures Ahead(Without(q, gone), i, j)
    decreases |q|
  {
    var r := Without(q, gone);
    if q[0] == i {
      forall y | 0 <= y < |r| && r[y] == j ensures i in r[..y] {
        assert r[..y][0] == i;
      }
    } else {
      var rest := q[1..];
      forall y | 0 <= y < |rest| && rest[y] == j ensures i in rest[..y] {
        assert q[y + 1] == j && q[..y + 1] == [q[0]] + rest[..y];
      }
      DroppingKeepsAhead(rest, gone, i, j);
      if q[0] !in gone {
        FrontKeepsAhead(q[0], Without(rest, gone), i, j);
      }
    }
  }

  lemma FrontKeepsAhead(k: JobId, q: seq<JobId>, i: JobId, j: JobId)
    requires Ahead(q, i, j) && k != j
    ensures Ahead([k] + q, i, j)
  {
    var r := [k] + q;
    forall y | 0 <= y < |r| && r[y] == j ensures i in r[..y] {
      assert r[..y] == [k] + q[..y - 1];
    }
  }

  lemma ArrivingKeepsAhead(q: seq<JobId>, k: JobId, i: JobId, j: JobId)
    requires Ahead(q, i, j)
    ensures Ahead(q + [k], i, j)
  {
    var r := q + [k];
    forall y | 0 <= y < |r| && r[y] == j ensures i in r[..y] {
      assert r[..y] == q[..y];
    }
  }

  lemma TickKeepsAhead(s: State, snapshot: seq<Snapshot>, now: int, i: JobId, j: JobId)
    requires i != j && Ahead(s.queue, i, j) && i in Reconcile(s, snapshot, now).state.queue
    ensures Ahead(Reconcile(s, snapshot, now).state.queue, i, j)
  {
    var gone := Doomed(s, snapshot, now);
    var freed := ReleaseAll(s, gone);
    DroppingKeepsAhead(s.queue, gone, i, j);
    DroppingKeepsAhead(freed.queue, Elements(StartedOf(freed.budget, freed.jobs, freed.queue)), i, j);
  }

  /** No step lets a job overtake one that goes on waiting. */
  lemma StepKeepsAhead(d: Daemon, e: Event, i: JobId, j: JobId)
    requires i != j && Ahead(d.state.queue, i, j) && i in Apply(d, e).state.queue
    ensures Ahead(Apply(d, e).state.queue, i, j)
  {
    match e
    case PostJob(_, _) =>
    case CreateFinished(k, _) => ArrivingKeepsAhead(d.state.queue, k, i, j);
    case ReleaseGate(_) =>
    case ReleaseQueue(k) => DroppingKeepsAhead(d.state.queue, {k}, i, j);
    case ReleaseCreated(_) =>
    case TimerTick(snapshot, now) => TickKeepsAhead(d.state, snapshot, now, i, j);
    case StartAnswered(result) =>
      if d.pending != [] && result == NoSuchContainer {
        DroppingKeepsAhead(d.state.queue, {d.pending[0].job}, i, j);
      }
    case PushBack =>
      if d.pushing.Some? {
        ArrivingKeepsAhead(d.state.queue, d.pushing.value, i, j);
      }
  }

  /** The job waits at every point of the run. */
  ghost predicate WaitsThroughout(d: Daemon, events: seq<Event>, i: JobId) {
    forall n :: 0 <= n <= |events| ==> i in Run(d, events[..n]).state.queue
  }

  /** Whatever happens, a job that waits from before another arrives stays ahead of it for as long as it waits. */
  lemma {:induction false} NeverOvertaken(d: Daemon, events: seq<Event>, i: JobId, j: JobId, n: nat)
    requires i != j && j !in d.state.queue && WaitsThroughout(d, events, i) && n <= |events|
    ensures Ahead(Run(d, events[..n]).state.queue, i, j)
    decreases n
  {
    if n == 0 {
      assert events[..0] == [];
      assert i in Run(d, events[..0]).state.queue;
    } else {
      NeverOvertaken(d, events, i, j, n - 1);
      RunNext(d, events, n - 1);
      assert i in Run(d, events[..n]).state.queue;
      StepKeepsAhead(Run(d, events[..n - 1]), events[n - 1], i, j);
    }
  }
}
