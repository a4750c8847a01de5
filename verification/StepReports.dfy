/**
 The step-report queue (crates/listener/src/step_report_queue.rs): a channel filled by the event
 forwarder, and a task that sends what it finds there in batches.
 */
module StepReports {
  import opened Text

  /** One `update_workflow_steps` request. */
  datatype Request<E> = Request(order: nat, steps: seq<E>)

  datatype Phase<E> = Waiting | Batching(batch: seq<E>) | Sending | Done

  datatype Queue<E> = Queue(
    enqueued: seq<E>,
    channel: seq<E>,
    closed: bool,
    phase: Phase<E>,
    changeOrder: nat,
    requests: seq<Request<E>>)

  // --------------------------------------------------------------- the interleaved steps

  /** What can happen next, by the forwarder (Enqueue, Close) or by the task (the others). */
  datatype Action<E> =
    | Enqueue(entry: E)
    | Close
    | Receive
    | ReceiveMore
    | Flush
    | Answered
    | Exit

  predicate Enabled<E>(q: Queue<E>, a: Action<E>) {
    match a
    case Enqueue(_) => !q.closed
    case Close => !q.closed
    case Receive => q.phase.Waiting? && q.channel != []
    case ReceiveMore => q.phase.Batching? && q.channel != []
    // `try_recv` may find the channel empty while an entry is on its way, so a flush is always possible
    case Flush => q.phase.Batching?
    case Answered => q.phase.Sending?
    case Exit => q.phase.Waiting? && q.channel == [] && q.closed
  }

  function Next<E>(q: Queue<E>, a: Action<E>): Queue<E>
    requires Enabled(q, a)
  {
    match a
    case Enqueue(entry) => q.(enqueued := q.enqueued + [entry], channel := q.channel + [entry])
    case Close => q.(closed := true)
    case Receive => q.(phase := Batching([q.channel[0]]), channel := q.channel[1..])
    case ReceiveMore => q.(phase := Batching(q.phase.batch + [q.channel[0]]), channel := q.channel[1..])
    case Flush => q.(phase := Sending, changeOrder := q.changeOrder + 1,
                     requests := q.requests + [Request(q.changeOrder, q.phase.batch)])
    case Answered => q.(phase := Waiting)
    case Exit => q.(phase := Done)
  }

  function Initial<E>(): Queue<E> {
    Queue([], [], false, Waiting, 1, [])
  }

  /** Every prefix of the run's actions was possible when it was taken. */
  predicate Possible<E>(run: seq<Action<E>>)
    decreases |run|, 1
  {
    run == [] || (Possible(run[..|run| - 1]) && Enabled(After(run[..|run| - 1]), run[|run| - 1]))
  }

  function After<E>(run: seq<Action<E>>): Queue<E>
    requires Possible(run)
    decreases |run|, 2
  {
    if run == [] then Initial() else Next(After(run[..|run| - 1]), run[|run| - 1])
  }

  // ------------------------------------------------------------------- conservation

  function Reported<E>(requests: seq<Request<E>>): seq<E> {
    if requests == [] then [] else Reported(requests[..|requests| - 1]) + requests[|requests| - 1].steps
  }

  function Held<E>(phase: Phase<E>): seq<E> {
    if phase.Batching? then phase.batch else []
  }

  ghost predicate Sound<E>(q: Queue<E>) {
    && q.enqueued == Reported(q.requests) + (Held(q.phase) + q.channel)
    && (q.phase.Batching? ==> q.phase.batch != [])
    && (q.phase.Done? ==> q.closed && q.channel == [])
    && q.changeOrder == |q.requests| + 1
    && (forall i :: 0 <= i < |q.requests| ==> q.requests[i].order == i + 1 && q.requests[i].steps != [])
  }

  lemma ReportedSnoc<E>(requests: seq<Request<E>>, r: Request<E>)
    ensures Reported(requests + [r]) == Reported(requests) + r.steps
  {
    assert (requests + [r])[..|requests|] == requests;
  }

  lemma FlushIsSound<E>(q: Queue<E>)
    requires Sound(q) && q.phase.Batching?
    ensures Sound(Next(q, Flush))
  {
    var batch := q.phase.batch;
    ReportedSnoc(q.requests, Request(q.changeOrder, batch));
    ConcatAssoc(Reported(q.requests), batch, q.channel);
    var none: seq<E> := [];
    assert none + q.channel == q.channel;
  }

  lemma TakeIsSound<E>(q: Queue<E>, a: Action<E>)
    requires Sound(q) && Enabled(q, a) && (a.Receive? || a.ReceiveMore?)
    ensures Sound(Next(q, a))
  {
    var first, rest := [q.channel[0]], q.channel[1..];
    assert q.channel == first + rest;
    if a.Receive? {
      var none: seq<E> := [];
      assert none + (first + rest) == first + rest;
    } else {
      ConcatAssoc(q.phase.batch, first, rest);
    }
  }

  lemma StepIsSound<E>(q: Queue<E>, a: Action<E>)
    requires Sound(q) && Enabled(q, a)
    ensures Sound(Next(q, a))
  {
    match a
    case Enqueue(entry) =>
      ConcatAssoc(Reported(q.requests), Held(q.phase) + q.channel, [entry]);
      ConcatAssoc(Held(q.phase), q.channel, [entry]);
    case Receive => TakeIsSound(q, a);
    case ReceiveMore => TakeIsSound(q, a);
    case Flush => FlushIsSound(q);
    case _ =>
  }

  lemma {:induction false} RunIsSound<E>(run: seq<Action<E>>)
    requires Possible(run)
    ensures Sound(After(run))
    decreases |run|
  {
    if run != [] {
      RunIsSound(run[..|run| - 1]);
      StepIsSound(After(run[..|run| - 1]), run[|run| - 1]);
    } else {
      var none: seq<Request<E>> := [];
      assert Reported(none) == [];
    }
  }

  /** Under every interleaving the requests carry, in order, a prefix of what was enqueued, all of it
      once the task has finished; no request is empty, and they are numbered 1, 2, 3, ... */
  lemma ReportsAreConserved<E>(run: seq<Action<E>>)
    requires Possible(run)
    ensures var q := After(run);
            && Reported(q.requests) <= q.enqueued
            && (q.phase.Done? ==> Reported(q.requests) == q.enqueued && q.closed)
            && forall i :: 0 <= i < |q.requests| ==> q.requests[i].order == i + 1 && q.requests[i].steps != []
  {
    RunIsSound(run);
  }

  /** A finished task stays finished: nothing can be enqueued or sent any more. */
  lemma DoneIsFinal<E>(run: seq<Action<E>>, a: Action<E>)
    requires Possible(run) && After(run).phase.Done?
    ensures !Enabled(After(run), a)
  {
    RunIsSound(run);
  }

  /** Requests are never rewritten: a longer run only adds to them. */
  lemma {:induction false} RequestsOnlyGrow<E>(run: seq<Action<E>>, n: nat)
    requires Possible(run) && n <= |run|
    ensures Possible(run[..n]) && After(run[..n]).requests <= After(run).requests
    decreases |run|
  {
    if n == |run| {
      assert run[..n] == run;
    } else {
      var front := run[..|run| - 1];
      assert front[..n] == run[..n];
      RequestsOnlyGrow(front, n);
    }
  }

  // ------------------------------------------------------------------ the task's loops

  /** How much of the task's work is left: entries not yet taken. */
  ghost predicate Batched<E>(arrivals: seq<E>, pos: nat, requests: seq<Request<E>>) {
    && pos <= |arrivals|
    && Reported(requests) == arrivals[..pos]
    && forall i :: 0 <= i < |requests| ==> requests[i].order == i + 1 && requests[i].steps != []
  }

  /**
   `run_queue` against a schedule: `arrivals` is everything enqueued before the channel closes, and
   `ready(n)` how many of them have arrived when the channel is polled with `try_recv` for the n-th time.
   */
  method RunQueue<E>(arrivals: seq<E>, ready: nat -> nat) returns (requests: seq<Request<E>>)
    ensures Reported(requests) == arrivals
    ensures forall i :: 0 <= i < |requests| ==> requests[i].order == i + 1 && requests[i].steps != []
    ensures |requests| <= |arrivals|
  {
    var changeOrder, pos, polls := 1, 0, 0;
    requests := [];
    // `recv` waits for the next entry, and ends the loop when the channel is closed and empty
    while pos < |arrivals|
      invariant Batched(arrivals, pos, requests) && changeOrder == |requests| + 1 && |requests| <= pos
      decreases |arrivals| - pos
    {
      ghost var start := pos;
      var batch := [arrivals[pos]];
      pos := pos + 1;
      while pos < |arrivals| && pos < ready(polls)
        invariant start < pos <= |arrivals| && batch == arrivals[start..pos]
        decreases |arrivals| - pos
      {
        batch := batch + [arrivals[pos]];
        pos := pos + 1;
        polls := polls + 1;
      }
      polls := polls + 1;
      ReportedSnoc(requests, Request(changeOrder, batch));
      assert arrivals[..pos] == arrivals[..start] + arrivals[start..pos];
      requests := requests + [Request(changeOrder, batch)];
      changeOrder := changeOrder + 1;
    }
    assert arrivals[..pos] == arrivals;
  }
}
