/**
 Forwarding a job's event stream with its setup step (crates/listener/src: setup_forwarding.rs and
 the forwarding loop of execution_loop.rs).
 */
module SetupForwarding {
  import opened Text

  datatype Conclusion = Success | Failure | Cancelled | Skipped

  /** The events the forwarder looks into; `Other` stands for those it only passes on. */
  datatype Event =
    | StepStarted(step: string, name: string, number: nat)
    | StepCompleted(step: string, conclusion: Conclusion)
    | StepMetadata(step: string, kind: string, action: Option<string>)
    | Log(step: string, line: string, stderr: bool)
    | InfrastructureError(step: string, category: string, message: string)
    | JobCompleted(conclusion: Conclusion, outputs: map<string, string>, url: Option<string>)
    | Other(step: string, payload: string)

  const SETUP_STEP_ID: string := "__toolu_setup_job"

  /** The job's setup step, if it has one, and the masker for error messages. */
  datatype Config = Config(setupId: Option<string>, mask: string -> string)

  /** An engine event, and whether setup had been cancelled when it arrived. */
  datatype Arrival = Arrival(event: Event, cancelled: bool)

  // ------------------------------------------------------------------ one event at a time

  /** What the forwarder has done: setup still open, what the job reported, what was forwarded. */
  datatype State = State(pending: bool, conclusion: Option<Conclusion>, outputs: map<string, string>,
                         url: Option<string>, out: seq<Event>)

  function Initial(cfg: Config): State {
    State(cfg.setupId.Some?, None, map[], None, [])
  }

  function Delivered(s: State, events: seq<Event>): State {
    s.(out := s.out + events)
  }

  /** `finish`: close setup once. */
  function Finished(s: State, cfg: Config, conclusion: Conclusion): State {
    if s.pending && cfg.setupId.Some?
    then Delivered(s.(pending := false), [StepCompleted(cfg.setupId.value, conclusion)])
    else s.(pending := false)
  }

  /** `before_event` on the setup state. */
  function Closed(s: State, cfg: Config, a: Arrival): State {
    match a.event
    case StepStarted(_, _, _) => Finished(s, cfg, if a.cancelled then Cancelled else Success)
    case JobCompleted(conclusion, _, _) => Finished(s, cfg, conclusion)
    case _ => s
  }

  /** `before_event` on the event itself: which step a log line belongs to. */
  function Routed(pending: bool, cfg: Config, e: Event): Event {
    if e.Log? && (e.step == SETUP_STEP_ID || pending) && cfg.setupId.Some?
    then Log(cfg.setupId.value, e.line, e.stderr) else e
  }

  function Masked(cfg: Config, e: Event): Event {
    if e.InfrastructureError? then InfrastructureError(e.step, e.category, cfg.mask(e.message)) else e
  }

  function Latched(s: State, e: Event): State {
    if e.JobCompleted? then s.(conclusion := Some(e.conclusion), outputs := e.outputs, url := e.url) else s
  }

  /** One turn of `forward_events`. */
  function Step(s: State, cfg: Config, a: Arrival): State {
    var e := Routed(s.pending, cfg, a.event);
    Delivered(Latched(Closed(s, cfg, a), e), [Masked(cfg, e)])
  }

  function Run(s: State, cfg: Config, stream: seq<Arrival>): State {
    if stream == [] then s else Step(Run(s, cfg, stream[..|stream| - 1]), cfg, stream[|stream| - 1])
  }

  function StartEvents(id: string, lines: seq<string>): seq<Event> {
    [StepStarted(id, "Set up job", 1), StepMetadata(id, "runner", Some("setup_job"))] + SetupLogs(id, lines)
  }

  function SetupLogs(id: string, lines: seq<string>): seq<Event> {
    seq(|lines|, i requires 0 <= i < |lines| => Log(id, lines[i], false))
  }

  function Started(s: State, cfg: Config, lines: seq<string>): State {
    match cfg.setupId
    case None => s
    case Some(id) => Delivered(s, StartEvents(id, lines))
  }

  /** A whole job: start setup, forward the stream, close setup if it is still open. */
  function WholeJob(cfg: Config, lines: seq<string>, stream: seq<Arrival>): State {
    Finished(Run(Started(Initial(cfg), cfg, lines), cfg, stream), cfg, Failure)
  }

  function FinalConclusion(s: State): Conclusion {
    match s.conclusion
    case None => Failure
    case Some(c) => c
  }

  // ------------------------------------------------------------------------- the code

  class Forwarder {
    const cfg: Config
    var setupPending: bool
    var conclusion: Option<Conclusion>
    var outputs: map<string, string>
    var url: Option<string>
    var out: seq<Event>

    constructor (cfg: Config)
      ensures View() == Initial(cfg) && this.cfg == cfg
    {
      this.cfg := cfg;
      setupPending := cfg.setupId.Some?;
      conclusion, outputs, url, out := None, map[], None, [];
    }

    ghost function View(): State
      reads this
    {
      State(setupPending, conclusion, outputs, url, out)
    }

    method Deliver(e: Event)
      modifies this
      ensures View() == Delivered(old(View()), [e])
    {
      out := out + [e];
    }

    /** `start`. */
    method Start(lines: seq<string>)
      modifies this
      ensures View() == Started(old(View()), cfg, lines)
    {
      if cfg.setupId.None? {
        return;
      }
      var id := cfg.setupId.value;
      ghost var before := View();
      ghost var head := [StepStarted(id, "Set up job", 1), StepMetadata(id, "runner", Some("setup_job"))];
      Deliver(StepStarted(id, "Set up job", 1));
      Deliver(StepMetadata(id, "runner", Some("setup_job")));
      var i := 0;
      assert SetupLogs(id, lines[..0]) == [];
      while i < |lines|
        invariant 0 <= i <= |lines|
        invariant View() == Delivered(before, head + SetupLogs(id, lines[..i]))
      {
        assert SetupLogs(id, lines[..i + 1]) == SetupLogs(id, lines[..i]) + [Log(id, lines[i], false)];
        Deliver(Log(id, lines[i], false));
        i := i + 1;
      }
      assert lines[..i] == lines;
    }

    /** `finish`. */
    method Finish(c: Conclusion)
      modifies this
      ensures View() == Finished(old(View()), cfg, c)
    {
      var pending := setupPending;
      setupPending := false;
      if !pending || cfg.setupId.None? {
        return;
      }
      Deliver(StepCompleted(cfg.setupId.value, c));
    }

    /** `before_event`: the event as it goes on. */
    method BeforeEvent(a: Arrival) returns (e: Event)
      modifies this
      ensures View() == Closed(old(View()), cfg, a) && e == Routed(old(setupPending), cfg, a.event)
    {
      e := a.event;
      match e
      case StepStarted(_, _, _) => Finish(if a.cancelled then Cancelled else Success);
      case JobCompleted(c, _, _) => Finish(c);
      case Log(step, line, stderr) =>
        if (step == SETUP_STEP_ID || setupPending) && cfg.setupId.Some? {
          e := Log(cfg.setupId.value, line, stderr);
        }
      case _ =>
    }

    /** One turn of `forward_events`. */
    method ForwardOne(a: Arrival)
      modifies this
      ensures View() == Step(old(View()), cfg, a)
    {
      var e := BeforeEvent(a);
      if e.JobCompleted? {
        conclusion, outputs, url := Some(e.conclusion), e.outputs, e.url;
      }
      if e.InfrastructureError? {
        e := InfrastructureError(e.step, e.category, cfg.mask(e.message));
      }
      Deliver(e);
    }

    /**
     `forward_events`. The receiver takes the first `accepts` deliveries and is gone after that; the loop
     ends with the stream, or after the first event it could not hand on.
     */
    method ForwardEvents(stream: seq<Arrival>, accepts: nat) returns (n: nat)
      modifies this
      ensures Reads(old(View()), cfg, stream, accepts, n) && View() == Run(old(View()), cfg, stream[..n])
    {
      n := 0;
      ghost var before := View();
      while n < |stream|
        invariant 0 <= n <= |stream|
        invariant View() == Run(before, cfg, stream[..n])
        invariant forall k :: 0 < k <= n ==> |Run(before, cfg, stream[..k]).out| <= accepts
      {
        assert stream[..n + 1][..n] == stream[..n];
        ForwardOne(stream[n]);
        n := n + 1;
        if |out| > accepts {
          break;
        }
      }
    }

    /** `spawn_event_forwarder` and `finish_forwarder`: the whole job, its conclusion, and what the receiver got. */
    method ForwardJob(lines: seq<string>, stream: seq<Arrival>, accepts: nat)
      returns (c: Conclusion, received: seq<Event>, n: nat)
      requires View() == Initial(cfg)
      modifies this
      ensures Reads(Started(Initial(cfg), cfg, lines), cfg, stream, accepts, n)
      ensures View() == WholeJob(cfg, lines, stream[..n]) && c == FinalConclusion(View())
      ensures received == Accepted(WholeJob(cfg, lines, stream).out, accepts)
      ensures |WholeJob(cfg, lines, stream).out| <= accepts ==> n == |stream|
    {
      Start(lines);
      n := ForwardEvents(stream, accepts);
      ReceiverSeesAPrefix(cfg, lines, stream, n, accepts);
      Finish(Failure);
      c := if conclusion.Some? then conclusion.value else Failure;
      received := Accepted(out, accepts);
    }
  }

  /** How many events are read: all of them, or up to the first whose own delivery is one too many. */
  ghost predicate Reads(s: State, cfg: Config, stream: seq<Arrival>, accepts: nat, n: nat) {
    && n <= |stream|
    && (n < |stream| ==> n > 0 && |Run(s, cfg, stream[..n]).out| > accepts)
    && (forall k :: 0 < k < n ==> |Run(s, cfg, stream[..k]).out| <= accepts)
  }

  /** What a receiver that takes `accepts` deliveries gets of them. */
  function Accepted(out: seq<Event>, accepts: nat): seq<Event> {
    if |out| <= accepts then out else out[..accepts]
  }

  /** Deliveries are only ever added. */
  lemma {:induction false} RunOnlyAdds(s: State, cfg: Config, stream: seq<Arrival>, n: nat)
    requires n <= |stream|
    ensures Run(s, cfg, stream[..n]).out <= Run(s, cfg, stream).out
    decreases |stream|
  {
    if n == |stream| {
      assert stream[..n] == stream;
    } else {
      var front := stream[..|stream| - 1];
      assert front[..n] == stream[..n];
      RunOnlyAdds(s, cfg, front, n);
    }
  }

  /** Stopping once a delivery fails, the receiver gets exactly what it would have got of the whole stream. */
  lemma ReceiverSeesAPrefix(cfg: Config, lines: seq<string>, stream: seq<Arrival>, n: nat, accepts: nat)
    requires n <= |stream|
    requires n == |stream| || |Run(Started(Initial(cfg), cfg, lines), cfg, stream[..n]).out| > accepts
    ensures Accepted(WholeJob(cfg, lines, stream[..n]).out, accepts)
         == Accepted(WholeJob(cfg, lines, stream).out, accepts)
    ensures |WholeJob(cfg, lines, stream).out| <= accepts ==> n == |stream|
  {
    var s := Started(Initial(cfg), cfg, lines);
    RunOnlyAdds(s, cfg, stream, n);
    if n == |stream| {
      assert stream[..n] == stream;
    }
  }

  // -------------------------------------------------------------- what is forwarded

  /** A step start or the job's end closes setup. */
  predicate ClosesSetup(e: Event) {
    e.StepStarted? || e.JobCompleted?
  }

  /** How many events arrive while setup is open. */
  function OpenCount(stream: seq<Arrival>): (k: nat)
    ensures k <= |stream|
    ensures forall i :: 0 <= i < k ==> !ClosesSetup(stream[i].event)
    ensures k < |stream| ==> ClosesSetup(stream[k].event)
  {
    if stream == [] || ClosesSetup(stream[0].event) then 0 else 1 + OpenCount(stream[1..])
  }

  /** How setup ends, given what follows it: as the step start or the job's end says, or in failure. */
  function ConclusionBefore(rest: seq<Arrival>): Conclusion {
    if rest == [] then Failure
    else match rest[0].event
      case JobCompleted(c, _, _) => c
      case _ => if rest[0].cancelled then Cancelled else Success
  }

  function SetupConclusion(stream: seq<Arrival>): Conclusion {
    ConclusionBefore(stream[OpenCount(stream)..])
  }

  function Forwarded(pending: bool, cfg: Config, stream: seq<Arrival>): seq<Event> {
    seq(|stream|, i requires 0 <= i < |stream| => Masked(cfg, Routed(pending, cfg, stream[i].event)))
  }

  /** While nothing closes it, setup stays open and every log goes to it. */
  lemma {:induction false} RunOpen(s: State, cfg: Config, stream: seq<Arrival>)
    requires s.pending && forall i :: 0 <= i < |stream| ==> !ClosesSetup(stream[i].event)
    ensures Run(s, cfg, stream) == Delivered(s, Forwarded(true, cfg, stream))
    decreases |stream|
  {
    if stream == [] {
      assert s.out + Forwarded(true, cfg, stream) == s.out;
    } else {
      var n := |stream| - 1;
      RunOpen(s, cfg, stream[..n]);
      assert stream == stream[..n] + [stream[n]];
    }
  }

  /** Once setup is closed, no event reopens or completes it. */
  lemma {:induction false} RunClosed(s: State, cfg: Config, stream: seq<Arrival>)
    requires !s.pending
    ensures !Run(s, cfg, stream).pending && Run(s, cfg, stream).out == s.out + Forwarded(false, cfg, stream)
    decreases |stream|
  {
    if stream == [] {
      assert s.out + Forwarded(false, cfg, stream) == s.out;
    } else {
      var n := |stream| - 1;
      RunClosed(s, cfg, stream[..n]);
      assert stream == stream[..n] + [stream[n]];
    }
  }

  lemma {:induction false} RunAppend(s: State, cfg: Config, a: seq<Arrival>, b: seq<Arrival>)
    ensures Run(s, cfg, a + b) == Run(Run(s, cfg, a), cfg, b)
    decreases |b|
  {
    if b == [] {
      assert a + b == a;
    } else {
      var n := |b| - 1;
      assert (a + b)[..|a| + n] == a + b[..n];
      RunAppend(s, cfg, a, b[..n]);
    }
  }

  /** The event that closes setup: the completion, then the event as it is. */
  lemma StepThatCloses(s: State, cfg: Config, a: Arrival)
    requires s.pending && cfg.setupId.Some? && ClosesSetup(a.event)
    ensures var t := Step(s, cfg, a);
            && !t.pending
            && t.out == s.out + [StepCompleted(cfg.setupId.value, ConclusionBefore([a])),
                                 Masked(cfg, Routed(false, cfg, a.event))]
  {
  }

  /** From the event that closes setup on. */
  lemma RunFromClosing(s: State, cfg: Config, a: Arrival, rest: seq<Arrival>)
    requires s.pending && cfg.setupId.Some? && ClosesSetup(a.event)
    ensures var t := Run(s, cfg, [a] + rest);
            && !t.pending
            && t.out == s.out + ([StepCompleted(cfg.setupId.value, ConclusionBefore([a]))]
                                 + Forwarded(false, cfg, [a] + rest))
  {
    RunAppend(s, cfg, [a], rest);
    StepThatCloses(s, cfg, a);
    RunClosed(Step(s, cfg, a), cfg, rest);
  }

  /** From an open setup on, with nothing or a closing event next. */
  lemma JobFromClosing(s: State, cfg: Config, rest: seq<Arrival>)
    requires s.pending && cfg.setupId.Some? && (rest == [] || ClosesSetup(rest[0].event))
    ensures Finished(Run(s, cfg, rest), cfg, Failure).out
         == s.out + ([StepCompleted(cfg.setupId.value, ConclusionBefore(rest))] + Forwarded(false, cfg, rest))
  {
    if rest != [] {
      assert rest == [rest[0]] + rest[1..];
      RunFromClosing(s, cfg, rest[0], rest[1..]);
    }
  }

  lemma JobFromOpen(s: State, cfg: Config, open: seq<Arrival>, rest: seq<Arrival>)
    requires s.pending && cfg.setupId.Some? && (rest == [] || ClosesSetup(rest[0].event))
    requires forall i :: 0 <= i < |open| ==> !ClosesSetup(open[i].event)
    ensures Finished(Run(s, cfg, open + rest), cfg, Failure).out
         == s.out + (Forwarded(true, cfg, open)
                     + ([StepCompleted(cfg.setupId.value, ConclusionBefore(rest))] + Forwarded(false, cfg, rest)))
  {
    RunOpen(s, cfg, open);
    RunAppend(s, cfg, open, rest);
    JobFromClosing(Run(s, cfg, open), cfg, rest);
    ConcatAssoc(s.out, Forwarded(true, cfg, open),
                [StepCompleted(cfg.setupId.value, ConclusionBefore(rest))] + Forwarded(false, cfg, rest));
  }

  /** The forwarded stream in full: setup's own events, what arrived while it was open, exactly one
      completion, and everything after it. */
  lemma ForwardedStream(cfg: Config, lines: seq<string>, stream: seq<Arrival>)
    requires cfg.setupId.Some?
    ensures var id, k := cfg.setupId.value, OpenCount(stream);
            WholeJob(cfg, lines, stream).out
            == StartEvents(id, lines) + (Forwarded(true, cfg, stream[..k])
               + ([StepCompleted(id, SetupConclusion(stream))] + Forwarded(false, cfg, stream[k..])))
  {
    var s := Started(Initial(cfg), cfg, lines);
    assert s.out == StartEvents(cfg.setupId.value, lines);
    var k := OpenCount(stream);
    JobFromOpen(s, cfg, stream[..k], stream[k..]);
    assert stream[..k] + stream[k..] == stream;
  }

  // ------------------------------------------------------------------- exactly once

  function SetupCompletions(id: string, events: seq<Event>): nat {
    if events == [] then 0
    else SetupCompletions(id, events[..|events| - 1]) + (if IsSetupCompletion(id, events[|events| - 1]) then 1 else 0)
  }

  predicate IsSetupCompletion(id: string, e: Event) {
    e.StepCompleted? && e.step == id
  }

  lemma {:induction false} CompletionsAppend(id: string, a: seq<Event>, b: seq<Event>)
    ensures SetupCompletions(id, a + b) == SetupCompletions(id, a) + SetupCompletions(id, b)
    decreases |b|
  {
    if b == [] {
      assert a + b == a;
    } else {
      var n := |b| - 1;
      assert (a + b)[..|a| + n] == a + b[..n];
      CompletionsAppend(id, a, b[..n]);
    }
  }

  lemma {:induction false} NoCompletions(id: string, events: seq<Event>)
    requires forall i :: 0 <= i < |events| ==> !IsSetupCompletion(id, events[i])
    ensures SetupCompletions(id, events) == 0
    decreases |events|
  {
    if events != [] {
      NoCompletions(id, events[..|events| - 1]);
    }
  }

  predicate NeverCompletes(id: string, stream: seq<Arrival>) {
    forall i :: 0 <= i < |stream| ==> !IsSetupCompletion(id, stream[i].event)
  }

  lemma ForwardedHasNone(id: string, pending: bool, cfg: Config, stream: seq<Arrival>)
    requires NeverCompletes(id, stream)
    ensures SetupCompletions(id, Forwarded(pending, cfg, stream)) == 0
  {
    NoCompletions(id, Forwarded(pending, cfg, stream));
  }

  lemma OneCompletion(id: string, head: seq<Event>, open: seq<Event>, done: Event, later: seq<Event>)
    requires SetupCompletions(id, head) == SetupCompletions(id, open) == SetupCompletions(id, later) == 0
    requires IsSetupCompletion(id, done)
    ensures SetupCompletions(id, head + (open + ([done] + later))) == 1
  {
    CompletionsAppend(id, head, open + ([done] + later));
    CompletionsAppend(id, open, [done] + later);
    CompletionsAppend(id, [done], later);
    assert [done][..0] == [];
  }

  /** Over every engine stream that does not itself complete the setup step, setup completes exactly once. */
  lemma SetupCompletesOnce(cfg: Config, lines: seq<string>, stream: seq<Arrival>)
    requires cfg.setupId.Some? && NeverCompletes(cfg.setupId.value, stream)
    ensures SetupCompletions(cfg.setupId.value, WholeJob(cfg, lines, stream).out) == 1
  {
    var id, k := cfg.setupId.value, OpenCount(stream);
    ForwardedStream(cfg, lines, stream);
    NoCompletions(id, StartEvents(id, lines));
    ForwardedHasNone(id, true, cfg, stream[..k]);
    ForwardedHasNone(id, false, cfg, stream[k..]);
    OneCompletion(id, StartEvents(id, lines), Forwarded(true, cfg, stream[..k]),
                  StepCompleted(id, SetupConclusion(stream)), Forwarded(false, cfg, stream[k..]));
  }

  /** A job with a setup step opens with that step's start, its metadata and its lines. */
  lemma SetupComesFirst(cfg: Config, lines: seq<string>, stream: seq<Arrival>)
    requires cfg.setupId.Some?
    ensures var id, out := cfg.setupId.value, WholeJob(cfg, lines, stream).out;
            && |out| >= |lines| + 2
            && out[0] == StepStarted(id, "Set up job", 1)
            && out[1] == StepMetadata(id, "runner", Some("setup_job"))
            && forall i :: 0 <= i < |lines| ==> out[i + 2] == Log(id, lines[i], false)
  {
    ForwardedStream(cfg, lines, stream);
  }

  /** Where the forwarded form of the i-th engine event stands: after setup's own events, and after its
      completion once that is out. */
  function PositionOf(lines: seq<string>, stream: seq<Arrival>, i: nat): nat {
    |lines| + 2 + (if i < OpenCount(stream) then i else i + 1)
  }

  /** Every log seen while setup is open, and every later one tagged with the reserved id, is
      forwarded under the setup step; every other event keeps its order and its step. */
  lemma LogsAreRouted(cfg: Config, lines: seq<string>, stream: seq<Arrival>, i: nat)
    requires cfg.setupId.Some? && i < |stream|
    ensures var id, e, out := cfg.setupId.value, stream[i].event, WholeJob(cfg, lines, stream).out;
            var at := PositionOf(lines, stream, i);
            && at < |out|
            && (e.Log? ==>
                  var toSetup := i < OpenCount(stream) || e.step == SETUP_STEP_ID;
                  out[at] == Log(if toSetup then id else e.step, e.line, e.stderr))
            && (e.InfrastructureError? ==>
                  out[at] == InfrastructureError(e.step, e.category, cfg.mask(e.message)))
            && (!e.Log? && !e.InfrastructureError? ==> out[at] == e)
  {
    var id, k := cfg.setupId.value, OpenCount(stream);
    ForwardedStream(cfg, lines, stream);
    InParts(StartEvents(id, lines), Forwarded(true, cfg, stream[..k]), StepCompleted(id, SetupConclusion(stream)),
            Forwarded(false, cfg, stream[k..]), i);
  }

  lemma InParts(head: seq<Event>, open: seq<Event>, done: Event, later: seq<Event>, i: nat)
    ensures var out := head + (open + ([done] + later));
            && (i < |open| ==> out[|head| + i] == open[i])
            && (|open| <= i < |open| + |later| ==> out[|head| + i + 1] == later[i - |open|])
  {
  }

  /** Without a setup step the stream passes through, error messages masked. */
  lemma {:induction false} NoSetupPassesThrough(cfg: Config, lines: seq<string>, stream: seq<Arrival>)
    requires cfg.setupId.None?
    ensures WholeJob(cfg, lines, stream).out == Forwarded(false, cfg, stream)
    ensures forall i :: 0 <= i < |stream| ==>
              var e, out := stream[i].event, WholeJob(cfg, lines, stream).out[i];
              if e.InfrastructureError? then out == InfrastructureError(e.step, e.category, cfg.mask(e.message))
              else out == e
  {
    RunClosed(Initial(cfg), cfg, stream);
    assert [] + Forwarded(false, cfg, stream) == Forwarded(false, cfg, stream);
  }

  // ------------------------------------------------------------------- the job's outcome

  /** The last job completion decides; a stream without one ends in failure. */
  lemma {:induction false} LastCompletionDecides(s: State, cfg: Config, stream: seq<Arrival>, k: nat)
    requires k < |stream| && stream[k].event.JobCompleted?
    requires forall i :: k < i < |stream| ==> !stream[i].event.JobCompleted?
    ensures var t := Run(s, cfg, stream);
            var e := stream[k].event;
            t.conclusion == Some(e.conclusion) && t.outputs == e.outputs && t.url == e.url
    decreases |stream|
  {
    var n := |stream| - 1;
    if k < n {
      LastCompletionDecides(s, cfg, stream[..n], k);
    }
  }

  lemma {:induction false} NoCompletionFails(s: State, cfg: Config, stream: seq<Arrival>)
    requires s.conclusion == None && forall i :: 0 <= i < |stream| ==> !stream[i].event.JobCompleted?
    ensures FinalConclusion(Run(s, cfg, stream)) == Failure && Run(s, cfg, stream).conclusion == None
    decreases |stream|
  {
    if stream != [] {
      NoCompletionFails(s, cfg, stream[..|stream| - 1]);
    }
  }
}
