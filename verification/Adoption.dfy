/**
 Startup adoption (crates/daemon/src/adopt.rs): rebuilding the scheduler from the containers
 Docker still has, and the theorem that a restart loses nothing.
 */
module Adoption {
  import opened Text
  import opened Gate
  import opened Scheduler

  datatype Lifecycle = Created | Running | Finished
  datatype Container = Container(
    job: JobId, container: ContainerId, deadlineMs: int, size: JobSize, lifecycle: Lifecycle)
  datatype Action = Resume | Requeue | Remove
  datatype ArmedJob = ArmedJob(job: JobId, container: ContainerId, deadlineMs: int)
  datatype Adopted = Adopted(
    state: State, resumed: seq<ArmedJob>, requeued: seq<ArmedJob>, remove: seq<ContainerId>)

  function ActionFor(c: Container, now: int): Action {
    if c.deadlineMs <= now then Remove
    else match c.lifecycle
      case Running => Resume
      case Created => Requeue
      case Finished => Remove
  }

  function Armed(c: Container): ArmedJob {
    ArmedJob(c.job, c.container, c.deadlineMs)
  }

  function AdoptOne(a: Adopted, c: Container, now: int): Adopted {
    var s := a.state;
    match ActionFor(c, now)
    case Resume =>
      if c.job in s.jobs then a.(remove := a.remove + [c.container])
      else a.(state := s.(jobs := s.jobs[c.job := Entry(c.size, true)], created := s.created[c.job := c.container]),
              resumed := a.resumed + [Armed(c)])
    case Requeue =>
      if !AdmitDecision(s.budget, s.queueMax, s.jobs, c.job, c.size).Admitted?
      then a.(remove := a.remove + [c.container])
      else a.(state := RememberCreated(Admit(s, c.job, c.size), c.job, c.container),
              requeued := a.requeued + [Armed(c)])
    case Remove =>
      a.(remove := a.remove + [c.container])
  }

  /** `adopt::adopt`: one decision per container, in listing order. */
  function Adopt(s: State, listing: seq<Container>, now: int): Adopted {
    if listing == [] then Adopted(s, [], [], [])
    else AdoptOne(Adopt(s, listing[..|listing| - 1], now), listing[|listing| - 1], now)
  }

  function JobIds(listing: seq<Container>): set<JobId> {
    set c | c in listing :: c.job
  }

  lemma AdoptOneKeepsCoherent(a: Adopted, c: Container, now: int)
    requires Coherent(a.state) && Startable(a.state)
    ensures Coherent(AdoptOne(a, c, now).state) && Startable(AdoptOne(a, c, now).state)
  {
    var s := a.state;
    if c.job !in s.jobs {
      assert c.job !in s.created && c.job !in s.queue;
      AdmitKeepsCoherent(s, c.job, c.size);
      RememberCreatedKeepsCoherentIff(Admit(s, c.job, c.size), c.job, c.container);
    }
  }

  /** Whatever Docker lists, adoption leaves a coherent state and keeps the budget and ceiling. */
  lemma {:induction false} AdoptKeepsCoherent(s: State, listing: seq<Container>, now: int)
    requires Coherent(s) && Startable(s)
    ensures var s' := Adopt(s, listing, now).state;
            && Coherent(s') && Startable(s')
            && s'.budget == s.budget && s'.queueMax == s.queueMax
            && s'.jobs.Keys <= s.jobs.Keys + JobIds(listing)
  {
    if listing != [] {
      var front := listing[..|listing| - 1];
      AdoptKeepsCoherent(s, front, now);
      AdoptOneKeepsCoherent(Adopt(s, front, now), listing[|listing| - 1], now);
      assert forall c :: c in front ==> c in listing;
    }
  }

  // --------------------------------------------------------------- restart transparency

  /** The listing Docker would give of exactly the containers `s` is responsible for. */
  predicate Lists(s: State, listing: seq<Container>, now: int) {
    ListsSome(s, listing, now, s.jobs.Keys)
  }

  predicate ListsSome(s: State, listing: seq<Container>, now: int, js: set<JobId>) {
    && NoJobTwice(listing)
    && JobIds(listing) == js
    && (forall c :: c in listing ==> Describes(s, c, now))
  }

  predicate NoJobTwice(listing: seq<Container>) {
    forall i, k :: 0 <= i < k < |listing| ==> listing[i].job != listing[k].job
  }

  predicate Describes(s: State, c: Container, now: int) {
    && c.job in s.jobs && c.job in s.created
    && c.container == s.created[c.job]
    && c.size == s.jobs[c.job].size
    && c.lifecycle == (if s.jobs[c.job].running then Lifecycle.Running else Lifecycle.Created)
    && now < c.deadlineMs
  }

  /** The part of `s` that concerns the jobs in `js`, with the queue left aside. */
  ghost predicate IsPartOf(part: State, s: State, js: set<JobId>) {
    && part.budget == s.budget && part.queueMax == s.queueMax
    && part.jobs == (map j | j in s.jobs && j in js :: s.jobs[j])
    && part.created == (map j | j in s.created && j in js :: s.created[j])
    && Elements(part.queue) == set j | j in s.queue && j in js
  }

  lemma SmallerMap<K, V>(part: map<K, V>, whole: map<K, V>, k: K)
    requires part.Keys <= whole.Keys && k in whole && k !in part
    ensures |part| < |whole|
  {
    assert |part.Keys| == |part| && |whole.Keys| == |whole|;
    SmallerSet(part.Keys, whole.Keys, k);
  }

  lemma {:induction false} SmallerSet<K>(a: set<K>, b: set<K>, k: K)
    requires a <= b && k in b && k !in a
    ensures |a| < |b|
  {
    assert b == (b - a) + a;
    assert k in b - a;
    assert |b| == |b - a| + |a|;
  }

  lemma JobIdsAppend(front: seq<Container>, c: Container)
    ensures JobIds(front + [c]) == JobIds(front) + {c.job}
  {
  }

  lemma AdoptsWaiting(s: State, part: State, c: Container, js: set<JobId>)
    requires Coherent(s) && IsPartOf(part, s, js)
    requires c.job in s.queue && c.job !in js && c.job in s.created
    requires c.size == s.jobs[c.job].size && c.container == s.created[c.job]
    requires AdmitDecision(part.budget, part.queueMax, part.jobs, c.job, c.size).Admitted?
    ensures IsPartOf(RememberCreated(Admit(part, c.job, c.size), c.job, c.container), s, js + {c.job})
  {
    var next := RememberCreated(Admit(part, c.job, c.size), c.job, c.container);
    assert Elements(next.queue) == Elements(part.queue) + {c.job};
  }

  lemma AdoptsOneMore(s: State, a: Adopted, c: Container, js: set<JobId>, now: int)
    requires Coherent(s) && Startable(s) && Describes(s, c, now)
    requires |s.jobs| <= s.queueMax || s.queue == []
    requires IsPartOf(a.state, s, js) && c.job !in js
    ensures IsPartOf(AdoptOne(a, c, now).state, s, js + {c.job})
    ensures AdoptOne(a, c, now).remove == a.remove
  {
    if !s.jobs[c.job].running {
      assert c.job in s.queue;
      SmallerMap(a.state.jobs, s.jobs, c.job);
      AdoptsWaiting(s, a.state, c, js);
    }
  }

  lemma AdoptSnoc(s: State, front: seq<Container>, c: Container, now: int)
    ensures Adopt(s, front + [c], now) == AdoptOne(Adopt(s, front, now), c, now)
  {
    assert (front + [c])[..|front|] == front;
  }

  lemma ListedOnce(s: State, listing: seq<Container>, now: int, n: nat)
    requires Lists(s, listing, now) && n < |listing|
    ensures Describes(s, listing[n], now) && listing[n].job !in JobIds(listing[..n])
  {
    assert listing[n] in listing;
    forall c | c in listing[..n] ensures c.job != listing[n].job {
      var i :| 0 <= i < n && listing[i] == c;
    }
  }

  lemma AdoptsNext(s: State, a: Adopted, front: seq<Container>, c: Container, now: int)
    requires Coherent(s) && Startable(s) && Describes(s, c, now)
    requires |s.jobs| <= s.queueMax || s.queue == []
    requires IsPartOf(a.state, s, JobIds(front)) && c.job !in JobIds(front)
    ensures IsPartOf(AdoptOne(a, c, now).state, s, JobIds(front + [c])) && AdoptOne(a, c, now).remove == a.remove
  {
    AdoptsOneMore(s, a, c, JobIds(front), now);
    JobIdsAppend(front, c);
  }

  lemma AdoptsNone(s: State)
    ensures IsPartOf(Fresh(s.budget, s.queueMax), s, JobIds([]))
  {
    assert JobIds([]) == {} && Elements(Fresh(s.budget, s.queueMax).queue) == {};
  }

  lemma {:induction false} AdoptsPrefix(s: State, listing: seq<Container>, now: int, n: nat)
    requires Coherent(s) && Startable(s) && Lists(s, listing, now) && n <= |listing|
    requires |s.jobs| <= s.queueMax || s.queue == []
    ensures var a := Adopt(Fresh(s.budget, s.queueMax), listing[..n], now);
            IsPartOf(a.state, s, JobIds(listing[..n])) && a.remove == []
  {
    if n == 0 {
      assert listing[..0] == [];
      AdoptsNone(s);
    } else {
      var c, front := listing[n - 1], listing[..n - 1];
      var a := Adopt(Fresh(s.budget, s.queueMax), front, now);
      AdoptsPrefix(s, listing, now, n - 1);
      ListedOnce(s, listing, now, n - 1);
      assert listing[..n] == front + [c];
      AdoptSnoc(Fresh(s.budget, s.queueMax), front, c, now);
      AdoptsNext(s, a, front, c, now);
    }
  }

  ghost predicate Rebuilds(a: Adopted, s: State) {
    && a.state.jobs == s.jobs
    && a.state.created == s.created
    && a.state.budget == s.budget && a.state.queueMax == s.queueMax
    && Elements(a.state.queue) == Elements(s.queue) && NoDup(a.state.queue)
    && a.remove == []
  }

  lemma WholePartIsEqual(part: State, s: State, js: set<JobId>)
    requires Coherent(s) && IsPartOf(part, s, js) && s.jobs.Keys <= js
    ensures part.jobs == s.jobs && part.created == s.created && Elements(part.queue) == Elements(s.queue)
  {
    assert forall j :: j in s.jobs ==> j in js;
  }

  /**
   A restart is invisible: adopting the containers of a coherent state, listed in any order,
   rebuilds the same job map and container map, the same waiting jobs, and removes nothing.
   */
  lemma RestartIsTransparent(s: State, listing: seq<Container>, now: int)
    requires Coherent(s) && Startable(s) && Lists(s, listing, now)
    requires |s.jobs| <= s.queueMax || s.queue == []
    ensures Rebuilds(Adopt(Fresh(s.budget, s.queueMax), listing, now), s)
    ensures UsedBy(Adopt(Fresh(s.budget, s.queueMax), listing, now).state.jobs) == UsedBy(s.jobs)
  {
    var empty := Fresh(s.budget, s.queueMax);
    var a := Adopt(empty, listing, now);
    assert IsPartOf(a.state, s, JobIds(listing)) && a.remove == [] by {
      AdoptsPrefix(s, listing, now, |listing|);
      assert listing[..|listing|] == listing;
    }
    assert NoDup(a.state.queue) by { AdoptKeepsCoherent(empty, listing, now); }
    assert s.jobs.Keys <= JobIds(listing);
    WholePartIsEqual(a.state, s, JobIds(listing));
  }

  lemma OverCeilingLosesOne(s: State, a: Adopted, c: Container, now: int)
    requires Describes(s, c, now) && !s.jobs[c.job].running
    requires |s.jobs| > s.queueMax == a.state.queueMax
    requires a.state.jobs.Keys <= s.jobs.Keys - {c.job}
    ensures AdoptOne(a, c, now).state.jobs != s.jobs
  {
    var others, after := s.jobs.Keys - {c.job}, AdoptOne(a, c, now).state.jobs;
    assert |s.jobs.Keys| == |others| + 1;
    if a.state.jobs.Keys == others {
      assert |a.state.jobs| == |a.state.jobs.Keys|;
      assert c.job !in after;
    } else {
      var k :| k in others && k !in a.state.jobs;
      assert k !in after;
    }
  }

  /** Past the ceiling, a waiting job listed last is lost. */
  lemma RestartOverCeilingLosesTheLast(s: State, listing: seq<Container>, now: int)
    requires Coherent(s) && Startable(s) && Lists(s, listing, now)
    requires |s.jobs| > s.queueMax && listing != [] && listing[|listing| - 1].job in s.queue
    ensures !Rebuilds(Adopt(Fresh(s.budget, s.queueMax), listing, now), s)
  {
    var empty, n := Fresh(s.budget, s.queueMax), |listing| - 1;
    var front, last := listing[..n], listing[n];
    AdoptKeepsCoherent(empty, front, now);
    assert last in listing && last.job !in JobIds(front);
    assert JobIds(front) <= s.jobs.Keys - {last.job} by {
      assert forall c :: c in front ==> c in listing;
    }
    OverCeilingLosesOne(s, Adopt(empty, front, now), last, now);
  }

  /** The container Docker would list for tracked job `j`. */
  function Listed(s: State, j: JobId, now: int): (c: Container)
    requires j in s.jobs && j in s.created
    ensures Describes(s, c, now) && c.job == j
  {
    Container(j, s.created[j], now + 1, s.jobs[j].size,
              if s.jobs[j].running then Lifecycle.Running else Lifecycle.Created)
  }

  lemma ListsSomeAppend(s: State, listing: seq<Container>, now: int, js: set<JobId>, c: Container)
    requires ListsSome(s, listing, now, js) && Describes(s, c, now) && c.job !in js
    ensures ListsSome(s, listing + [c], now, js + {c.job})
  {
    JobIdsAppend(listing, c);
    assert forall i :: 0 <= i < |listing| ==> listing[i].job in JobIds(listing);
  }

  lemma {:induction false} SomeListing(s: State, now: int, js: set<JobId>) returns (listing: seq<Container>)
    requires js <= s.jobs.Keys && s.created.Keys == s.jobs.Keys
    ensures ListsSome(s, listing, now, js)
    decreases |js|
  {
    listing := [];
    if js != {} {
      var j :| j in js;
      var rest := SomeListing(s, now, js - {j});
      ListsSomeAppend(s, rest, now, js - {j}, Listed(s, j, now));
      assert js - {j} + {j} == js;
      listing := rest + [Listed(s, j, now)];
    }
  }

  lemma SomeLosingListing(s: State, now: int) returns (listing: seq<Container>)
    requires Coherent(s) && Startable(s) && s.created.Keys == s.jobs.Keys
    requires |s.jobs| > s.queueMax && s.queue != []
    ensures Lists(s, listing, now) && !Rebuilds(Adopt(Fresh(s.budget, s.queueMax), listing, now), s)
  {
    var j := s.queue[0];
    var front := SomeListing(s, now, s.jobs.Keys - {j});
    ListsSomeAppend(s, front, now, s.jobs.Keys - {j}, Listed(s, j, now));
    assert s.jobs.Keys - {j} + {j} == s.jobs.Keys;
    listing := front + [Listed(s, j, now)];
    RestartOverCeilingLosesTheLast(s, listing, now);
  }

  /**
   Exactly when a restart is invisible whatever order Docker lists the containers in: the job
   count is within the ceiling, or nothing is waiting to start.
   */
  lemma RestartTransparentIff(s: State, now: int)
    requires Coherent(s) && Startable(s) && s.created.Keys == s.jobs.Keys
    ensures (forall listing :: Lists(s, listing, now) ==> Rebuilds(Adopt(Fresh(s.budget, s.queueMax), listing, now), s))
       <==> (|s.jobs| <= s.queueMax || s.queue == [])
  {
    if |s.jobs| <= s.queueMax || s.queue == [] {
      forall listing | Lists(s, listing, now)
        ensures Rebuilds(Adopt(Fresh(s.budget, s.queueMax), listing, now), s)
      {
        RestartIsTransparent(s, listing, now);
      }
    } else {
      var listing := SomeLosingListing(s, now);
    }
  }

  lemma AdoptOnlyWaiting(budget: JobSize, c: Container, now: int)
    requires c.lifecycle == Created && now < c.deadlineMs && c.size.FitsWithin(budget)
    ensures var s := Adopt(Fresh(budget, 1), [c], now).state;
            s.queue == [c.job] && s.jobs == map[c.job := Entry(c.size, false)] && s.queueMax == 1
  {
    AdoptSnoc(Fresh(budget, 1), [], c, now);
    assert [] + [c] == [c];
  }

  /** Such a state comes about by adoption itself: a container still running is taken in past the ceiling. */
  lemma AdoptionCanPassTheCeiling(budget: JobSize, a: Container, b: Container, now: int)
    requires a.job != b.job && a.lifecycle == Created && b.lifecycle == Running
    requires now < a.deadlineMs && now < b.deadlineMs && a.size.FitsWithin(budget)
    ensures var s := Adopt(Fresh(budget, 1), [a, b], now).state;
            s.queue == [a.job] && s.jobs.Keys == {a.job, b.job} && |s.jobs| > s.queueMax
  {
    AdoptOnlyWaiting(budget, a, now);
    AdoptSnoc(Fresh(budget, 1), [a], b, now);
    assert [a] + [b] == [a, b];
    var s := Adopt(Fresh(budget, 1), [a, b], now).state;
    assert s.jobs.Keys == {a.job, b.job};
    assert |s.jobs| == |s.jobs.Keys|;
  }
}
