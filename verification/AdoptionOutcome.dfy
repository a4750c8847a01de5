/**
 What adoption makes of a listing (crates/daemon/src/adopt.rs), stated on the containers' own fields: which
 are taken in, what they become, and that every one of them is accounted for.
 */
module AdoptionOutcome {
  import opened Text
  import opened Gate
  import opened Scheduler
  import opened Adoption

  /** The container is in time, its job is not tracked yet, and it runs or can wait for its start. */
  predicate Takes(s: State, c: Container, now: int) {
    && now < c.deadlineMs
    && c.job !in s.jobs
    && (c.lifecycle == Running
        || (c.lifecycle == Created && c.size.vcpu <= s.budget.vcpu && c.size.memoryMb <= s.budget.memoryMb
            && |s.jobs| < s.queueMax))
  }

  /** One container: taken in as running, taken in as waiting, or up for removal. */
  lemma OneOutcome(a: Adopted, c: Container, now: int)
    ensures var r, s := AdoptOne(a, c, now), a.state;
            var armed := ArmedJob(c.job, c.container, c.deadlineMs);
            if !Takes(s, c, now) then r == a.(remove := a.remove + [c.container])
            else
              && r.remove == a.remove
              && r.state.jobs == s.jobs[c.job := Entry(c.size, c.lifecycle == Running)]
              && r.state.created == s.created[c.job := c.container]
              && r.state.budget == s.budget && r.state.queueMax == s.queueMax
              && (if c.lifecycle == Running
                  then r.resumed == a.resumed + [armed] && r.requeued == a.requeued && r.state.queue == s.queue
                  else r.requeued == a.requeued + [armed] && r.resumed == a.resumed
                       && r.state.queue == s.queue + [c.job])
  {
  }

  // ----------------------------------------------------------- state and lists agree

  function JobsIn(armed: seq<ArmedJob>): seq<JobId> {
    seq(|armed|, i requires 0 <= i < |armed| => armed[i].job)
  }

  lemma JobsInPush(armed: seq<ArmedJob>, a: ArmedJob)
    ensures JobsIn(armed + [a]) == JobsIn(armed) + [a.job]
  {
  }

  lemma PushNoDup<T>(q: seq<T>, x: T)
    requires NoDup(q) && x !in q
    ensures NoDup(q + [x])
  {
  }

  /** The resumed jobs run, the requeued ones wait in that order, and no others are tracked. */
  ghost predicate Recorded(a: Adopted) {
    var s, up, waiting := a.state, JobsIn(a.resumed), JobsIn(a.requeued);
    && s.queue == waiting && NoDup(up) && NoDup(waiting)
    && (forall j :: j in s.jobs <==> j in up || j in waiting)
    && (forall j :: j in s.jobs ==> (s.jobs[j].running <==> j in up) && (s.jobs[j].running <==> j !in waiting))
    && s.created.Keys == s.jobs.Keys
  }

  lemma OneKeepsRecorded(a: Adopted, c: Container, now: int)
    requires Recorded(a)
    ensures Recorded(AdoptOne(a, c, now))
  {
    var r, armed := AdoptOne(a, c, now), ArmedJob(c.job, c.container, c.deadlineMs);
    OneOutcome(a, c, now);
    JobsInPush(a.resumed, armed);
    JobsInPush(a.requeued, armed);
    if Takes(a.state, c, now) {
      PushNoDup(JobsIn(a.resumed), c.job);
      PushNoDup(JobsIn(a.requeued), c.job);
      assert r.state.created.Keys == r.state.jobs.Keys;
    }
  }

  /** Whatever Docker lists, a job is tracked exactly when adoption reports it resumed or requeued. */
  lemma {:induction false} AdoptionIsRecorded(budget: JobSize, queueMax: u32, listing: seq<Container>, now: int)
    ensures Recorded(Adopt(Fresh(budget, queueMax), listing, now))
    decreases |listing|
  {
    if listing != [] {
      var n := |listing| - 1;
      AdoptionIsRecorded(budget, queueMax, listing[..n], now);
      OneKeepsRecorded(Adopt(Fresh(budget, queueMax), listing[..n], now), listing[n], now);
    }
  }

  // -------------------------------------------------------------- which are taken in

  /** The container at position `n` is taken in, after those before it. */
  predicate TakenAt(begin: State, listing: seq<Container>, now: int, n: nat)
    requires n < |listing|
  {
    Takes(Adopt(begin, listing[..n], now).state, listing[n], now)
  }

  lemma AdoptNext(begin: State, listing: seq<Container>, now: int, n: nat)
    requires n < |listing|
    ensures Adopt(begin, listing[..n + 1], now) == AdoptOne(Adopt(begin, listing[..n], now), listing[n], now)
  {
    assert listing[..n + 1] == listing[..n] + [listing[n]];
    AdoptSnoc(begin, listing[..n], listing[n], now);
  }

  /** What a container taken in leaves behind for good: its job with its size, and its own id and deadline. */
  ghost predicate Kept(a: Adopted, c: Container) {
    && c.job in a.state.jobs && a.state.jobs[c.job] == Entry(c.size, c.lifecycle == Running)
    && c.job in a.state.created && a.state.created[c.job] == c.container
    && ArmedJob(c.job, c.container, c.deadlineMs) in (if c.lifecycle == Running then a.resumed else a.requeued)
  }

  lemma OneDecides(a: Adopted, c: Container, now: int)
    ensures var r := AdoptOne(a, c, now);
            && (Takes(a.state, c, now) ==> Kept(r, c))
            && (!Takes(a.state, c, now) ==> c.container in r.remove)
            && (forall x :: x in a.remove ==> x in r.remove)
            && (forall j :: j in r.state.jobs ==> j in a.state.jobs || (j == c.job && Takes(a.state, c, now)))
  {
    OneOutcome(a, c, now);
  }

  lemma OneKeepsKept(a: Adopted, c: Container, now: int, kept: Container)
    requires Kept(a, kept)
    ensures Kept(AdoptOne(a, c, now), kept)
  {
    OneOutcome(a, c, now);
  }

  /** Adoption up to position `n`. */
  ghost function Upto(begin: State, listing: seq<Container>, now: int, n: nat): Adopted
    requires n <= |listing|
  {
    Adopt(begin, listing[..n], now)
  }

  lemma NextDecides(begin: State, listing: seq<Container>, now: int, n: nat)
    requires n < |listing|
    ensures var a, r := Upto(begin, listing, now, n), Upto(begin, listing, now, n + 1);
            && (TakenAt(begin, listing, now, n) ==> Kept(r, listing[n]))
            && (!TakenAt(begin, listing, now, n) ==> listing[n].container in r.remove)
            && (forall j :: j in r.state.jobs ==>
                  j in a.state.jobs || (j == listing[n].job && TakenAt(begin, listing, now, n)))
  {
    AdoptNext(begin, listing, now, n);
    OneDecides(Upto(begin, listing, now, n), listing[n], now);
  }

  lemma NextKeepsKept(begin: State, listing: seq<Container>, now: int, n: nat, kept: Container)
    requires n < |listing| && Kept(Upto(begin, listing, now, n), kept)
    ensures Kept(Upto(begin, listing, now, n + 1), kept)
  {
    AdoptNext(begin, listing, now, n);
    OneKeepsKept(Upto(begin, listing, now, n), listing[n], now, kept);
  }

  lemma NextKeepsRemoved(begin: State, listing: seq<Container>, now: int, n: nat, x: ContainerId)
    requires n < |listing| && x in Upto(begin, listing, now, n).remove
    ensures x in Upto(begin, listing, now, n + 1).remove
  {
    AdoptNext(begin, listing, now, n);
    OneDecides(Upto(begin, listing, now, n), listing[n], now);
  }

  lemma {:induction false} TakenIsKept(begin: State, listing: seq<Container>, now: int, n: nat, m: nat)
    requires n < m <= |listing| && TakenAt(begin, listing, now, n)
    ensures Kept(Upto(begin, listing, now, m), listing[n])
    decreases m
  {
    if m == n + 1 {
      NextDecides(begin, listing, now, n);
    } else {
      TakenIsKept(begin, listing, now, n, m - 1);
      NextKeepsKept(begin, listing, now, m - 1, listing[n]);
    }
  }

  lemma {:induction false} LeftIsRemoved(begin: State, listing: seq<Container>, now: int, n: nat, m: nat)
    requires n < m <= |listing| && !TakenAt(begin, listing, now, n)
    ensures listing[n].container in Upto(begin, listing, now, m).remove
    decreases m
  {
    if m == n + 1 {
      NextDecides(begin, listing, now, n);
    } else {
      LeftIsRemoved(begin, listing, now, n, m - 1);
      NextKeepsRemoved(begin, listing, now, m - 1, listing[n].container);
    }
  }

  lemma UptoNothing(begin: State, listing: seq<Container>, now: int)
    ensures Upto(begin, listing, now, 0) == Adopted(begin, [], [], [])
  {
    assert listing[..0] == [];
  }

  lemma {:induction false} TrackedWasTaken(begin: State, listing: seq<Container>, now: int, m: nat, j: JobId)
    returns (n: nat)
    requires m <= |listing| && j !in begin.jobs && j in Upto(begin, listing, now, m).state.jobs
    ensures n < m && listing[n].job == j && TakenAt(begin, listing, now, n)
    decreases m
  {
    UptoNothing(begin, listing, now);
    NextDecides(begin, listing, now, m - 1);
    n := m - 1;
    if j in Upto(begin, listing, now, m - 1).state.jobs {
      n := TrackedWasTaken(begin, listing, now, m - 1, j);
    }
  }

  /**
   Every listed container is taken in or removed. One taken in, running or waiting as Docker lists it, decides
   what its job is; one that has finished or is past its deadline never is.
   */
  lemma EveryContainerIsDecided(budget: JobSize, queueMax: u32, listing: seq<Container>, now: int, n: nat)
    requires n < |listing|
    ensures var begin, c := Fresh(budget, queueMax), listing[n];
            var a := Adopt(begin, listing, now);
            && (TakenAt(begin, listing, now, n) ==> Kept(a, c))
            && (!TakenAt(begin, listing, now, n) ==> c.container in a.remove)
            && (c.lifecycle == Finished || c.deadlineMs <= now ==> c.container in a.remove)
            && (c.lifecycle == Running && now < c.deadlineMs ==>
                  TakenAt(begin, listing, now, n) || c.job in Adopt(begin, listing[..n], now).state.jobs)
  {
    var begin := Fresh(budget, queueMax);
    assert listing[..|listing|] == listing;
    if TakenAt(begin, listing, now, n) {
      TakenIsKept(begin, listing, now, n, |listing|);
    } else {
      LeftIsRemoved(begin, listing, now, n, |listing|);
    }
  }

  /** A job is tracked exactly when one of its containers is taken in, and runs exactly when that one does. */
  lemma TrackedIffTaken(budget: JobSize, queueMax: u32, listing: seq<Container>, now: int, j: JobId)
    ensures var begin := Fresh(budget, queueMax);
            var jobs := Adopt(begin, listing, now).state.jobs;
            && (j in jobs <==> exists n :: 0 <= n < |listing| && listing[n].job == j && TakenAt(begin, listing, now, n))
            && (forall n :: 0 <= n < |listing| && listing[n].job == j && TakenAt(begin, listing, now, n) ==>
                  j in jobs && (jobs[j].running <==> listing[n].lifecycle == Running))
  {
    var begin := Fresh(budget, queueMax);
    var jobs := Adopt(begin, listing, now).state.jobs;
    assert listing[..|listing|] == listing;
    forall n | 0 <= n < |listing| && listing[n].job == j && TakenAt(begin, listing, now, n)
      ensures j in jobs && (jobs[j].running <==> listing[n].lifecycle == Running)
    {
      EveryContainerIsDecided(budget, queueMax, listing, now, n);
    }
    if j in jobs {
      var n := TrackedWasTaken(begin, listing, now, |listing|, j);
    }
  }

  // ---------------------------------------------------------------- none is lost or made up

  function Ids(armed: seq<ArmedJob>): seq<ContainerId> {
    seq(|armed|, i requires 0 <= i < |armed| => armed[i].container)
  }

  function Listed(listing: seq<Container>): seq<ContainerId> {
    seq(|listing|, i requires 0 <= i < |listing| => listing[i].container)
  }

  lemma IdsPush(armed: seq<ArmedJob>, a: ArmedJob)
    ensures Ids(armed + [a]) == Ids(armed) + [a.container]
  {
  }

  /** Each list in listing order, and together the listing. */
  ghost predicate Accounts(a: Adopted, ids: seq<ContainerId>) {
    && Subsequence(Ids(a.resumed), ids) && Subsequence(Ids(a.requeued), ids) && Subsequence(a.remove, ids)
    && multiset(ids) == multiset(Ids(a.resumed)) + multiset(Ids(a.requeued)) + multiset(a.remove)
  }

  lemma {:induction false} SubsequencePush<T>(a: seq<T>, b: seq<T>, x: T)
    requires Subsequence(a, b)
    ensures Subsequence(a, b + [x]) && Subsequence(a + [x], b + [x])
    decreases |b|
  {
    if b == [] {
      assert b + [x] == [x] && a + [x] == [x];
      assert [x][1..] == [];
    } else {
      var bx, ax := b + [x], a + [x];
      assert bx[1..] == b[1..] + [x] && bx[0] == b[0];
      if a != [] && a[0] == b[0] && Subsequence(a[1..], b[1..]) {
        assert ax[1..] == a[1..] + [x] && ax[0] == a[0];
        SubsequencePush(a[1..], b[1..], x);
      } else {
        SubsequencePush(a, b[1..], x);
      }
    }
  }

  lemma OneAccounts(a: Adopted, ids: seq<ContainerId>, c: Container, now: int)
    requires Accounts(a, ids)
    ensures Accounts(AdoptOne(a, c, now), ids + [c.container])
  {
    var armed := ArmedJob(c.job, c.container, c.deadlineMs);
    OneOutcome(a, c, now);
    IdsPush(a.resumed, armed);
    IdsPush(a.requeued, armed);
    SubsequencePush(Ids(a.resumed), ids, c.container);
    SubsequencePush(Ids(a.requeued), ids, c.container);
    SubsequencePush(a.remove, ids, c.container);
  }

  lemma NothingAccounts(s: State)
    ensures Accounts(Adopted(s, [], [], []), [])
  {
    assert Ids([]) == [];
  }

  lemma ListedPush(listing: seq<Container>, c: Container)
    ensures Listed(listing + [c]) == Listed(listing) + [c.container]
  {
  }

  /** Every listed container is in exactly one of the three lists, each in the order Docker lists them. */
  lemma {:induction false} EveryContainerIsAccountedFor(s: State, listing: seq<Container>, now: int)
    ensures Accounts(Adopt(s, listing, now), Listed(listing))
    decreases |listing|
  {
    if listing == [] {
      NothingAccounts(s);
      assert Listed(listing) == [];
    } else {
      var front, last := listing[..|listing| - 1], listing[|listing| - 1];
      assert listing == front + [last];
      EveryContainerIsAccountedFor(s, front, now);
      OneAccounts(Adopt(s, front, now), Listed(front), last, now);
      ListedPush(front, last);
    }
  }
}
