/**
 The compute daemon's resource gate (crates/daemon/src/gate.rs): which jobs the daemon
 is responsible for, and how much of the box the running ones hold.

 The first half is the arithmetic: footprints saturate at 2^32-1, the accounting is
 specified by true, unsaturated sums. The second half is the gate as an object.
 */
module Gate {
  import opened Text

  const U32_MAX: nat := 0xFFFF_FFFF
  type u32 = n: nat | n <= 0xFFFF_FFFF

  datatype JobId = JobId(text: string)

  datatype JobSize = JobSize(vcpu: u32, memoryMb: u32)
  {
    function SaturatingAdd(other: JobSize): JobSize {
      JobSize(Clamp(vcpu + other.vcpu), Clamp(memoryMb + other.memoryMb))
    }

    function SaturatingSub(other: JobSize): JobSize {
      JobSize(if other.vcpu <= vcpu then vcpu - other.vcpu else 0,
              if other.memoryMb <= memoryMb then memoryMb - other.memoryMb else 0)
    }

    predicate FitsWithin(budget: JobSize) {
      vcpu <= budget.vcpu && memoryMb <= budget.memoryMb
    }
  }

  const ZERO := JobSize(0, 0)

  datatype Dimension = Vcpu | Memory

  function Amount(size: JobSize, d: Dimension): u32 {
    match d case Vcpu => size.vcpu case Memory => size.memoryMb
  }

  function Clamp(n: nat): u32 {
    if n <= U32_MAX then n else U32_MAX
  }

  datatype Entry = Entry(size: JobSize, running: bool)
  type Jobs = map<JobId, Entry>

  datatype AdmitError = ExceedsBudget | QueueFull | DuplicateJobId
  datatype AdmitResult = Admitted | Refused(error: AdmitError)
  datatype StartOutcome = Started | Deferred | NotTracked
  datatype Consumption = Consumption(vcpuUsed: u32, memoryMbUsed: u32, queueDepth: u32)

  // ---------------------------------------------------------------- true sums

  /** What one entry charges: its whole footprint while running, nothing while queued. */
  function Charge(entry: Entry, d: Dimension): nat {
    if entry.running then Amount(entry.size, d) else 0
  }

  /** The mathematical sum of the running jobs' footprints, with no ceiling. */
  ghost function TrueUsed(jobs: Jobs, d: Dimension): nat
    decreases |jobs|
  {
    if jobs == map[] then 0
    else
      var k :| k in jobs;
      Charge(jobs[k], d) + TrueUsed(jobs - {k}, d)
  }

  /** The sum does not depend on which job is counted first. */
  lemma {:induction false} TrueUsedSplit(jobs: Jobs, k: JobId, d: Dimension)
    requires k in jobs
    ensures TrueUsed(jobs, d) == Charge(jobs[k], d) + TrueUsed(jobs - {k}, d)
    decreases |jobs|
  {
    var c :| c in jobs && TrueUsed(jobs, d) == Charge(jobs[c], d) + TrueUsed(jobs - {c}, d);
    if c != k {
      TrueUsedSplit(jobs - {c}, k, d);
      TrueUsedSplit(jobs - {k}, c, d);
      assert jobs - {c} - {k} == jobs - {k} - {c};
    }
  }

  lemma TrueUsedUpdate(jobs: Jobs, k: JobId, entry: Entry, d: Dimension)
    ensures TrueUsed(jobs[k := entry], d)
         == TrueUsed(jobs - {k}, d) + Charge(entry, d)
    ensures k in jobs ==> TrueUsed(jobs, d) == TrueUsed(jobs - {k}, d) + Charge(jobs[k], d)
    ensures k !in jobs ==> TrueUsed(jobs, d) == TrueUsed(jobs - {k}, d)
  {
    TrueUsedSplit(jobs[k := entry], k, d);
    assert jobs[k := entry] - {k} == jobs - {k};
    if k in jobs {
      TrueUsedSplit(jobs, k, d);
    } else {
      assert jobs - {k} == jobs;
    }
  }

  /** Dropping jobs never raises the sum. */
  lemma {:induction false} TrueUsedShrinks(jobs: Jobs, gone: set<JobId>, d: Dimension)
    ensures TrueUsed(jobs - gone, d) <= TrueUsed(jobs, d)
    decreases |gone|
  {
    if gone == {} {
      assert jobs - gone == jobs;
    } else {
      var k :| k in gone;
      TrueUsedShrinks(jobs, gone - {k}, d);
      TrueUsedUpdate(jobs - (gone - {k}), k, Entry(ZERO, false), d);
      assert jobs - gone == (jobs - (gone - {k})) - {k};
    }
  }

  lemma {:induction false} TrueUsedNothingRunning(jobs: Jobs, d: Dimension)
    requires forall j :: j in jobs ==> !jobs[j].running
    ensures TrueUsed(jobs, d) == 0
    decreases |jobs|
  {
    if jobs != map[] {
      var k :| k in jobs;
      TrueUsedSplit(jobs, k, d);
      TrueUsedNothingRunning(jobs - {k}, d);
    }
  }

  lemma SizeOfUpdate<K, V>(m: map<K, V>, k: K, v: V)
    ensures |m[k := v]| == if k in m then |m| else |m| + 1
  {
    assert m[k := v].Keys == m.Keys + {k};
    assert |m[k := v].Keys| == |m[k := v]| && |m.Keys| == |m|;
    if k in m {
      assert m.Keys + {k} == m.Keys;
    }
  }

  /** What the gate reports as used: the true sum, clamped per dimension. */
  ghost function UsedBy(jobs: Jobs): JobSize {
    JobSize(Clamp(TrueUsed(jobs, Vcpu)), Clamp(TrueUsed(jobs, Memory)))
  }

  /** `order` visits every job of the map once: the iteration order a hash map happens to have. */
  predicate Enumerates(order: seq<JobId>, jobs: Jobs) {
    if order == [] then jobs == map[]
    else order[0] in jobs && Enumerates(order[1..], jobs - {order[0]})
  }

  /** One saturating fold over the entries, in the given iteration order. */
  function SaturatingFold(acc: JobSize, jobs: Jobs, order: seq<JobId>): JobSize
    requires Enumerates(order, jobs)
    decreases |order|
  {
    if order == [] then acc
    else
      var entry := jobs[order[0]];
      SaturatingFold(if entry.running then acc.SaturatingAdd(entry.size) else acc, jobs - {order[0]}, order[1..])
  }

  lemma {:induction false} SaturatingFoldFrom(jobs: Jobs, order: seq<JobId>, acc: JobSize, d: Dimension, before: nat)
    requires Enumerates(order, jobs) && Amount(acc, d) == Clamp(before)
    ensures Amount(SaturatingFold(acc, jobs, order), d) == Clamp(before + TrueUsed(jobs, d))
    decreases |order|
  {
    if order != [] {
      var k := order[0];
      TrueUsedSplit(jobs, k, d);
      var acc' := if jobs[k].running then acc.SaturatingAdd(jobs[k].size) else acc;
      SaturatingFoldFrom(jobs - {k}, order[1..], acc', d, before + Charge(jobs[k], d));
    }
  }

  /** Saturation is invisible: in every iteration order the fold is the clamped true sum. */
  lemma SaturatingFoldIsClampedSum(jobs: Jobs, order: seq<JobId>)
    requires Enumerates(order, jobs)
    ensures SaturatingFold(ZERO, jobs, order) == UsedBy(jobs)
  {
    SaturatingFoldFrom(jobs, order, ZERO, Vcpu, 0);
    SaturatingFoldFrom(jobs, order, ZERO, Memory, 0);
    var r := SaturatingFold(ZERO, jobs, order);
    assert Amount(r, Vcpu) == r.vcpu && Amount(r, Memory) == r.memoryMb;
  }

  // ------------------------------------------------------- decisions of the gate

  ghost predicate FitsNow(budget: JobSize, jobs: Jobs, size: JobSize) {
    size.FitsWithin(budget.SaturatingSub(UsedBy(jobs)))
  }

  /** Room in one dimension, in true arithmetic: an empty claim always fits. */
  ghost predicate Room(budget: JobSize, jobs: Jobs, size: JobSize, d: Dimension) {
    Amount(size, d) == 0 || TrueUsed(jobs, d) + Amount(size, d) <= Amount(budget, d)
  }

  /** The clamped, floored comparison decides exactly whether the true sums leave room. */
  lemma FitsNowIsTrueRoom(budget: JobSize, jobs: Jobs, size: JobSize)
    ensures FitsNow(budget, jobs, size) <==> Room(budget, jobs, size, Vcpu) && Room(budget, jobs, size, Memory)
  {
  }

  /** The job ids a gate would mark running when offered `j`. */
  ghost predicate Starts(budget: JobSize, jobs: Jobs, j: JobId) {
    j in jobs && (jobs[j].running || FitsNow(budget, jobs, jobs[j].size))
  }

  function RunningJobs(jobs: Jobs): set<JobId> {
    set j | j in jobs && jobs[j].running
  }

  function AdmitDecision(budget: JobSize, queueMax: u32, jobs: Jobs, j: JobId, size: JobSize): AdmitResult {
    if j in jobs then Refused(DuplicateJobId)
    else if !size.FitsWithin(budget) then Refused(ExceedsBudget)
    else if Clamp(|jobs|) >= queueMax then Refused(QueueFull)
    else Admitted
  }

  // ------------------------------------------------------------ the gate itself

  class Gate {
    const budget: JobSize
    const queueMax: u32
    var jobs: Jobs

    constructor (budget: JobSize, queueMax: u32)
      ensures this.budget == budget && this.queueMax == queueMax && jobs == map[]
    {
      this.budget, this.queueMax, jobs := budget, queueMax, map[];
    }

    method Admit(j: JobId, size: JobSize) returns (r: AdmitResult)
      modifies this
      ensures r.Admitted? <==> j !in old(jobs) && size.FitsWithin(budget) && |old(jobs)| < queueMax
      ensures r == Refused(DuplicateJobId) <==> j in old(jobs)
      ensures r == Refused(ExceedsBudget) <==> j !in old(jobs) && !size.FitsWithin(budget)
      ensures r == AdmitDecision(budget, queueMax, old(jobs), j, size)
      ensures jobs == if r.Admitted? then old(jobs)[j := Entry(size, false)] else old(jobs)
    {
      if j in jobs {
        return Refused(DuplicateJobId);
      }
      if !size.FitsWithin(budget) {
        return Refused(ExceedsBudget);
      }
      var depth := Clamp(|jobs|);
      if depth >= queueMax {
        return Refused(QueueFull);
      }
      jobs := jobs[j := Entry(size, false)];
      r := Admitted;
    }

    method AdoptRunning(j: JobId, size: JobSize) returns (r: AdmitResult)
      modifies this
      ensures r == if j in old(jobs) then Refused(DuplicateJobId) else Admitted
      ensures jobs == if r.Admitted? then old(jobs)[j := Entry(size, true)] else old(jobs)
    {
      if j in jobs {
        return Refused(DuplicateJobId);
      }
      jobs := jobs[j := Entry(size, true)];
      r := Admitted;
    }

    /** Folds over the map in an arbitrary order; the answer does not depend on it. */
    method Used() returns (used: JobSize)
      ensures used == UsedBy(jobs)
    {
      used := ZERO;
      var rest := jobs;
      ghost var v: nat, m: nat := 0, 0;
      while rest != map[]
        invariant used == JobSize(Clamp(v), Clamp(m))
        invariant v + TrueUsed(rest, Vcpu) == TrueUsed(jobs, Vcpu)
        invariant m + TrueUsed(rest, Memory) == TrueUsed(jobs, Memory)
        decreases |rest|
      {
        var k :| k in rest;
        TrueUsedSplit(rest, k, Vcpu);
        TrueUsedSplit(rest, k, Memory);
        v, m := v + Charge(rest[k], Vcpu), m + Charge(rest[k], Memory);
        if rest[k].running {
          used := used.SaturatingAdd(rest[k].size);
        }
        rest := rest - {k};
      }
    }

    method TryStart(j: JobId) returns (r: StartOutcome)
      modifies this
      ensures r.NotTracked? <==> j !in old(jobs)
      ensures r.Started? <==> Starts(budget, old(jobs), j)
      ensures jobs == if r.Started? then old(jobs)[j := Entry(old(jobs)[j].size, true)] else old(jobs)
    {
      if j !in jobs {
        return NotTracked;
      }
      var entry := jobs[j];
      if entry.running {
        assert jobs == jobs[j := Entry(entry.size, true)];
        return Started;
      }
      var used := Used();
      var remaining := budget.SaturatingSub(used);
      if !entry.size.FitsWithin(remaining) {
        return Deferred;
      }
      jobs := jobs[j := Entry(entry.size, true)];
      r := Started;
    }

    method Unstart(j: JobId) returns (tracked: bool)
      modifies this
      ensures tracked == (j in old(jobs))
      ensures jobs == if tracked then old(jobs)[j := Entry(old(jobs)[j].size, false)] else old(jobs)
    {
      if j in jobs {
        jobs := jobs[j := Entry(jobs[j].size, false)];
        tracked := true;
      } else {
        tracked := false;
      }
    }

    /** The footprint freed, if the job was tracked. */
    method Release(j: JobId) returns (freed: Option<JobSize>)
      modifies this
      ensures jobs == old(jobs) - {j}
      ensures freed == if j in old(jobs) then Some(old(jobs)[j].size) else None
    {
      freed := if j in jobs then Some(jobs[j].size) else None;
      jobs := jobs - {j};
    }

    method RunningJobIds() returns (ids: set<JobId>)
      ensures forall j :: j in ids <==> j in jobs && jobs[j].running
    {
      ids := set j | j in jobs && jobs[j].running;
    }

    method Consume() returns (c: Consumption)
      ensures c == Consumption(Clamp(TrueUsed(jobs, Vcpu)), Clamp(TrueUsed(jobs, Memory)), Clamp(|jobs|))
    {
      var used := Used();
      c := Consumption(used.vcpu, used.memoryMb, Clamp(|jobs|));
    }
  }
}
