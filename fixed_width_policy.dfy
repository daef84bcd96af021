/** FixedWidthPolicy: each job gets `width[application][epoch]` GPUs. A
    previous allocation of exactly that size is kept unconditionally (its
    GPUs are deducted without a capacity check); every other job is filled
    greedily node by node. The desired node count covers the sum of all the
    jobs' widths. */
module FixedWidthPolicy {
  import opened Common
  import opened Cluster

  /** `width[application][epoch]`: the GPUs a job gets in that epoch. */
  type WidthTable = map<string, map<int, int>>

  /** The state the two passes thread through: the residual GPUs, the
      allocations so far and `total_gpus_needed`. */
  datatype Round = Round(avail: map<string, int>, allocs: Allocation, total: int)

  /** What `optimize` returns: the allocations and the desired node count. */
  datatype Decision = Decision(allocations: Allocation, desiredNodes: int)

  predicate HasWidth(table: WidthTable, job: JobInfo)
  {
    job.application in table && job.epoch in table[job.application]
  }

  /** `self.width[job_info.application][job_info.epoch]`, a `KeyError` when
      either key is missing. */
  function Wanted(table: WidthTable, job: JobInfo): (r: Result<int>)
    ensures r.Ok? <==> HasWidth(table, job)
    ensures r.Err? ==> r.error == KeyError
  {
    if job.application !in table then Err(KeyError)
    else if job.epoch !in table[job.application] then Err(KeyError)
    else Ok(table[job.application][job.epoch])
  }

  /** The job's width, 0 when the table has none (only used where it has). */
  function WidthOf(table: WidthTable, job: JobInfo): int
  {
    if HasWidth(table, job) then table[job.application][job.epoch] else 0
  }

  /** Every node of the list is a key of `available_gpus`. */
  predicate Known(avail: map<string, int>, p: seq<string>)
  {
    forall n :: n in p ==> n in avail
  }

  /** One item of the first-pass loop over `prev_allocations`. */
  function PreserveStep(table: WidthTable, jobs: seq<(string, JobInfo)>, st: Result<Round>,
                        e: (string, seq<string>)): Result<Round>
  {
    if st.Err? || !HasKey(jobs, e.0) then st
    else
      var job := Lookup(jobs, e.0);
      if GpusPerReplica(job) != 1 then Err(AssertionError)
      else if !HasWidth(table, job) then Err(KeyError)
      else
        var w := WidthOf(table, job);
        if |e.1| != w then st
        else if !Known(st.value.avail, e.1) then Err(KeyError)
        else Ok(Round(Deduct(st.value.avail, e.1), st.value.allocs + [e], st.value.total + w))
  }

  function PreservePass(table: WidthTable, jobs: seq<(string, JobInfo)>, prev: Allocation, st: Result<Round>): Result<Round>
  {
    if prev == [] then st
    else PreserveStep(table, jobs, PreservePass(table, jobs, prev[..|prev| - 1], st), prev[|prev| - 1])
  }

  /** One item of the second-pass loop over `jobs`. */
  function FillStep(table: WidthTable, names: seq<string>, st: Result<Round>, entry: (string, JobInfo)): Result<Round>
    requires st.Ok? ==> forall i :: 0 <= i < |names| ==> names[i] in st.value.avail
  {
    if st.Err? || HasKey(st.value.allocs, entry.0) then st
    else if GpusPerReplica(entry.1) != 1 then Err(AssertionError)
    else if !HasWidth(table, entry.1) then Err(KeyError)
    else
      var w := WidthOf(table, entry.1);
      var filled := Fill(names, st.value.avail, w);
      Ok(Round(filled.1, st.value.allocs + [(entry.0, filled.0)], st.value.total + w))
  }

  function FillPass(table: WidthTable, names: seq<string>, jobs: seq<(string, JobInfo)>, st: Result<Round>): (r: Result<Round>)
    requires st.Ok? ==> forall i :: 0 <= i < |names| ==> names[i] in st.value.avail
    ensures r.Ok? ==> st.Ok? && r.value.avail.Keys == st.value.avail.Keys
  {
    if jobs == [] then st
    else FillStep(table, names, FillPass(table, names, jobs[..|jobs| - 1], st), jobs[|jobs| - 1])
  }

  function Start(nodes: seq<NodeEntry>): Result<Round>
  {
    Ok(Round(GpuCapacity(nodes), [], 0))
  }

  lemma {:induction false} PreservePassKeepsNodes(table: WidthTable, jobs: seq<(string, JobInfo)>, prev: Allocation, st: Result<Round>)
    ensures var r := PreservePass(table, jobs, prev, st);
      r.Ok? ==> st.Ok? && r.value.avail.Keys == st.value.avail.Keys
    decreases |prev|
  {
    if prev != [] {
      PreservePassKeepsNodes(table, jobs, prev[..|prev| - 1], st);
    }
  }

  /** `optimize`: both passes, then `ceil(total_gpus_needed / template GPUs)`. */
  function Optimize(table: WidthTable, jobs: seq<(string, JobInfo)>, nodes: seq<NodeEntry>,
                    prev: Allocation, template: Node): Result<Decision>
  {
    var kept := PreservePass(table, jobs, prev, Start(nodes));
    PreservePassKeepsNodes(table, jobs, prev, Start(nodes));
    var filled := FillPass(table, Keys(nodes), jobs, kept);
    if filled.Err? then Err(filled.error)
    else
      var perNode := Get(template.resources, GPU, 1);
      if perNode == 0 then Err(ZeroDivisionError)
      else Ok(Decision(filled.value.allocs, CeilDiv(filled.value.total, perNode)))
  }

  /* ---------- reference definitions ---------- */

  /** The previous allocations the first pass keeps: those of jobs still
      present whose size is the job's width. */
  predicate Keeps(table: WidthTable, jobs: seq<(string, JobInfo)>, e: (string, seq<string>))
  {
    HasKey(jobs, e.0) && |e.1| == WidthOf(table, Lookup(jobs, e.0))
  }

  function Kept(table: WidthTable, jobs: seq<(string, JobInfo)>, prev: Allocation): Allocation
  {
    if prev == [] then []
    else Kept(table, jobs, prev[..|prev| - 1]) + (if Keeps(table, jobs, prev[|prev| - 1]) then [prev[|prev| - 1]] else [])
  }

  /** What the first pass demands of one previous allocation for a job still
      present: one GPU per replica, a width, and known nodes if it is kept. */
  predicate PrevOk(table: WidthTable, jobs: seq<(string, JobInfo)>, cap: map<string, int>, e: (string, seq<string>))
  {
    HasKey(jobs, e.0) ==>
      var job := Lookup(jobs, e.0);
      GpusPerReplica(job) == 1 && HasWidth(table, job) && (|e.1| == WidthOf(table, job) ==> Known(cap, e.1))
  }

  /** The exception `optimize` raises for a job it cannot handle: the
      assertion for a request other than one GPU per replica, otherwise
      `KeyError` (a missing width, or a kept replica on an unknown node). */
  function JobError(job: JobInfo): Error
  {
    if GpusPerReplica(job) != 1 then AssertionError else KeyError
  }

  /** The sum of the widths of all jobs. */
  function JobsWidth(table: WidthTable, jobs: seq<(string, JobInfo)>): int
  {
    if jobs == [] then 0 else JobsWidth(table, jobs[..|jobs| - 1]) + WidthOf(table, jobs[|jobs| - 1].1)
  }

  /** The width of the job with key k (0 for no such job). */
  function KeyWidth(table: WidthTable, jobs: seq<(string, JobInfo)>, k: string): int
  {
    if HasKey(jobs, k) then WidthOf(table, Lookup(jobs, k)) else 0
  }

  /** The sum of the widths of the jobs with keys ks. */
  function TotalWidth(table: WidthTable, jobs: seq<(string, JobInfo)>, ks: seq<string>): int
  {
    SumOf(k => KeyWidth(table, jobs, k), ks)
  }

  lemma TotalWidthAppend(table: WidthTable, jobs: seq<(string, JobInfo)>, ks: seq<string>, k: string)
    ensures TotalWidth(table, jobs, ks + [k]) == TotalWidth(table, jobs, ks) + KeyWidth(table, jobs, k)
  {
    assert (ks + [k])[..|ks|] == ks;
  }

  lemma KeysAppend<V>(s: seq<(string, V)>, e: (string, V))
    ensures Keys(s + [e]) == Keys(s) + [e.0]
  {
    assert (s + [e])[..|s|] == s;
  }

  lemma {:induction false} JobsWidthByKeys(table: WidthTable, jobs: seq<(string, JobInfo)>, n: nat)
    requires DistinctKeys(jobs) && n <= |jobs|
    ensures TotalWidth(table, jobs, Keys(jobs[..n])) == JobsWidth(table, jobs[..n])
    decreases n
  {
    if n > 0 {
      var p, e := jobs[..n - 1], jobs[n - 1];
      JobsWidthByKeys(table, jobs, n - 1);
      assert jobs[..n] == p + [e];
      assert JobsWidth(table, p + [e]) == JobsWidth(table, p) + WidthOf(table, e.1) by {
        assert (p + [e])[..|p|] == p;
      }
      KeysAppend(p, e);
      TotalWidthAppend(table, jobs, Keys(p), e.0);
      LookupAt(jobs, n - 1);
      assert KeyWidth(table, jobs, e.0) == WidthOf(table, e.1);
    }
  }

  /* ---------- the first pass ---------- */

  lemma {:induction false} PreservePassErr(table: WidthTable, jobs: seq<(string, JobInfo)>, prev: Allocation, st: Result<Round>)
    requires st.Err?
    ensures PreservePass(table, jobs, prev, st) == st
    decreases |prev|
  {
    if prev != [] { PreservePassErr(table, jobs, prev[..|prev| - 1], st); }
  }

  lemma {:induction false} PreservePassStops(table: WidthTable, jobs: seq<(string, JobInfo)>, prev: Allocation, i: nat, st: Result<Round>)
    requires i <= |prev| && PreservePass(table, jobs, prev[..i], st).Err?
    ensures PreservePass(table, jobs, prev, st) == PreservePass(table, jobs, prev[..i], st)
    decreases |prev|
  {
    if i < |prev| {
      assert prev[..|prev| - 1][..i] == prev[..i];
      PreservePassStops(table, jobs, prev[..|prev| - 1], i, st);
    } else {
      assert prev[..i] == prev;
    }
  }

  /** The first pass succeeds exactly when every previous allocation meets
      `PrevOk`. */
  lemma {:induction false} PreservePassOk(table: WidthTable, jobs: seq<(string, JobInfo)>, cap: map<string, int>, prev: Allocation)
    ensures var r := PreservePass(table, jobs, prev, Ok(Round(cap, [], 0)));
      (r.Ok? <==> forall i :: 0 <= i < |prev| ==> PrevOk(table, jobs, cap, prev[i])) &&
      (r.Ok? ==> r.value.avail.Keys == cap.Keys)
    decreases |prev|
  {
    var st0 := Ok(Round(cap, [], 0));
    if prev != [] {
      var prev' := prev[..|prev| - 1];
      PreservePassOk(table, jobs, cap, prev');
      var mid := PreservePass(table, jobs, prev', st0);
      if mid.Ok? {
        if forall i :: 0 <= i < |prev| ==> PrevOk(table, jobs, cap, prev[i]) {
          assert PrevOk(table, jobs, cap, prev[|prev| - 1]);
        }
      } else {
        var i :| 0 <= i < |prev'| && !PrevOk(table, jobs, cap, prev'[i]);
        assert prev[i] == prev'[i];
      }
    }
  }

  /** A failing first pass raises at the first previous allocation that
      misses `PrevOk`: the assertion when that job asks for other than one
      GPU per replica, and `KeyError` when it has no width or a kept replica
      on an unknown node. */
  lemma {:induction false} PreservePassError(table: WidthTable, jobs: seq<(string, JobInfo)>, cap: map<string, int>, prev: Allocation)
    ensures var r := PreservePass(table, jobs, prev, Ok(Round(cap, [], 0)));
      r.Err? ==> exists i :: && 0 <= i < |prev| && HasKey(jobs, prev[i].0)
                             && !PrevOk(table, jobs, cap, prev[i])
                             && (forall j :: 0 <= j < i ==> PrevOk(table, jobs, cap, prev[j]))
                             && r.error == JobError(Lookup(jobs, prev[i].0))
    decreases |prev|
  {
    var st0 := Ok(Round(cap, [], 0));
    if prev != [] {
      var prev' := prev[..|prev| - 1];
      var mid := PreservePass(table, jobs, prev', st0);
      if mid.Ok? {
        PreservePassOk(table, jobs, cap, prev');
        var r := PreserveStep(table, jobs, mid, prev[|prev| - 1]);
        if r.Err? {
          var i := |prev| - 1;
          forall j | 0 <= j < i ensures PrevOk(table, jobs, cap, prev[j]) {
            assert prev[j] == prev'[j];
          }
        }
      } else {
        PreservePassError(table, jobs, cap, prev');
        var i :| && 0 <= i < |prev'| && HasKey(jobs, prev'[i].0)
                 && !PrevOk(table, jobs, cap, prev'[i])
                 && (forall j :: 0 <= j < i ==> PrevOk(table, jobs, cap, prev'[j]))
                 && mid.error == JobError(Lookup(jobs, prev'[i].0));
        assert prev[i] == prev'[i];
        forall j | 0 <= j < i ensures PrevOk(table, jobs, cap, prev[j]) {
          assert prev[j] == prev'[j];
        }
      }
    }
  }

  /** After a successful first pass it has kept exactly `Kept`, the residual
      of each node is its capacity minus the replicas kept on it (possibly
      negative: there is no capacity check), and the total is the sum of the
      kept jobs' widths. */
  lemma {:induction false} PreservePassState(table: WidthTable, jobs: seq<(string, JobInfo)>, cap: map<string, int>, prev: Allocation)
    ensures var r := PreservePass(table, jobs, prev, Ok(Round(cap, [], 0)));
      r.Ok? ==> && r.value.allocs == Kept(table, jobs, prev)
                && r.value.avail.Keys == cap.Keys
                && (forall n :: n in cap ==> r.value.avail[n] == cap[n] - Used(n, r.value.allocs))
                && r.value.total == TotalWidth(table, jobs, Keys(r.value.allocs))
    decreases |prev|
  {
    var st0 := Ok(Round(cap, [], 0));
    if prev != [] {
      var prev' := prev[..|prev| - 1];
      var e := prev[|prev| - 1];
      PreservePassState(table, jobs, cap, prev');
      var mid := PreservePass(table, jobs, prev', st0);
      var r := PreserveStep(table, jobs, mid, e);
      if r.Ok? && r != mid {
        Used0(mid.value.allocs, e, cap);
        KeysAppend(mid.value.allocs, e);
        TotalWidthAppend(table, jobs, Keys(mid.value.allocs), e.0);
      }
    }
  }

  lemma Used0(allocs: Allocation, e: (string, seq<string>), cap: map<string, int>)
    ensures forall n :: n in cap ==> Used(n, allocs + [e]) == Used(n, allocs) + Count(n, e.1)
  {
    forall n | n in cap ensures Used(n, allocs + [e]) == Used(n, allocs) + Count(n, e.1) {
      UsedAppend(n, allocs, e);
    }
  }

  /** A job the second pass can handle: one GPU per replica and a width. */
  predicate JobOk(table: WidthTable, job: JobInfo)
  {
    GpusPerReplica(job) == 1 && HasWidth(table, job)
  }

  /** The kept allocations are previous ones, each for a distinct job still
      present that the second pass could handle, of exactly its width, on
      nodes of the cluster. */
  lemma {:induction false} KeptFacts(table: WidthTable, jobs: seq<(string, JobInfo)>, cap: map<string, int>, prev: Allocation)
    requires DistinctKeys(prev)
    requires forall i :: 0 <= i < |prev| ==> PrevOk(table, jobs, cap, prev[i])
    ensures var kept := Kept(table, jobs, prev);
      && DistinctKeys(kept)
      && (forall k :: HasKey(kept, k) ==> HasKey(prev, k) && HasKey(jobs, k) && JobOk(table, Lookup(jobs, k)))
      && (forall i :: 0 <= i < |kept| ==> kept[i] in prev && |kept[i].1| == KeyWidth(table, jobs, kept[i].0))
      && (forall i, x :: 0 <= i < |kept| && x in kept[i].1 ==> x in cap)
    decreases |prev|
  {
    if prev != [] {
      var prev' := prev[..|prev| - 1];
      var e := prev[|prev| - 1];
      forall i | 0 <= i < |prev'| ensures PrevOk(table, jobs, cap, prev'[i]) {
        assert prev'[i] == prev[i];
      }
      KeptFacts(table, jobs, cap, prev');
      var k' := Kept(table, jobs, prev');
      if Keeps(table, jobs, e) {
        var kept := k' + [e];
        assert PrevOk(table, jobs, cap, prev[|prev| - 1]);
        forall k | HasKey(kept, k) ensures HasKey(prev, k) && HasKey(jobs, k) && JobOk(table, Lookup(jobs, k)) {
          HasKeyAppend(k', e, k);
          if k == e.0 {
            assert prev[|prev| - 1].0 == k;
          } else {
            var i :| 0 <= i < |prev'| && prev'[i].0 == k;
            assert prev[i].0 == k;
          }
        }
        assert !HasKey(k', e.0);
        forall i, j | 0 <= i < j < |kept| ensures kept[i].0 != kept[j].0 {
          if j == |k'| { assert kept[i] == k'[i]; }
        }
        forall i | 0 <= i < |kept| ensures kept[i] in prev && |kept[i].1| == KeyWidth(table, jobs, kept[i].0) {
          if i < |k'| { assert kept[i] == k'[i]; } else { assert prev[|prev| - 1] == e; }
        }
        forall i, x | 0 <= i < |kept| && x in kept[i].1 ensures x in cap {
          if i < |k'| { assert kept[i] == k'[i]; }
        }
      } else {
        assert Kept(table, jobs, prev) == k';
        forall i | 0 <= i < |k'| ensures k'[i] in prev {
          assert k'[i] in prev';
        }
        forall k | HasKey(k', k) ensures HasKey(prev, k) {
          var i :| 0 <= i < |prev'| && prev'[i].0 == k;
          assert prev[i].0 == k;
        }
      }
    }
  }

  /* ---------- the second pass ---------- */

  /** Distinct keys, each a job the second pass can handle. */
  ghost predicate KeysOk(table: WidthTable, jobs: seq<(string, JobInfo)>, allocs: Allocation)
  {
    && DistinctKeys(allocs)
    && (forall k :: HasKey(allocs, k) ==> HasKey(jobs, k) && JobOk(table, Lookup(jobs, k)))
  }

  /** No job holds more than its width. */
  ghost predicate WithinWidth(table: WidthTable, jobs: seq<(string, JobInfo)>, allocs: Allocation)
  {
    forall i :: 0 <= i < |allocs| ==> |allocs[i].1| <= Max(KeyWidth(table, jobs, allocs[i].0), 0)
  }

  /** The invariant of the second pass, which starts from the kept
      allocations `kept` and the residual `base` they leave: the kept
      allocations stay in front; the fills balance against `base` without
      ever taking a GPU a node no longer has; keys are distinct jobs the pass
      can handle; no job holds more than its width; and `total` is the sum of
      the allocated jobs' widths. */
  ghost predicate FillInv(table: WidthTable, jobs: seq<(string, JobInfo)>, base: map<string, int>,
                          kept: Allocation, st: Round)
  {
    && |kept| <= |st.allocs| && st.allocs[..|kept|] == kept
    && Accounted(base, st.avail, st.allocs[|kept|..])
    && KeysOk(table, jobs, st.allocs)
    && WithinWidth(table, jobs, st.allocs)
    && st.total == TotalWidth(table, jobs, Keys(st.allocs))
  }

  lemma KeysOkAppend(table: WidthTable, jobs: seq<(string, JobInfo)>, allocs: Allocation, e: (string, seq<string>))
    requires KeysOk(table, jobs, allocs)
    requires !HasKey(allocs, e.0) && HasKey(jobs, e.0) && JobOk(table, Lookup(jobs, e.0))
    ensures KeysOk(table, jobs, allocs + [e])
  {
    var allocs' := allocs + [e];
    forall k | HasKey(allocs', k) ensures HasKey(jobs, k) && JobOk(table, Lookup(jobs, k)) {
      HasKeyAppend(allocs, e, k);
    }
    forall a, b | 0 <= a < b < |allocs'| ensures allocs'[a].0 != allocs'[b].0 {
      if b == |allocs| { assert allocs'[a] == allocs[a]; }
    }
  }

  lemma WithinWidthAppend(table: WidthTable, jobs: seq<(string, JobInfo)>, allocs: Allocation, e: (string, seq<string>))
    requires WithinWidth(table, jobs, allocs)
    requires |e.1| <= Max(KeyWidth(table, jobs, e.0), 0)
    ensures WithinWidth(table, jobs, allocs + [e])
  {
    var allocs' := allocs + [e];
    forall a | 0 <= a < |allocs'| ensures |allocs'[a].1| <= Max(KeyWidth(table, jobs, allocs'[a].0), 0) {
      if a < |allocs| { assert allocs'[a] == allocs[a]; }
    }
  }

  lemma FillInvAppend(table: WidthTable, jobs: seq<(string, JobInfo)>, base: map<string, int>,
                      kept: Allocation, st: Round, e: (string, seq<string>), av: map<string, int>)
    requires FillInv(table, jobs, base, kept, st)
    requires !HasKey(st.allocs, e.0) && HasKey(jobs, e.0) && JobOk(table, Lookup(jobs, e.0))
    requires |e.1| <= Max(KeyWidth(table, jobs, e.0), 0)
    requires av.Keys == st.avail.Keys
    requires forall n :: n in st.avail ==> av[n] == st.avail[n] - Count(n, e.1)
    requires forall n :: n in e.1 ==> n in base && av[n] >= 0
    ensures FillInv(table, jobs, base, kept, Round(av, st.allocs + [e], st.total + KeyWidth(table, jobs, e.0)))
  {
    var allocs' := st.allocs + [e];
    assert allocs'[..|kept|] == kept;
    assert Accounted(base, av, allocs'[|kept|..]) by {
      assert allocs'[|kept|..] == st.allocs[|kept|..] + [e];
      AccountedAppend(base, st.avail, st.allocs[|kept|..], e, av);
    }
    assert KeysOk(table, jobs, allocs') by {
      KeysOkAppend(table, jobs, st.allocs, e);
    }
    assert WithinWidth(table, jobs, allocs') by {
      WithinWidthAppend(table, jobs, st.allocs, e);
    }
    assert st.total + KeyWidth(table, jobs, e.0) == TotalWidth(table, jobs, Keys(allocs')) by {
      KeysAppend(st.allocs, e);
      TotalWidthAppend(table, jobs, Keys(st.allocs), e.0);
    }
  }

  lemma FillStepErr(table: WidthTable, names: seq<string>, st: Round, entry: (string, JobInfo))
    requires forall j :: 0 <= j < |names| ==> names[j] in st.avail
    ensures FillStep(table, names, Ok(st), entry).Err? <==> !HasKey(st.allocs, entry.0) && !JobOk(table, entry.1)
    ensures FillStep(table, names, Ok(st), entry).Err? ==> FillStep(table, names, Ok(st), entry).error == JobError(entry.1)
  {
  }

  lemma FillStepInv(table: WidthTable, names: seq<string>, jobs: seq<(string, JobInfo)>, base: map<string, int>,
                    kept: Allocation, st: Round, i: nat)
    requires DistinctKeys(jobs) && i < |jobs|
    requires FillInv(table, jobs, base, kept, st)
    requires forall j :: 0 <= j < |names| ==> names[j] in base
    ensures var r := FillStep(table, names, Ok(st), jobs[i]);
      r.Ok? ==> FillInv(table, jobs, base, kept, r.value) && HasKey(r.value.allocs, jobs[i].0) &&
                forall k :: HasKey(st.allocs, k) ==> HasKey(r.value.allocs, k)
  {
    var (key, job) := jobs[i];
    if !HasKey(st.allocs, key) && JobOk(table, job) {
      LookupAt(jobs, i);
      var w := WidthOf(table, job);
      assert KeyWidth(table, jobs, key) == w;
      var filled := Fill(names, st.avail, w);
      var next := Round(filled.1, st.allocs + [(key, filled.0)], st.total + w);
      assert FillStep(table, names, Ok(st), jobs[i]) == Ok(next);
      assert FillInv(table, jobs, base, kept, next) by {
        FillLength(names, st.avail, w);
        FillConserves(names, st.avail, w);
        FillInvAppend(table, jobs, base, kept, st, (key, filled.0), filled.1);
      }
      forall k | HasKey(st.allocs, k) || k == key ensures HasKey(next.allocs, k) {
        HasKeyAppend(st.allocs, (key, filled.0), k);
      }
    }
  }

  lemma FillPassUnfold(table: WidthTable, names: seq<string>, jobs: seq<(string, JobInfo)>, st: Round, n: nat)
    requires 0 < n <= |jobs|
    requires forall j :: 0 <= j < |names| ==> names[j] in st.avail
    ensures FillPass(table, names, jobs[..n], Ok(st)) == FillStep(table, names, FillPass(table, names, jobs[..n - 1], Ok(st)), jobs[n - 1])
  {
    assert jobs[..n][..n - 1] == jobs[..n - 1];
    assert jobs[..n][n - 1] == jobs[n - 1];
  }

  /** What the second pass has done after the first n jobs. */
  ghost predicate FillDone(table: WidthTable, names: seq<string>, jobs: seq<(string, JobInfo)>,
                           base: map<string, int>, kept: Allocation, st: Round, n: nat)
    requires n <= |jobs|
    requires forall j :: 0 <= j < |names| ==> names[j] in st.avail
  {
    var r := FillPass(table, names, jobs[..n], Ok(st));
    r.Ok? ==> && FillInv(table, jobs, base, kept, r.value)
              && (forall i :: 0 <= i < n ==> HasKey(r.value.allocs, jobs[i].0))
              && (forall k :: HasKey(st.allocs, k) ==> HasKey(r.value.allocs, k))
  }

  lemma FillPassInvStep(table: WidthTable, names: seq<string>, jobs: seq<(string, JobInfo)>,
                        base: map<string, int>, kept: Allocation, st: Round, n: nat)
    requires DistinctKeys(jobs) && 0 < n <= |jobs|
    requires forall j :: 0 <= j < |names| ==> names[j] in base
    requires st.avail.Keys == base.Keys
    requires FillDone(table, names, jobs, base, kept, st, n - 1)
    ensures FillDone(table, names, jobs, base, kept, st, n)
  {
    FillPassUnfold(table, names, jobs, st, n);
    var mid := FillPass(table, names, jobs[..n - 1], Ok(st));
    if mid.Ok? {
      FillStepInv(table, names, jobs, base, kept, mid.value, n - 1);
    }
  }

  lemma {:induction false} FillPassInv(table: WidthTable, names: seq<string>, jobs: seq<(string, JobInfo)>,
                                       base: map<string, int>, kept: Allocation, st: Round, n: nat)
    requires DistinctKeys(jobs) && n <= |jobs|
    requires FillInv(table, jobs, base, kept, st)
    requires forall j :: 0 <= j < |names| ==> names[j] in base
    ensures st.avail.Keys == base.Keys
    ensures FillDone(table, names, jobs, base, kept, st, n)
    decreases n
  {
    if n == 0 {
      assert jobs[..0] == [];
    } else {
      FillPassInv(table, names, jobs, base, kept, st, n - 1);
      FillPassInvStep(table, names, jobs, base, kept, st, n);
    }
  }

  /** The second pass fails only at a job it cannot handle, and not at all
      when it can handle every job. */
  lemma {:induction false} FillPassOk(table: WidthTable, names: seq<string>, jobs: seq<(string, JobInfo)>,
                                      st: Round, n: nat)
    requires n <= |jobs|
    requires forall j :: 0 <= j < |names| ==> names[j] in st.avail
    ensures var r := FillPass(table, names, jobs[..n], Ok(st));
      r.Err? ==> exists i :: 0 <= i < n && !JobOk(table, jobs[i].1) && r.error == JobError(jobs[i].1)
    ensures (forall i :: 0 <= i < n ==> JobOk(table, jobs[i].1)) ==> FillPass(table, names, jobs[..n], Ok(st)).Ok?
    decreases n
  {
    if n > 0 {
      assert jobs[..n][..n - 1] == jobs[..n - 1];
      assert jobs[..n][n - 1] == jobs[n - 1];
      FillPassOk(table, names, jobs, st, n - 1);
      var mid := FillPass(table, names, jobs[..n - 1], Ok(st));
      if mid.Ok? {
        FillStepErr(table, names, mid.value, jobs[n - 1]);
      } else {
        FillPassErr(table, names, [jobs[n - 1]], mid);
        assert [jobs[n - 1]][..0] == [];
      }
    }
  }

  lemma {:induction false} FillPassErr(table: WidthTable, names: seq<string>, jobs: seq<(string, JobInfo)>, st: Result<Round>)
    requires st.Err?
    ensures FillPass(table, names, jobs, st) == st
    decreases |jobs|
  {
    if jobs != [] { FillPassErr(table, names, jobs[..|jobs| - 1], st); }
  }

  /* ---------- what `optimize` promises ---------- */

  /** A successful first pass hands the second pass a state that meets its
      invariant. */
  lemma FirstPassReady(table: WidthTable, jobs: seq<(string, JobInfo)>, cap: map<string, int>, prev: Allocation)
    requires DistinctKeys(prev)
    ensures var r := PreservePass(table, jobs, prev, Ok(Round(cap, [], 0)));
      r.Ok? ==> && r.value.allocs == Kept(table, jobs, prev)
                && r.value.avail.Keys == cap.Keys
                && (forall n :: n in cap ==> r.value.avail[n] == cap[n] - Used(n, r.value.allocs))
                && (forall i, x :: 0 <= i < |r.value.allocs| && x in r.value.allocs[i].1 ==> x in cap)
                && FillInv(table, jobs, r.value.avail, r.value.allocs, r.value)
  {
    var r := PreservePass(table, jobs, prev, Ok(Round(cap, [], 0)));
    PreservePassOk(table, jobs, cap, prev);
    PreservePassState(table, jobs, cap, prev);
    if r.Ok? {
      KeptFacts(table, jobs, cap, prev);
      var st := r.value;
      assert st.allocs[|st.allocs|..] == [];
      assert Accounted(st.avail, st.avail, []);
      assert KeysOk(table, jobs, st.allocs);
      assert WithinWidth(table, jobs, st.allocs);
    }
  }

  lemma OptimizeUnfold(table: WidthTable, jobs: seq<(string, JobInfo)>, nodes: seq<NodeEntry>,
                        prev: Allocation, template: Node)
    ensures var r, kept := Optimize(table, jobs, nodes, prev, template), PreservePass(table, jobs, prev, Start(nodes));
      var filled := (PreservePassKeepsNodes(table, jobs, prev, Start(nodes));
                     FillPass(table, Keys(nodes), jobs, kept));
      r.Ok? ==> && filled.Ok?
                && r.value.allocations == filled.value.allocs
                && r.value.desiredNodes == CeilDiv(filled.value.total, Get(template.resources, GPU, 1))
  {
  }

  /** Both passes together, when they succeed. */
  lemma BothPasses(table: WidthTable, jobs: seq<(string, JobInfo)>, nodes: seq<NodeEntry>, prev: Allocation)
    requires DistinctKeys(jobs) && DistinctKeys(prev)
    ensures var kept := PreservePass(table, jobs, prev, Start(nodes));
      var filled := (PreservePassKeepsNodes(table, jobs, prev, Start(nodes));
                     FillPass(table, Keys(nodes), jobs, kept));
      filled.Ok? ==> && kept.Ok?
                     && kept.value.allocs == Kept(table, jobs, prev)
                     && (forall n :: n in GpuCapacity(nodes) ==>
                           kept.value.avail[n] == GpuCapacity(nodes)[n] - Used(n, kept.value.allocs))
                     && (forall i, x :: 0 <= i < |kept.value.allocs| && x in kept.value.allocs[i].1 ==> HasKey(nodes, x))
                     && FillInv(table, jobs, kept.value.avail, kept.value.allocs, filled.value)
                     && (forall i :: 0 <= i < |jobs| ==> HasKey(filled.value.allocs, jobs[i].0))
  {
    var cap := GpuCapacity(nodes);
    var kept := PreservePass(table, jobs, prev, Start(nodes));
    PreservePassKeepsNodes(table, jobs, prev, Start(nodes));
    var filled := FillPass(table, Keys(nodes), jobs, kept);
    FirstPassReady(table, jobs, cap, prev);
    if kept.Ok? {
      FillPassInv(table, Keys(nodes), jobs, kept.value.avail, kept.value.allocs, kept.value, |jobs|);
      assert jobs[..|jobs|] == jobs;
    } else {
      FillPassErr(table, Keys(nodes), jobs, kept);
    }
  }

  /** `optimize` succeeds exactly when every job asks for one GPU per replica
      and has a width, every previous allocation it keeps names only nodes
      of the cluster, and the node template's GPU count is not zero. */
  lemma OptimizeSucceeds(table: WidthTable, jobs: seq<(string, JobInfo)>, nodes: seq<NodeEntry>,
                         prev: Allocation, template: Node)
    requires DistinctKeys(jobs) && DistinctKeys(prev)
    ensures Optimize(table, jobs, nodes, prev, template).Ok? <==>
      && (forall i :: 0 <= i < |jobs| ==> JobOk(table, jobs[i].1))
      && (forall i :: 0 <= i < |prev| && Keeps(table, jobs, prev[i]) ==> forall x :: x in prev[i].1 ==> HasKey(nodes, x))
      && Get(template.resources, GPU, 1) != 0
  {
    if Optimize(table, jobs, nodes, prev, template).Ok? {
      OptimizeOkNeeds(table, jobs, nodes, prev, template);
    }
    if && (forall i :: 0 <= i < |jobs| ==> JobOk(table, jobs[i].1))
       && (forall i :: 0 <= i < |prev| && Keeps(table, jobs, prev[i]) ==> forall x :: x in prev[i].1 ==> HasKey(nodes, x))
       && Get(template.resources, GPU, 1) != 0
    {
      OptimizeOkSuffices(table, jobs, nodes, prev, template);
    }
  }

  lemma OptimizeOkNeeds(table: WidthTable, jobs: seq<(string, JobInfo)>, nodes: seq<NodeEntry>,
                        prev: Allocation, template: Node)
    requires DistinctKeys(jobs) && DistinctKeys(prev)
    requires Optimize(table, jobs, nodes, prev, template).Ok?
    ensures forall i :: 0 <= i < |jobs| ==> JobOk(table, jobs[i].1)
    ensures forall i :: 0 <= i < |prev| && Keeps(table, jobs, prev[i]) ==> forall x :: x in prev[i].1 ==> HasKey(nodes, x)
    ensures Get(template.resources, GPU, 1) != 0
  {
    var cap := GpuCapacity(nodes);
    PreservePassOk(table, jobs, cap, prev);
    BothPasses(table, jobs, nodes, prev);
    forall i | 0 <= i < |jobs| ensures JobOk(table, jobs[i].1) {
      LookupAt(jobs, i);
    }
    forall i | 0 <= i < |prev| && Keeps(table, jobs, prev[i])
      ensures forall x :: x in prev[i].1 ==> HasKey(nodes, x)
    {
      assert PrevOk(table, jobs, cap, prev[i]);
    }
  }

  lemma OptimizeOkSuffices(table: WidthTable, jobs: seq<(string, JobInfo)>, nodes: seq<NodeEntry>,
                           prev: Allocation, template: Node)
    requires DistinctKeys(jobs) && DistinctKeys(prev)
    requires forall i :: 0 <= i < |jobs| ==> JobOk(table, jobs[i].1)
    requires forall i :: 0 <= i < |prev| && Keeps(table, jobs, prev[i]) ==> forall x :: x in prev[i].1 ==> HasKey(nodes, x)
    requires Get(template.resources, GPU, 1) != 0
    ensures Optimize(table, jobs, nodes, prev, template).Ok?
  {
    var cap := GpuCapacity(nodes);
    var kept := PreservePass(table, jobs, prev, Start(nodes));
    PreservePassKeepsNodes(table, jobs, prev, Start(nodes));
    PreservePassOk(table, jobs, cap, prev);
    forall i | 0 <= i < |prev| ensures PrevOk(table, jobs, cap, prev[i]) {
      if HasKey(jobs, prev[i].0) {
        var v := Lookup(jobs, prev[i].0);
        var j :| 0 <= j < |jobs| && jobs[j] == (prev[i].0, v);
        assert JobOk(table, jobs[j].1);
      }
    }
    FillPassOk(table, Keys(nodes), jobs, kept.value, |jobs|);
    assert jobs[..|jobs|] == jobs;
  }

  /** Which exception a failing `optimize` raises: the assertion only when
      some job asks for other than one GPU per replica, `KeyError` only when
      some job has no width or a kept previous allocation names a node the
      cluster does not have, and `ZeroDivisionError` only for a template
      without GPUs. */
  lemma OptimizeErrors(table: WidthTable, jobs: seq<(string, JobInfo)>, nodes: seq<NodeEntry>,
                       prev: Allocation, template: Node)
    requires DistinctKeys(jobs)
    ensures var r := Optimize(table, jobs, nodes, prev, template);
      r.Err? ==> r.error in {AssertionError, KeyError, ZeroDivisionError}
    ensures var r := Optimize(table, jobs, nodes, prev, template);
      r.Err? && r.error == AssertionError ==> exists i :: 0 <= i < |jobs| && GpusPerReplica(jobs[i].1) != 1
    ensures var r := Optimize(table, jobs, nodes, prev, template);
      r.Err? && r.error == KeyError ==>
        || (exists i :: 0 <= i < |jobs| && !HasWidth(table, jobs[i].1))
        || (exists i, x :: 0 <= i < |prev| && Keeps(table, jobs, prev[i]) && x in prev[i].1 && !HasKey(nodes, x))
    ensures var r := Optimize(table, jobs, nodes, prev, template);
      r.Err? && r.error == ZeroDivisionError ==> Get(template.resources, GPU, 1) == 0
  {
    var cap := GpuCapacity(nodes);
    var kept := PreservePass(table, jobs, prev, Start(nodes));
    PreservePassKeepsNodes(table, jobs, prev, Start(nodes));
    PreservePassOk(table, jobs, cap, prev);
    PreservePassError(table, jobs, cap, prev);
    if kept.Err? {
      FillPassErr(table, Keys(nodes), jobs, kept);
      var i :| && 0 <= i < |prev| && HasKey(jobs, prev[i].0)
               && !PrevOk(table, jobs, cap, prev[i])
               && kept.error == JobError(Lookup(jobs, prev[i].0));
      var v := Lookup(jobs, prev[i].0);
      var j :| 0 <= j < |jobs| && jobs[j] == (prev[i].0, v);
      if GpusPerReplica(v) == 1 && HasWidth(table, v) {
        assert Keeps(table, jobs, prev[i]);
        var x :| x in prev[i].1 && x !in cap;
        assert !HasKey(nodes, x);
      }
    } else {
      FillPassOk(table, Keys(nodes), jobs, kept.value, |jobs|);
      assert jobs[..|jobs|] == jobs;
    }
  }

  /** What a successful `optimize` allocates: every job, and nothing else,
      has one allocation; the previous allocations of the right size come
      first, unchanged; no job holds more than its width; and every replica
      is on a node of the cluster. */
  lemma OptimizeAllocations(table: WidthTable, jobs: seq<(string, JobInfo)>, nodes: seq<NodeEntry>,
                            prev: Allocation, template: Node)
    requires DistinctKeys(jobs) && DistinctKeys(prev)
    ensures var r, kept := Optimize(table, jobs, nodes, prev, template), Kept(table, jobs, prev);
      r.Ok? ==> && DistinctKeys(r.value.allocations)
                && (forall k :: HasKey(r.value.allocations, k) <==> HasKey(jobs, k))
                && |kept| <= |r.value.allocations| && r.value.allocations[..|kept|] == kept
                && (forall i :: 0 <= i < |r.value.allocations| ==>
                      |r.value.allocations[i].1| <= Max(KeyWidth(table, jobs, r.value.allocations[i].0), 0))
    ensures var r := Optimize(table, jobs, nodes, prev, template);
      r.Ok? ==> forall i, x :: 0 <= i < |r.value.allocations| && x in r.value.allocations[i].1 ==> HasKey(nodes, x)
  {
    PassesAllocations(table, jobs, nodes, prev);
    OptimizeUnfold(table, jobs, nodes, prev, template);
  }

  /** OptimizeAllocations for the two passes alone. */
  lemma PassesAllocations(table: WidthTable, jobs: seq<(string, JobInfo)>, nodes: seq<NodeEntry>, prev: Allocation)
    requires DistinctKeys(jobs) && DistinctKeys(prev)
    ensures var kept := PreservePass(table, jobs, prev, Start(nodes));
      var filled := (PreservePassKeepsNodes(table, jobs, prev, Start(nodes));
                     FillPass(table, Keys(nodes), jobs, kept));
      filled.Ok? ==>
        var allocs, k := filled.value.allocs, Kept(table, jobs, prev);
        && DistinctKeys(allocs) && (forall key :: HasKey(allocs, key) <==> HasKey(jobs, key))
        && |k| <= |allocs| && allocs[..|k|] == k
        && (forall i :: 0 <= i < |allocs| ==> |allocs[i].1| <= Max(KeyWidth(table, jobs, allocs[i].0), 0))
        && (forall i, x :: 0 <= i < |allocs| && x in allocs[i].1 ==> HasKey(nodes, x))
  {
    var kept := PreservePass(table, jobs, prev, Start(nodes));
    PreservePassKeepsNodes(table, jobs, prev, Start(nodes));
    var filled := FillPass(table, Keys(nodes), jobs, kept);
    BothPasses(table, jobs, nodes, prev);
    if filled.Ok? {
      FilledAllocations(table, jobs, nodes, kept.value.avail, kept.value.allocs, filled.value);
    }
  }

  /** The allocations the second pass ends with, from its invariant. */
  lemma FilledAllocations(table: WidthTable, jobs: seq<(string, JobInfo)>, nodes: seq<NodeEntry>,
                          base: map<string, int>, k: Allocation, st: Round)
    requires FillInv(table, jobs, base, k, st)
    requires forall i :: 0 <= i < |jobs| ==> HasKey(st.allocs, jobs[i].0)
    requires forall i, x :: 0 <= i < |k| && x in k[i].1 ==> HasKey(nodes, x)
    requires base.Keys == KeySet(nodes)
    ensures DistinctKeys(st.allocs) && forall key :: HasKey(st.allocs, key) <==> HasKey(jobs, key)
    ensures |k| <= |st.allocs| && st.allocs[..|k|] == k
    ensures forall i :: 0 <= i < |st.allocs| ==> |st.allocs[i].1| <= Max(KeyWidth(table, jobs, st.allocs[i].0), 0)
    ensures forall i, x :: 0 <= i < |st.allocs| && x in st.allocs[i].1 ==> HasKey(nodes, x)
  {
    var allocs := st.allocs;
    forall key | HasKey(jobs, key) ensures HasKey(allocs, key) {
      var i :| 0 <= i < |jobs| && jobs[i].0 == key;
    }
    forall i, x | 0 <= i < |allocs| && x in allocs[i].1 ensures HasKey(nodes, x) {
      if i < |k| {
        assert allocs[..|k|][i] == k[i];
      } else {
        assert allocs[|k|..][i - |k|] == allocs[i];
      }
    }
  }

  /** The allocations after the kept prefix `kept` take at most what the
      kept ones leave of each node's capacity (nothing where they leave
      nothing). */
  ghost predicate WithinResidual(cap: map<string, int>, kept: Allocation, allocs: Allocation)
  {
    |kept| <= |allocs| && forall n :: n in cap ==> Used(n, allocs[|kept|..]) <= Max(cap[n] - Used(n, kept), 0)
  }

  /** The fills never take more GPUs on a node than the kept allocations
      left there (and none where they left nothing). */
  lemma OptimizeFillsWithinResidual(table: WidthTable, jobs: seq<(string, JobInfo)>, nodes: seq<NodeEntry>,
                                    prev: Allocation, template: Node)
    requires DistinctKeys(jobs) && DistinctKeys(prev)
    ensures var r := Optimize(table, jobs, nodes, prev, template);
      r.Ok? ==> WithinResidual(GpuCapacity(nodes), Kept(table, jobs, prev), r.value.allocations)
  {
    PassesWithinResidual(table, jobs, nodes, prev);
    OptimizeUnfold(table, jobs, nodes, prev, template);
  }

  /** OptimizeFillsWithinResidual for the two passes alone. */
  lemma PassesWithinResidual(table: WidthTable, jobs: seq<(string, JobInfo)>, nodes: seq<NodeEntry>, prev: Allocation)
    requires DistinctKeys(jobs) && DistinctKeys(prev)
    ensures var kept := PreservePass(table, jobs, prev, Start(nodes));
      var filled := (PreservePassKeepsNodes(table, jobs, prev, Start(nodes));
                     FillPass(table, Keys(nodes), jobs, kept));
      filled.Ok? ==> WithinResidual(GpuCapacity(nodes), Kept(table, jobs, prev), filled.value.allocs)
  {
    var kept := PreservePass(table, jobs, prev, Start(nodes));
    PreservePassKeepsNodes(table, jobs, prev, Start(nodes));
    var filled := FillPass(table, Keys(nodes), jobs, kept);
    BothPasses(table, jobs, nodes, prev);
    if filled.Ok? {
      FilledWithinResidual(table, jobs, GpuCapacity(nodes), kept.value, filled.value);
    }
  }

  /** The fills of the second pass against the residual the kept allocations leave. */
  lemma FilledWithinResidual(table: WidthTable, jobs: seq<(string, JobInfo)>, cap: map<string, int>, kept: Round, st: Round)
    requires forall n :: n in cap ==> n in kept.avail && kept.avail[n] == cap[n] - Used(n, kept.allocs)
    requires FillInv(table, jobs, kept.avail, kept.allocs, st)
    ensures WithinResidual(cap, kept.allocs, st.allocs)
  {
    AccountedBounds(kept.avail, st.avail, st.allocs[|kept.allocs|..]);
  }

  /** The desired node count covers the sum of all the jobs' widths:
      the ceiling of that sum over the template's GPUs. */
  lemma OptimizeDesiredNodes(table: WidthTable, jobs: seq<(string, JobInfo)>, nodes: seq<NodeEntry>,
                             prev: Allocation, template: Node)
    requires DistinctKeys(jobs) && DistinctKeys(prev)
    ensures var r, g := Optimize(table, jobs, nodes, prev, template), Get(template.resources, GPU, 1);
      r.Ok? ==> g != 0 && r.value.desiredNodes == CeilDiv(JobsWidth(table, jobs), g)
  {
    var kept := PreservePass(table, jobs, prev, Start(nodes));
    PreservePassKeepsNodes(table, jobs, prev, Start(nodes));
    var filled := FillPass(table, Keys(nodes), jobs, kept);
    assert filled.Ok? ==> filled.value.total == JobsWidth(table, jobs) by {
      BothPasses(table, jobs, nodes, prev);
      if filled.Ok? {
        FilledTotal(table, jobs, kept.value.avail, kept.value.allocs, filled.value);
      }
    }
    OptimizeUnfold(table, jobs, nodes, prev, template);
  }

  /** The total the second pass ends with is the sum of all the jobs' widths. */
  lemma FilledTotal(table: WidthTable, jobs: seq<(string, JobInfo)>, base: map<string, int>, kept: Allocation, st: Round)
    requires DistinctKeys(jobs) && FillInv(table, jobs, base, kept, st)
    requires forall i :: 0 <= i < |jobs| ==> HasKey(st.allocs, jobs[i].0)
    ensures st.total == JobsWidth(table, jobs)
  {
    TotalOverAllJobs(table, jobs, st.allocs);
  }

  /** Allocations with distinct keys, one for every job and only for jobs,
      sum to the widths of all the jobs. */
  lemma TotalOverAllJobs(table: WidthTable, jobs: seq<(string, JobInfo)>, allocs: Allocation)
    requires DistinctKeys(jobs) && DistinctKeys(allocs)
    requires forall k :: HasKey(allocs, k) ==> HasKey(jobs, k)
    requires forall i :: 0 <= i < |jobs| ==> HasKey(allocs, jobs[i].0)
    ensures TotalWidth(table, jobs, Keys(allocs)) == JobsWidth(table, jobs)
  {
    KeysFacts(allocs);
    KeysFacts(jobs);
    forall key ensures key in Keys(allocs) <==> key in Keys(jobs) {
      if HasKey(jobs, key) {
        var i :| 0 <= i < |jobs| && jobs[i].0 == key;
      }
    }
    SumOfSameSet(k => KeyWidth(table, jobs, k), Keys(allocs), Keys(jobs));
    JobsWidthByKeys(table, jobs, |jobs|);
    assert jobs[..|jobs|] == jobs;
  }

  /** The books need not balance: a kept allocation is deducted without a
      capacity check, so when a node lost GPUs since the previous round the
      job kept on it holds more replicas than it has. Here a node that now
      reports no GPU keeps a single-GPU job. */
  lemma KeptMayOversubscribe()
    ensures var nodes := [("n", Node(map[], false))];
      var jobs := [("a", JobInfo(map[], 0, "bert", 0))];
      var r := Optimize(map["bert" := map[0 := 1]], jobs, nodes, [("a", ["n"])], Node(map[], false));
      r.Ok? && r.value.allocations == [("a", ["n"])] && Used("n", r.value.allocations) == 1 > GpuCapacity(nodes)["n"]
  {
    var nodes := [("n", Node(map[], false))];
    var jobs := [("a", JobInfo(map[], 0, "bert", 0))];
    var prev: Allocation := [("a", ["n"])];
    var table := map["bert" := map[0 := 1]];
    ExampleKept(table, jobs, nodes, prev);
    var kept := PreservePass(table, jobs, prev, Start(nodes));
    PreservePassKeepsNodes(table, jobs, prev, Start(nodes));
    assert FillPass(table, Keys(nodes), jobs, kept) == kept by {
      assert jobs[..0] == [];
      assert HasKey(prev, "a") by { assert prev[0].0 == "a"; }
    }
    assert Used("n", prev) == 1 by { assert prev[..0] == []; }
  }

  /** The first pass of the example keeps the allocation and drives the node to -1. */
  lemma ExampleKept(table: WidthTable, jobs: seq<(string, JobInfo)>, nodes: seq<NodeEntry>, prev: Allocation)
    requires nodes == [("n", Node(map[], false))] && prev == [("a", ["n"])]
    requires jobs == [("a", JobInfo(map[], 0, "bert", 0))] && table == map["bert" := map[0 := 1]]
    ensures PreservePass(table, jobs, prev, Start(nodes)) == Ok(Round(map["n" := -1], prev, 1))
    ensures GpuCapacity(nodes)["n"] == 0
  {
    var cap := GpuCapacity(nodes);
    assert cap == map["n" := 0] by { assert nodes[..0] == []; }
    var job := jobs[0].1;
    assert HasKey(jobs, "a") && Lookup(jobs, "a") == job by { assert jobs[0].0 == "a"; }
    assert GpusPerReplica(job) == 1 && HasWidth(table, job) && WidthOf(table, job) == 1;
    assert Deduct(cap, ["n"]) == map["n" := -1] by { assert ["n"][..0] == []; }
    assert PreservePass(table, jobs, prev, Start(nodes)) == PreserveStep(table, jobs, Start(nodes), prev[0]) by {
      assert prev[..0] == [];
    }
    assert Known(cap, prev[0].1) && |prev[0].1| == 1;
    assert [] + [prev[0]] == prev;
  }

  lemma {:induction false} FillPassStops(table: WidthTable, names: seq<string>, jobs: seq<(string, JobInfo)>, i: nat, st: Result<Round>)
    requires st.Ok? ==> forall k :: 0 <= k < |names| ==> names[k] in st.value.avail
    requires i <= |jobs| && FillPass(table, names, jobs[..i], st).Err?
    ensures FillPass(table, names, jobs, st) == FillPass(table, names, jobs[..i], st)
    decreases |jobs|
  {
    if i < |jobs| {
      assert jobs[..|jobs| - 1][..i] == jobs[..i];
      FillPassStops(table, names, jobs[..|jobs| - 1], i, st);
    } else {
      assert jobs[..i] == jobs;
    }
  }

  /* ---------- the method ---------- */

  /** One iteration of the first-pass loop, from the state `st` it finds. */
  method PreserveEntry(table: WidthTable, jobs: seq<(string, JobInfo)>, st: Round, key: string, p: seq<string>)
    returns (r: Result<Round>)
    ensures r == PreserveStep(table, jobs, Ok(st), (key, p))
  {
    r := Ok(st);
    if !HasKey(jobs, key) {
      return;
    }
    var job := Lookup(jobs, key);
    var gpr := GpusPerReplica(job);
    if gpr != 1 {
      return Err(AssertionError);
    }
    var wanted := Wanted(table, job);
    if wanted.Err? {
      return Err(KeyError);
    }
    var w := wanted.value;
    if |p| != w {
      return;
    }
    var avail := DeductEach(st.avail, p, gpr);
    if avail.Err? {
      return Err(KeyError);
    }
    r := Ok(Round(avail.value, st.allocs + [(key, p)], st.total + w));
  }

  /** The deduction loop of a kept allocation (`gpus_per_replica` is 1 there):
      a `KeyError` at the first node that is not in `available_gpus`. */
  method DeductEach(avail: map<string, int>, p: seq<string>, gpr: int) returns (r: Result<map<string, int>>)
    requires gpr == 1
    ensures r.Ok? <==> Known(avail, p)
    ensures r.Ok? ==> r.value == Deduct(avail, p)
    ensures r.Err? ==> r.error == KeyError
  {
    var left := avail;
    for j := 0 to |p|
      invariant Known(avail, p[..j]) && left == Deduct(avail, p[..j])
    {
      assert p[..j + 1][..j] == p[..j];
      if p[j] !in left {
        assert !Known(avail, p);
        return Err(KeyError);
      }
      left := left[p[j] := left[p[j]] - gpr];
    }
    assert p[..|p|] == p;
    r := Ok(left);
  }

  /** One iteration of the second-pass loop, from the state `st` it finds. */
  method FillEntry(table: WidthTable, names: seq<string>, st: Round, key: string, job: JobInfo)
    returns (r: Result<Round>)
    requires forall i :: 0 <= i < |names| ==> names[i] in st.avail
    ensures r == FillStep(table, names, Ok(st), (key, job))
  {
    if HasKey(st.allocs, key) {
      return Ok(st);
    }
    if GpusPerReplica(job) != 1 {
      return Err(AssertionError);
    }
    var wanted := Wanted(table, job);
    if wanted.Err? {
      return Err(KeyError);
    }
    var current, residual := FillJob(names, st.avail, wanted.value);
    r := Ok(Round(residual, st.allocs + [(key, current)], st.total + wanted.value));
  }

  /** The first-pass loop over `prev_allocations`. */
  method KeepPrevious(table: WidthTable, jobs: seq<(string, JobInfo)>, nodes: seq<NodeEntry>, prev: Allocation)
    returns (r: Result<Round>)
    ensures r == PreservePass(table, jobs, prev, Start(nodes))
  {
    var st := Round(GpuCapacity(nodes), [], 0);
    for i := 0 to |prev|
      invariant PreservePass(table, jobs, prev[..i], Start(nodes)) == Ok(st)
    {
      assert prev[..i + 1][..i] == prev[..i];
      var next := PreserveEntry(table, jobs, st, prev[i].0, prev[i].1);
      if next.Err? {
        PreservePassStops(table, jobs, prev, i + 1, Start(nodes));
        return next;
      }
      st := next.value;
    }
    assert prev[..|prev|] == prev;
    r := Ok(st);
  }

  /** The second-pass loop over `jobs`. */
  method FillRemaining(table: WidthTable, names: seq<string>, jobs: seq<(string, JobInfo)>, st0: Round)
    returns (r: Result<Round>)
    requires forall i :: 0 <= i < |names| ==> names[i] in st0.avail
    ensures r == FillPass(table, names, jobs, Ok(st0))
  {
    var st := st0;
    for i := 0 to |jobs|
      invariant FillPass(table, names, jobs[..i], Ok(st0)) == Ok(st)
      invariant st.avail.Keys == st0.avail.Keys
    {
      assert jobs[..i + 1][..i] == jobs[..i];
      var next := FillEntry(table, names, st, jobs[i].0, jobs[i].1);
      if next.Err? {
        FillPassStops(table, names, jobs, i + 1, Ok(st0));
        return next;
      }
      st := next.value;
    }
    assert jobs[..|jobs|] == jobs;
    r := Ok(st);
  }

  /** `FixedWidthPolicy.optimize`, step by step as the source does it. */
  method OptimizeRound(table: WidthTable, jobs: seq<(string, JobInfo)>, nodes: seq<NodeEntry>,
                       prev: Allocation, template: Node) returns (r: Result<Decision>)
    ensures r == Optimize(table, jobs, nodes, prev, template)
  {
    var kept := KeepPrevious(table, jobs, nodes, prev);
    PreservePassKeepsNodes(table, jobs, prev, Start(nodes));
    if kept.Err? {
      FillPassErr(table, Keys(nodes), jobs, kept);
      return Err(kept.error);
    }
    var filled := FillRemaining(table, Keys(nodes), jobs, kept.value);
    if filled.Err? {
      return Err(filled.error);
    }
    var perNode := Get(template.resources, GPU, 1);
    if perNode == 0 {
      return Err(ZeroDivisionError);
    }
    r := Ok(Decision(filled.value.allocs, CeilDiv(filled.value.total, perNode)));
  }
}
