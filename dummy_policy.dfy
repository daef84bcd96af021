/** DummyPolicy: every job gets the same fixed number of GPUs,
    `num_gpus_per_job` (here `width`). `optimize` keeps a previous allocation
    of exactly that size when the residual GPUs still cover it, and fills the
    other jobs greedily node by node. */
module DummyPolicy {
  import opened Common
  import opened Cluster

  /** The state the two passes of `optimize` thread through: the residual
      GPUs (`available_gpus`) and the allocations made so far. */
  datatype Round = Round(avail: map<string, int>, allocs: Allocation)

  /** What `optimize` returns: the allocations and the desired node count. */
  datatype Decision = Decision(allocations: Allocation, desiredNodes: int)

  /** The capacity check of the first pass: every node of the previous
      allocation still has as many residual GPUs as the job had replicas on it. */
  predicate CanPreserve(avail: map<string, int>, prev: seq<string>)
  {
    forall n :: n in prev ==> Get(avail, n, 0) >= Count(n, prev)
  }

  lemma CanPreserveKnownNodes(avail: map<string, int>, prev: seq<string>)
    requires CanPreserve(avail, prev)
    ensures forall n :: n in prev ==> n in avail
  {
    forall n | n in prev ensures n in avail {
      CountPositive(n, prev);
    }
  }

  /** One item of the first-pass loop over `prev_allocations`. */
  function PreserveStep(width: int, jobs: seq<(string, JobInfo)>, st: Result<Round>,
                        entry: (string, seq<string>)): Result<Round>
  {
    if st.Err? || !HasKey(jobs, entry.0) then st
    else
      var gpr := GpusPerReplica(Lookup(jobs, entry.0));
      if gpr == 0 then Err(ValueError)
      else if gpr != 1 then Err(AssertionError)
      else if |entry.1| * gpr == width && CanPreserve(st.value.avail, entry.1) then
        CanPreserveKnownNodes(st.value.avail, entry.1);
        Ok(Round(Deduct(st.value.avail, entry.1), st.value.allocs + [entry]))
      else st
  }

  /** The first pass over the items of `prev_allocations`, in order. */
  function PreservePass(width: int, jobs: seq<(string, JobInfo)>, prev: Allocation, st: Result<Round>): Result<Round>
  {
    if prev == [] then st
    else PreserveStep(width, jobs, PreservePass(width, jobs, prev[..|prev| - 1], st), prev[|prev| - 1])
  }

  /** One item of the second-pass loop over `jobs`. */
  function FillStep(width: int, names: seq<string>, st: Result<Round>, entry: (string, JobInfo)): Result<Round>
    requires st.Ok? ==> forall i :: 0 <= i < |names| ==> names[i] in st.value.avail
  {
    if st.Err? || HasKey(st.value.allocs, entry.0) then st
    else
      var gpr := GpusPerReplica(entry.1);
      if gpr != 1 then Err(AssertionError)
      else
        var filled := Fill(names, st.value.avail, FloorDiv(width, gpr));
        Ok(Round(filled.1, st.value.allocs + [(entry.0, filled.0)]))
  }

  /** The second pass over the items of `jobs`, in order. */
  function FillPass(width: int, names: seq<string>, jobs: seq<(string, JobInfo)>, st: Result<Round>): (r: Result<Round>)
    requires st.Ok? ==> forall i :: 0 <= i < |names| ==> names[i] in st.value.avail
    ensures r.Ok? ==> st.Ok? && r.value.avail.Keys == st.value.avail.Keys
  {
    if jobs == [] then st
    else
      var before := FillPass(width, names, jobs[..|jobs| - 1], st);
      FillStep(width, names, before, jobs[|jobs| - 1])
  }

  /** The residual GPUs before the first pass. */
  function Start(nodes: seq<NodeEntry>): Result<Round>
  {
    Ok(Round(GpuCapacity(nodes), []))
  }

  lemma {:induction false} PreservePassKeepsNodes(width: int, jobs: seq<(string, JobInfo)>, prev: Allocation, st: Result<Round>)
    ensures var r := PreservePass(width, jobs, prev, st);
      r.Ok? ==> st.Ok? && r.value.avail.Keys == st.value.avail.Keys
    decreases |prev|
  {
    if prev != [] {
      PreservePassKeepsNodes(width, jobs, prev[..|prev| - 1], st);
    }
  }

  /** `optimize`: both passes, then the desired node count
      `ceil(len(jobs) * num_gpus_per_job / template GPUs)`. */
  function Optimize(width: int, jobs: seq<(string, JobInfo)>, nodes: seq<NodeEntry>,
                    prev: Allocation, template: Node): (r: Result<Decision>)
    ensures var g := Get(template.resources, GPU, 1);
      r.Ok? && g > 0 ==> g * r.value.desiredNodes - g < |jobs| * width <= g * r.value.desiredNodes
  {
    var kept := PreservePass(width, jobs, prev, Start(nodes));
    PreservePassKeepsNodes(width, jobs, prev, Start(nodes));
    var filled := FillPass(width, Keys(nodes), jobs, kept);
    if filled.Err? then Err(filled.error)
    else
      var perNode := Get(template.resources, GPU, 1);
      if perNode == 0 then Err(ZeroDivisionError)
      else Ok(Decision(filled.value.allocs, CeilDiv(|jobs| * width, perNode)))
  }

  /* ---------- errors stop both passes ---------- */

  lemma {:induction false} PreservePassErr(width: int, jobs: seq<(string, JobInfo)>, prev: Allocation, st: Result<Round>)
    requires st.Err?
    ensures PreservePass(width, jobs, prev, st) == st
    decreases |prev|
  {
    if prev != [] { PreservePassErr(width, jobs, prev[..|prev| - 1], st); }
  }

  lemma {:induction false} PreservePassStops(width: int, jobs: seq<(string, JobInfo)>, prev: Allocation, i: nat, st: Result<Round>)
    requires i <= |prev| && PreservePass(width, jobs, prev[..i], st).Err?
    ensures PreservePass(width, jobs, prev, st) == PreservePass(width, jobs, prev[..i], st)
    decreases |prev|
  {
    if i < |prev| {
      assert prev[..|prev| - 1][..i] == prev[..i];
      PreservePassStops(width, jobs, prev[..|prev| - 1], i, st);
    } else {
      assert prev[..i] == prev;
    }
  }

  lemma {:induction false} FillPassErr(width: int, names: seq<string>, jobs: seq<(string, JobInfo)>, st: Result<Round>)
    requires st.Err?
    ensures FillPass(width, names, jobs, st) == st
    decreases |jobs|
  {
    if jobs != [] { FillPassErr(width, names, jobs[..|jobs| - 1], st); }
  }

  lemma {:induction false} FillPassStops(width: int, names: seq<string>, jobs: seq<(string, JobInfo)>, i: nat, st: Result<Round>)
    requires st.Ok? ==> forall k :: 0 <= k < |names| ==> names[k] in st.value.avail
    requires i <= |jobs| && FillPass(width, names, jobs[..i], st).Err?
    ensures FillPass(width, names, jobs, st) == FillPass(width, names, jobs[..i], st)
    decreases |jobs|
  {
    if i < |jobs| {
      assert jobs[..|jobs| - 1][..i] == jobs[..i];
      FillPassStops(width, names, jobs[..|jobs| - 1], i, st);
    } else {
      assert jobs[..i] == jobs;
    }
  }

  /* ---------- what a round keeps true ---------- */

  /** The invariant of both passes, over the cluster capacity `cap`: the books
      balance without oversubscribing a node, every allocated key is a job
      whose replicas take one GPU each, no key is allocated twice, and no job
      holds more than `width` replicas. */
  ghost predicate Inv(cap: map<string, int>, jobs: seq<(string, JobInfo)>, width: int, st: Round)
  {
    && Accounted(cap, st.avail, st.allocs)
    && DistinctKeys(st.allocs)
    && (forall k :: HasKey(st.allocs, k) ==> HasKey(jobs, k) && GpusPerReplica(Lookup(jobs, k)) == 1)
    && (forall i :: 0 <= i < |st.allocs| ==> |st.allocs[i].1| <= Max(width, 0))
  }

  lemma InvAppend(cap: map<string, int>, jobs: seq<(string, JobInfo)>, width: int, st: Round,
                  e: (string, seq<string>), avail': map<string, int>)
    requires Inv(cap, jobs, width, st)
    requires !HasKey(st.allocs, e.0) && HasKey(jobs, e.0) && GpusPerReplica(Lookup(jobs, e.0)) == 1
    requires |e.1| <= Max(width, 0)
    requires avail'.Keys == st.avail.Keys
    requires forall n :: n in st.avail ==> avail'[n] == st.avail[n] - Count(n, e.1)
    requires forall n :: n in e.1 ==> n in cap && avail'[n] >= 0
    ensures Inv(cap, jobs, width, Round(avail', st.allocs + [e]))
  {
    var allocs' := st.allocs + [e];
    AccountedAppend(cap, st.avail, st.allocs, e, avail');
    forall k | HasKey(allocs', k)
      ensures HasKey(jobs, k) && GpusPerReplica(Lookup(jobs, k)) == 1
    {
      HasKeyAppend(st.allocs, e, k);
    }
    forall i, j | 0 <= i < j < |allocs'| ensures allocs'[i].0 != allocs'[j].0 {
      if j == |st.allocs| {
        assert allocs'[i] == st.allocs[i];
      }
    }
  }

  /** One first-pass item: a previous job still present is kept, verbatim,
      exactly when its length is `width` and the residual GPUs at that point
      cover it; otherwise the round is unchanged. It raises exactly when the
      job is present and asks for other than one GPU per replica. */
  lemma PreserveStepInv(cap: map<string, int>, width: int, jobs: seq<(string, JobInfo)>, st: Round,
                        e: (string, seq<string>))
    requires Inv(cap, jobs, width, st) && !HasKey(st.allocs, e.0)
    ensures var r := PreserveStep(width, jobs, Ok(st), e);
      r.Ok? ==> Inv(cap, jobs, width, r.value) && (HasKey(r.value.allocs, e.0) ==> r.value.allocs == st.allocs + [e])
    ensures var r := PreserveStep(width, jobs, Ok(st), e);
      forall k :: r.Ok? && HasKey(r.value.allocs, k) ==> HasKey(st.allocs, k) || k == e.0
    ensures var r := PreserveStep(width, jobs, Ok(st), e);
      r.Ok? ==> (HasKey(r.value.allocs, e.0) <==> HasKey(jobs, e.0) && |e.1| == width && CanPreserve(st.avail, e.1))
    ensures var r := PreserveStep(width, jobs, Ok(st), e);
      r.Ok? && !HasKey(r.value.allocs, e.0) ==> r.value == st
    ensures var r := PreserveStep(width, jobs, Ok(st), e);
      r.Err? <==> HasKey(jobs, e.0) && GpusPerReplica(Lookup(jobs, e.0)) != 1
    ensures var r := PreserveStep(width, jobs, Ok(st), e);
      r.Err? ==> PreserveFailure(jobs, e.0, r.error)
  {
    var r := PreserveStep(width, jobs, Ok(st), e);
    if r.Ok? && r != Ok(st) {
      HasKeyAppend(st.allocs, e, e.0);
      CanPreserveKnownNodes(st.avail, e.1);
      var avail' := Deduct(st.avail, e.1);
      forall n | n in e.1 ensures n in cap && avail'[n] >= 0 {
        assert Get(st.avail, n, 0) >= Count(n, e.1);
      }
      InvAppend(cap, jobs, width, st, e, avail');
      forall k | HasKey(r.value.allocs, k) ensures HasKey(st.allocs, k) || k == e.0 {
        HasKeyAppend(st.allocs, e, k);
      }
    }
  }

  /** The exception the first pass raises for job `k`: its replicas ask for
      other than one GPU, `ValueError` when for none. */
  predicate PreserveFailure(jobs: seq<(string, JobInfo)>, k: string, e: Error)
    requires HasKey(jobs, k)
  {
    var g := GpusPerReplica(Lookup(jobs, k));
    g != 1 && e == (if g == 0 then ValueError else AssertionError)
  }

  /** The first pass from an empty round: the invariant holds, every kept
      entry is an entry of `prev` of exactly `width` replicas, and it fails
      exactly when some previous job still present asks for other than one
      GPU per replica (`ValueError` for zero). */
  lemma {:induction false} PreservePassInv(cap: map<string, int>, width: int, jobs: seq<(string, JobInfo)>, prev: Allocation)
    requires DistinctKeys(prev)
    ensures var r := PreservePass(width, jobs, prev, Ok(Round(cap, [])));
      r.Ok? ==> Inv(cap, jobs, width, r.value) && forall k :: HasKey(r.value.allocs, k) ==> HasKey(prev, k)
    ensures var r := PreservePass(width, jobs, prev, Ok(Round(cap, [])));
      r.Ok? ==> forall i :: 0 <= i < |r.value.allocs| ==> r.value.allocs[i] in prev && |r.value.allocs[i].1| == width
    ensures var r := PreservePass(width, jobs, prev, Ok(Round(cap, [])));
      r.Err? ==> (exists i :: 0 <= i < |prev| && HasKey(jobs, prev[i].0) &&
                   PreserveFailure(jobs, prev[i].0, r.error))
    ensures PreservePass(width, jobs, prev, Ok(Round(cap, []))).Err? <==>
      exists i :: 0 <= i < |prev| && HasKey(jobs, prev[i].0) && GpusPerReplica(Lookup(jobs, prev[i].0)) != 1
    decreases |prev|
  {
    PreservePassShape(width, jobs, prev, Round(cap, []));
    PreservePassBooks(cap, width, jobs, prev);
  }

  /** Which entries the first pass can keep and when it raises, from any
      round that has kept nothing yet. */
  lemma {:induction false} PreservePassShape(width: int, jobs: seq<(string, JobInfo)>, prev: Allocation, st: Round)
    requires st.allocs == []
    ensures var r := PreservePass(width, jobs, prev, Ok(st));
      r.Ok? ==> forall i :: 0 <= i < |r.value.allocs| ==> r.value.allocs[i] in prev && |r.value.allocs[i].1| == width
    ensures PreservePass(width, jobs, prev, Ok(st)).Err? <==>
      exists i :: 0 <= i < |prev| && HasKey(jobs, prev[i].0) && GpusPerReplica(Lookup(jobs, prev[i].0)) != 1
    decreases |prev|
  {
    if prev != [] {
      var prev' := prev[..|prev| - 1];
      var e := prev[|prev| - 1];
      PreservePassShape(width, jobs, prev', st);
      var mid := PreservePass(width, jobs, prev', Ok(st));
      if mid.Ok? {
        var r := PreserveStep(width, jobs, mid, e);
        if r.Ok? {
          forall i | 0 <= i < |r.value.allocs|
            ensures r.value.allocs[i] in prev && |r.value.allocs[i].1| == width
          {
            if i < |mid.value.allocs| {
              var j :| 0 <= j < |prev'| && prev'[j] == r.value.allocs[i];
              assert prev[j] == prev'[j];
            }
          }
        }
        assert forall i :: 0 <= i < |prev'| ==> prev'[i] == prev[i];
      } else {
        var i :| 0 <= i < |prev'| && HasKey(jobs, prev'[i].0) && GpusPerReplica(Lookup(jobs, prev'[i].0)) != 1;
        assert prev[i] == prev'[i];
      }
    }
  }

  /** The books of the first pass: the invariant, the keys kept and the
      exception raised. */
  lemma {:induction false} PreservePassBooks(cap: map<string, int>, width: int, jobs: seq<(string, JobInfo)>, prev: Allocation)
    requires DistinctKeys(prev)
    ensures var r := PreservePass(width, jobs, prev, Ok(Round(cap, [])));
      r.Ok? ==> Inv(cap, jobs, width, r.value) && forall k :: HasKey(r.value.allocs, k) ==> HasKey(prev, k)
    ensures var r := PreservePass(width, jobs, prev, Ok(Round(cap, [])));
      r.Err? ==> (exists i :: 0 <= i < |prev| && HasKey(jobs, prev[i].0) &&
                   PreserveFailure(jobs, prev[i].0, r.error))
    decreases |prev|
  {
    var st0 := Ok(Round(cap, []));
    if prev == [] {
      assert Accounted(cap, cap, []);
    } else {
      var prev' := prev[..|prev| - 1];
      var e := prev[|prev| - 1];
      PreservePassBooks(cap, width, jobs, prev');
      var mid := PreservePass(width, jobs, prev', st0);
      if mid.Ok? {
        PreserveStepInv(cap, width, jobs, mid.value, e);
        var r := PreserveStep(width, jobs, mid, e);
        forall k | r.Ok? && HasKey(r.value.allocs, k) ensures HasKey(prev, k) {
          if k == e.0 {
            assert prev[|prev| - 1].0 == k;
          } else {
            var i :| 0 <= i < |prev'| && prev'[i].0 == k;
            assert prev[i].0 == k;
          }
        }
        if HasKey(jobs, e.0) {
          var v := Lookup(jobs, e.0);
          if GpusPerReplica(v) != 1 {
            assert prev[|prev| - 1] == e;
          }
        }
      } else {
        var i :| 0 <= i < |prev'| && HasKey(jobs, prev'[i].0) && PreserveFailure(jobs, prev'[i].0, mid.error);
        assert prev[i] == prev'[i];
      }
    }
  }

  lemma FillStepInv(cap: map<string, int>, width: int, names: seq<string>, all: seq<(string, JobInfo)>,
                    st: Round, i: nat)
    requires DistinctKeys(all) && i < |all|
    requires Inv(cap, all, width, st)
    requires forall j :: 0 <= j < |names| ==> names[j] in cap
    ensures var r := FillStep(width, names, Ok(st), all[i]);
      r.Ok? ==> Inv(cap, all, width, r.value) && HasKey(r.value.allocs, all[i].0) &&
                forall k :: HasKey(st.allocs, k) ==> HasKey(r.value.allocs, k)
    ensures var r := FillStep(width, names, Ok(st), all[i]);
      r.Err? <==> !HasKey(st.allocs, all[i].0) && GpusPerReplica(all[i].1) != 1
    ensures var r := FillStep(width, names, Ok(st), all[i]);
      r.Err? ==> r.error == AssertionError
  {
    var (key, job) := all[i];
    if !HasKey(st.allocs, key) && GpusPerReplica(job) == 1 {
      LookupAt(all, i);
      var filled := Fill(names, st.avail, FloorDiv(width, 1));
      var next := Round(filled.1, st.allocs + [(key, filled.0)]);
      assert FillStep(width, names, Ok(st), all[i]) == Ok(next);
      assert Inv(cap, all, width, next) by {
        FillLength(names, st.avail, FloorDiv(width, 1));
        FillConserves(names, st.avail, FloorDiv(width, 1));
        InvAppend(cap, all, width, st, (key, filled.0), filled.1);
      }
      forall k | HasKey(st.allocs, k) || k == key ensures HasKey(next.allocs, k) {
        HasKeyAppend(st.allocs, (key, filled.0), k);
      }
    }
  }

  lemma FillPassUnfold(width: int, names: seq<string>, all: seq<(string, JobInfo)>, n: nat, st: Round)
    requires 0 < n <= |all|
    requires forall j :: 0 <= j < |names| ==> names[j] in st.avail
    ensures FillPass(width, names, all[..n], Ok(st)) == FillStep(width, names, FillPass(width, names, all[..n - 1], Ok(st)), all[n - 1])
  {
    assert all[..n][..n - 1] == all[..n - 1];
    assert all[..n][n - 1] == all[n - 1];
  }

  /** The second pass over the first n jobs: the invariant holds and each of
      those jobs is allocated, or it fails with `AssertionError` exactly when
      one of them that the first pass did not keep asks for other than one
      GPU per replica. */
  ghost predicate FillDone(cap: map<string, int>, width: int, names: seq<string>,
                           all: seq<(string, JobInfo)>, n: nat, st: Round)
    requires n <= |all|
    requires forall j :: 0 <= j < |names| ==> names[j] in st.avail
  {
    var r := FillPass(width, names, all[..n], Ok(st));
    && (r.Ok? ==> Inv(cap, all, width, r.value) && forall i :: 0 <= i < n ==> HasKey(r.value.allocs, all[i].0))
    && (forall k :: r.Ok? && HasKey(st.allocs, k) ==> HasKey(r.value.allocs, k))
    && (r.Err? ==> r.error == AssertionError &&
                   exists i :: 0 <= i < n && !HasKey(st.allocs, all[i].0) && GpusPerReplica(all[i].1) != 1)
    && ((forall i :: 0 <= i < n ==> GpusPerReplica(all[i].1) == 1) ==> r.Ok?)
  }

  lemma FillPassInvStep(cap: map<string, int>, width: int, names: seq<string>,
                        all: seq<(string, JobInfo)>, n: nat, st: Round)
    requires DistinctKeys(all) && 0 < n <= |all|
    requires forall j :: 0 <= j < |names| ==> names[j] in cap
    requires forall j :: 0 <= j < |names| ==> names[j] in st.avail
    requires FillDone(cap, width, names, all, n - 1, st)
    ensures FillDone(cap, width, names, all, n, st)
  {
    FillPassUnfold(width, names, all, n, st);
    var mid := FillPass(width, names, all[..n - 1], Ok(st));
    if mid.Ok? {
      FillStepInv(cap, width, names, all, mid.value, n - 1);
    }
  }

  lemma {:induction false} FillPassInv(cap: map<string, int>, width: int, names: seq<string>,
                                       all: seq<(string, JobInfo)>, n: nat, st: Round)
    requires DistinctKeys(all) && n <= |all|
    requires Inv(cap, all, width, st)
    requires forall j :: 0 <= j < |names| ==> names[j] in cap
    ensures forall j :: 0 <= j < |names| ==> names[j] in st.avail
    ensures FillDone(cap, width, names, all, n, st)
    decreases n
  {
    if n == 0 {
      assert all[..0] == [];
    } else {
      FillPassInv(cap, width, names, all, n - 1, st);
      FillPassInvStep(cap, width, names, all, n, st);
    }
  }

  /** When `optimize` succeeds: exactly when every job asks for one GPU per
      replica and the node template's GPU count is not zero; a `ValueError`
      comes from a previously allocated job that asks for none. */
  lemma OptimizeSucceeds(width: int, jobs: seq<(string, JobInfo)>, nodes: seq<NodeEntry>,
                         prev: Allocation, template: Node)
    requires DistinctKeys(jobs) && DistinctKeys(prev)
    ensures var r := Optimize(width, jobs, nodes, prev, template);
      r.Ok? <==> (forall i :: 0 <= i < |jobs| ==> GpusPerReplica(jobs[i].1) == 1) &&
                 Get(template.resources, GPU, 1) != 0
    ensures var r := Optimize(width, jobs, nodes, prev, template);
      r.Err? && r.error == ValueError ==>
        exists i :: 0 <= i < |prev| && HasKey(jobs, prev[i].0) && GpusPerReplica(Lookup(jobs, prev[i].0)) == 0
  {
    var cap := GpuCapacity(nodes);
    var names := Keys(nodes);
    PreservePassInv(cap, width, jobs, prev);
    var kept := PreservePass(width, jobs, prev, Start(nodes));
    if kept.Ok? {
      FillPassInv(cap, width, names, jobs, |jobs|, kept.value);
      assert jobs[..|jobs|] == jobs;
      var filled := FillPass(width, names, jobs, kept);
      if filled.Ok? {
        forall i | 0 <= i < |jobs| ensures GpusPerReplica(jobs[i].1) == 1 {
          LookupAt(jobs, i);
        }
      }
    } else {
      FillPassErr(width, names, jobs, kept);
    }
  }

  /** What a successful `optimize` allocates: every job, and nothing else,
      has one allocation; no job holds more than `num_gpus_per_job` replicas;
      every replica is on a node of the cluster and no node carries more
      replicas than it has GPUs. */
  lemma OptimizeAllocations(width: int, jobs: seq<(string, JobInfo)>, nodes: seq<NodeEntry>,
                            prev: Allocation, template: Node)
    requires DistinctKeys(jobs) && DistinctKeys(prev)
    ensures var r := Optimize(width, jobs, nodes, prev, template);
      r.Ok? ==> DistinctKeys(r.value.allocations) &&
                forall k :: HasKey(r.value.allocations, k) <==> HasKey(jobs, k)
    ensures var r := Optimize(width, jobs, nodes, prev, template);
      r.Ok? ==> forall i :: 0 <= i < |r.value.allocations| ==> |r.value.allocations[i].1| <= Max(width, 0)
    ensures var r, cap := Optimize(width, jobs, nodes, prev, template), GpuCapacity(nodes);
      r.Ok? ==> (forall n :: n in cap ==> Used(n, r.value.allocations) <= Max(cap[n], 0)) &&
                forall i, x :: 0 <= i < |r.value.allocations| && x in r.value.allocations[i].1 ==> HasKey(nodes, x)
  {
    var cap := GpuCapacity(nodes);
    var names := Keys(nodes);
    PreservePassInv(cap, width, jobs, prev);
    var kept := PreservePass(width, jobs, prev, Start(nodes));
    if kept.Ok? {
      FillPassInv(cap, width, names, jobs, |jobs|, kept.value);
      assert jobs[..|jobs|] == jobs;
      var filled := FillPass(width, names, jobs, kept);
      if filled.Ok? {
        AccountedBounds(cap, filled.value.avail, filled.value.allocs);
        forall k | HasKey(jobs, k) ensures HasKey(filled.value.allocs, k) {
          var i :| 0 <= i < |jobs| && jobs[i].0 == k;
        }
      }
    } else {
      FillPassErr(width, names, jobs, kept);
    }
  }

  /** Previous allocations that are all of the right size, for jobs still
      present, and together fit the cluster, are all kept, and the books then
      account for exactly them. */
  lemma {:induction false} PreservePassKeepsFitting(width: int, jobs: seq<(string, JobInfo)>, cap: map<string, int>,
                                                    prev: Allocation, n: nat)
    requires n <= |prev|
    requires forall j :: 0 <= j < |jobs| ==> GpusPerReplica(jobs[j].1) == 1
    requires forall i :: 0 <= i < |prev| ==> HasKey(jobs, prev[i].0) && |prev[i].1| == width
    requires forall i, x :: 0 <= i < |prev| && x in prev[i].1 ==> x in cap
    requires forall m :: m in cap ==> Used(m, prev) <= cap[m]
    ensures var r := PreservePass(width, jobs, prev[..n], Ok(Round(cap, [])));
      r.Ok? && r.value.allocs == prev[..n] && r.value.avail.Keys == cap.Keys &&
      forall m :: m in cap ==> r.value.avail[m] == cap[m] - Used(m, prev[..n])
    decreases n
  {
    if n > 0 {
      var prev' := prev[..n - 1];
      assert prev[..n][..n - 1] == prev';
      assert prev[..n] == prev' + [prev[n - 1]];
      PreservePassKeepsFitting(width, jobs, cap, prev, n - 1);
      var mid := PreservePass(width, jobs, prev', Ok(Round(cap, [])));
      var (k, p) := prev[n - 1];
      var v := Lookup(jobs, k);
      assert GpusPerReplica(v) == 1;
      forall m | m in p ensures Get(mid.value.avail, m, 0) >= Count(m, p) {
        assert m in cap;
        UsedAppend(m, prev', prev[n - 1]);
        UsedPrefix(m, prev, n);
      }
      assert CanPreserve(mid.value.avail, p);
      forall m | m in cap ensures Deduct(mid.value.avail, p)[m] == cap[m] - Used(m, prev[..n]) {
        UsedAppend(m, prev', prev[n - 1]);
      }
    }
  }

  lemma {:induction false} FillPassExtends(width: int, names: seq<string>, jobs: seq<(string, JobInfo)>, st: Round)
    requires forall i :: 0 <= i < |names| ==> names[i] in st.avail
    ensures var r := FillPass(width, names, jobs, Ok(st));
      r.Ok? ==> |st.allocs| <= |r.value.allocs| && r.value.allocs[..|st.allocs|] == st.allocs
    decreases |jobs|
  {
    if jobs != [] {
      FillPassExtends(width, names, jobs[..|jobs| - 1], st);
    }
  }

  /** Stability: when the previous allocations give every one of their jobs
      (all still present) exactly `num_gpus_per_job` replicas and together fit
      the cluster, a successful `optimize` returns each of them unchanged, in
      order, ahead of the newly filled jobs. */
  lemma OptimizeKeepsFitting(width: int, jobs: seq<(string, JobInfo)>, nodes: seq<NodeEntry>,
                             prev: Allocation, template: Node)
    requires DistinctKeys(jobs) && DistinctKeys(prev)
    requires forall i :: 0 <= i < |prev| ==> HasKey(jobs, prev[i].0) && |prev[i].1| == width
    requires forall i, x :: 0 <= i < |prev| && x in prev[i].1 ==> HasKey(nodes, x)
    requires forall m :: HasKey(nodes, m) ==> Used(m, prev) <= GpuCapacity(nodes)[m]
    ensures var r := Optimize(width, jobs, nodes, prev, template);
      r.Ok? ==> |prev| <= |r.value.allocations| && r.value.allocations[..|prev|] == prev
  {
    var cap := GpuCapacity(nodes);
    var r := Optimize(width, jobs, nodes, prev, template);
    if r.Ok? {
      var names := Keys(nodes);
      var kept := PreservePass(width, jobs, prev, Start(nodes));
      PreservePassKeepsNodes(width, jobs, prev, Start(nodes));
      var filled := FillPass(width, names, jobs, kept);
      if kept.Err? {
        FillPassErr(width, names, jobs, kept);
      }
      OptimizeSucceeds(width, jobs, nodes, prev, template);
      PreservePassKeepsFitting(width, jobs, cap, prev, |prev|);
      assert prev[..|prev|] == prev;
      FillPassExtends(width, names, jobs, kept.value);
    }
  }

  /* ---------- the method ---------- */

  /** One iteration of the first-pass loop, from the state `st` it finds. */
  method PreserveEntry(width: int, jobs: seq<(string, JobInfo)>, st: Round, key: string, p: seq<string>)
    returns (r: Result<Round>)
    ensures r == PreserveStep(width, jobs, Ok(st), (key, p))
  {
    r := Ok(st);
    if !HasKey(jobs, key) {
      return;
    }
    var gpr := GpusPerReplica(Lookup(jobs, key));
    if gpr == 0 {
      return Err(ValueError);
    }
    if gpr != 1 {
      return Err(AssertionError);
    }
    if |p| * gpr != width {
      return;
    }
    var onNode := ReplicaCounts(p);
    var canPreserve := CheckCapacity(st.avail, p, onNode, gpr);
    if canPreserve {
      CanPreserveKnownNodes(st.avail, p);
      var avail := DeductReplicas(st.avail, p, gpr);
      r := Ok(Round(avail, st.allocs + [(key, p)]));
    }
  }

  /** `replicas_on_nodes_map`: how many replicas of `p` each node holds. */
  method ReplicaCounts(p: seq<string>) returns (onNode: map<string, int>)
    ensures forall n :: n in onNode <==> n in p
    ensures forall n :: n in onNode ==> onNode[n] == Count(n, p)
  {
    onNode := map[];
    for j := 0 to |p|
      invariant forall n :: n in onNode <==> n in p[..j]
      invariant forall n :: n in onNode ==> onNode[n] == Count(n, p[..j])
    {
      assert p[..j + 1][..j] == p[..j];
      CountPositive(p[j], p[..j]);
      onNode := onNode[p[j] := Get(onNode, p[j], 0) + 1];
    }
    assert p[..|p|] == p;
  }

  /** The `can_preserve` loop, with one GPU per replica. */
  method CheckCapacity(avail: map<string, int>, p: seq<string>, onNode: map<string, int>, gpr: int)
    returns (canPreserve: bool)
    requires gpr == 1
    requires forall n :: n in onNode <==> n in p
    requires forall n :: n in onNode ==> onNode[n] == Count(n, p)
    ensures canPreserve <==> CanPreserve(avail, p)
  {
    canPreserve := true;
    var j := 0;
    while j < |p| && canPreserve
      invariant 0 <= j <= |p|
      invariant canPreserve <==> forall m :: 0 <= m < j ==> Get(avail, p[m], 0) >= Count(p[m], p)
    {
      if Get(avail, p[j], 0) < onNode[p[j]] * gpr {
        canPreserve := false;
      }
      j := j + 1;
    }
  }

  /** The deduction loop: one GPU per replica of `p` off its node. */
  method DeductReplicas(avail: map<string, int>, p: seq<string>, gpr: int) returns (residual: map<string, int>)
    requires gpr == 1
    requires forall n :: n in p ==> n in avail
    ensures residual == Deduct(avail, p)
  {
    residual := avail;
    for j := 0 to |p|
      invariant residual.Keys == avail.Keys
      invariant forall n :: n in avail ==> residual[n] == avail[n] - Count(n, p[..j])
    {
      assert p[..j + 1] == p[..j] + [p[j]];
      forall n | n in avail ensures Count(n, p[..j + 1]) == Count(n, p[..j]) + if n == p[j] then 1 else 0 {
        CountAppend(n, p[..j], [p[j]]);
      }
      residual := residual[p[j] := residual[p[j]] - gpr];
    }
    assert p[..|p|] == p;
  }

  /** One iteration of the second-pass loop, from the state `st` it finds. */
  method FillEntry(width: int, names: seq<string>, st: Round, key: string, job: JobInfo)
    returns (r: Result<Round>)
    requires forall i :: 0 <= i < |names| ==> names[i] in st.avail
    ensures r == FillStep(width, names, Ok(st), (key, job))
  {
    if HasKey(st.allocs, key) {
      return Ok(st);
    }
    var gpr := GpusPerReplica(job);
    if gpr != 1 {
      return Err(AssertionError);
    }
    var current, residual := FillJob(names, st.avail, FloorDiv(width, gpr));
    r := Ok(Round(residual, st.allocs + [(key, current)]));
  }

  /** `DummyPolicy.optimize`, step by step as the source does it. */
  method OptimizeRound(width: int, jobs: seq<(string, JobInfo)>, nodes: seq<NodeEntry>,
                       prev: Allocation, template: Node) returns (r: Result<Decision>)
    ensures r == Optimize(width, jobs, nodes, prev, template)
  {
    var names := Keys(nodes);
    var st := Round(GpuCapacity(nodes), []);
    ghost var start := Start(nodes);
    // First pass: keep previous allocations of the right size that still fit.
    for i := 0 to |prev|
      invariant PreservePass(width, jobs, prev[..i], start) == Ok(st)
    {
      assert prev[..i + 1][..i] == prev[..i];
      var next := PreserveEntry(width, jobs, st, prev[i].0, prev[i].1);
      if next.Err? {
        PreservePassStops(width, jobs, prev, i + 1, start);
        FillPassErr(width, names, jobs, PreservePass(width, jobs, prev, start));
        return Err(next.error);
      }
      st := next.value;
    }
    assert prev[..|prev|] == prev;
    ghost var kept := PreservePass(width, jobs, prev, start);
    PreservePassKeepsNodes(width, jobs, prev, start);
    // Second pass: fill every job not yet allocated.
    for i := 0 to |jobs|
      invariant FillPass(width, names, jobs[..i], kept) == Ok(st)
      invariant st.avail.Keys == GpuCapacity(nodes).Keys
    {
      assert jobs[..i + 1][..i] == jobs[..i];
      var next := FillEntry(width, names, st, jobs[i].0, jobs[i].1);
      if next.Err? {
        FillPassStops(width, names, jobs, i + 1, kept);
        return Err(next.error);
      }
      st := next.value;
    }
    assert jobs[..|jobs|] == jobs;
    var perNode := Get(template.resources, GPU, 1);
    if perNode == 0 {
      return Err(ZeroDivisionError);
    }
    r := Ok(Decision(st.allocs, CeilDiv(|jobs| * width, perNode)));
  }
}
