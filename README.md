# AdaptDL scheduler core in Dafny

This project models five sequential pieces of the AdaptDL-based cluster scheduler and proves properties of them:

- **DummyPolicy** (`dummy_policy.dfy`). Every job gets the same number of GPUs. A previous allocation of that size is kept when the residual GPUs still cover it. Every other job is filled greedily, node by node.
- **FixedWidthPolicy** (`fixed_width_policy.dfy`). Every job gets `width[application][epoch]` GPUs. A previous allocation of that size is kept without any capacity check.
- **Shared placement routines** (`cluster.dfy`). These are the node order of `_sort_nodes`, the single-node first-fit of `allocate_job`, the `available_gpus` table and the greedy fill loop. Both policy files contain the same text for them, so the model defines them once.
- **GlobalProfileState** (`profile_state.dfy`). It holds per-application streaming sums and counts of step times, keyed by `(num_nodes, num_replicas, atomic_bsz)`. It also holds the parameters fitted from them and a refit gate that opens after 300 seconds. It is a class whose methods update its fields in place.
- **WidthCalculator** (`width_calculator.dfy`). One poll merges the profile and goodput hints of the active jobs into two tables, keyed by application, epoch and configuration. A counter triggers the width computation on every 30th poll. It is a class whose methods update its two tables in place.
- **process_log_file** (`process_monitor.dfy`). It rebuilds, line by line from the monitor log, each job's arrival time and per-epoch GPU counts, start times and completion times. When a job jumps several epochs, the elapsed time is spread evenly over the epochs skipped.

`common.dfy` holds shared definitions:

- `Option` and `Result`, and the Python exceptions the code raises.
- Python's `//` and an exact integer ceiling division.
- Ordered dictionaries as association lists with distinct keys. The policies depend on dict insertion order.

Each imperative loop of the source is modelled twice:

- a `method` with a `while`/`for` loop and its invariants;
- a function that states the loop's result, which the method's `ensures` equates it with.

The properties the source promises are proved about those functions.

The model follows the code where the design description says otherwise:

- A job without an epoch makes `_update_job_data` raise `ValueError`, and nothing in `run` catches it. The description says the poll continues with the other jobs. Here the poll stops, the merges of the earlier jobs stay, and `Run` ends.
- The poll-driven profile merge sums only the three optimisation fields. It does not follow the accumulation rules of `update_profile`.
- A job whose GPU request per replica is not 1, or whose width is missing, makes the whole `optimize` call raise. It does not fail only that job.
- A hint entry that lacks a field raises `KeyError` after the fields before it were already added to the table. Those changes stay.

## Model

| member | source | states |
|---|---|---|
| Common.FloorDiv | sched/adaptdl_sched/policy/dummy.py:24-25 | Python's `//`: the quotient rounded towards minus infinity, for either sign of divisor |
| Common.CeilDiv | sched/adaptdl_sched/policy/dummy.py:107-109 | `math.ceil(a / b)` on integers: the least `q` with `a <= b * q` for a positive divisor (and the mirror for a negative one) |
| Common.Repeat | sched/adaptdl_sched/policy/dummy.py:27 | `[x] * n` has `max(n, 0)` elements, all `x` |
| Cluster.SortNodes | sched/adaptdl_sched/policy/dummy.py:32-35 | `_sort_nodes` returns a permutation of the nodes, sorted by the key `(preemptible, name)` |
| Cluster.SortNodesOrder | sched/adaptdl_sched/policy/dummy.py:32-35 | the result is a permutation of the nodes; every non-preemptible node precedes every preemptible one; within a group names ascend strictly |
| Cluster.StrLessTotal | sched/adaptdl_sched/policy/dummy.py:34-35 | Python string order on distinct names is total (it is also irreflexive and transitive: `StrLessIrreflexive`, `StrLessTransitive`) |
| Cluster.InsertSorted | sched/adaptdl_sched/policy/dummy.py:33-35 | inserting a node into a sorted list keeps it sorted |
| Cluster.SortNodesDistinct | sched/adaptdl_sched/policy/dummy.py:33-35 | sorting keeps node names distinct |
| Cluster.FirstFitFrom | sched/adaptdl_sched/policy/dummy.py:22-28 | the index found is the first node, from `i` on, where every requested resource has quotient at least `m`; every earlier node fails; no index means no node fits |
| Cluster.AllocateJob | sched/adaptdl_sched/policy/dummy.py:14-30 | `allocate_job` returns `[]` or `max(min_replicas, 1)` copies of the first node, in sorted order, that fits that many replicas, and every earlier node does not fit; `[]` only when no node fits; `ValueError` for an empty request and `ZeroDivisionError` for a zero request, both only when there is a node |
| Cluster.FitsIffReplicas | sched/adaptdl_sched/policy/dummy.py:24-26 | the per-resource test equals `min(... // val) >= min_replicas`, Python's minimum over the request |
| Cluster.GpuCapacity | sched/adaptdl_sched/policy/dummy.py:45-46 | `available_gpus` has exactly the node names as keys |
| Cluster.GpuCapacityAt | sched/adaptdl_sched/policy/dummy.py:45-46 | with distinct node names, each node's entry is its advertised GPU count (0 when absent) |
| Cluster.FillJob | sched/adaptdl_sched/policy/dummy.py:95-100 | the nested fill loop computes `Fill` over the nodes in `available_gpus` order |
| Cluster.TakeFrom | sched/adaptdl_sched/policy/dummy.py:96-100 | the inner loop on one node appends `Take` replicas on it and takes exactly that many GPUs off it, no other node changing |
| Cluster.FillLength | sched/adaptdl_sched/policy/dummy.py:97 | a fill never gives a job more replicas than it wants |
| Cluster.FillConserves | sched/adaptdl_sched/policy/dummy.py:96-100 | each node's residual drops by exactly the replicas placed on it; only listed nodes are used, and none of them goes negative |
| Cluster.FillShortExhausts | sched/adaptdl_sched/policy/dummy.py:97-104 | a job left short of its want has exhausted every node |
| Cluster.FillRuns | sched/adaptdl_sched/policy/fixed_width.py:84-88 | a fill's list is contiguous runs of node names in `available_gpus` insertion order |
| Cluster.RunsExtend | sched/adaptdl_sched/policy/fixed_width.py:84-88 | appending replicas on the last listed node keeps the replicas in list order |
| Cluster.Deduct | sched/adaptdl_sched/policy/dummy.py:82-83 | deducting a list takes from each node exactly its number of occurrences |
| Cluster.AccountedAppend | sched/adaptdl_sched/policy/dummy.py:80-83 | adding an allocation whose nodes stay non-negative keeps the GPU books balanced |
| Cluster.AccountedBounds | sched/adaptdl_sched/policy/dummy.py:73-83 | under balanced books no node carries more replicas than its GPU count |
| DummyPolicy.Optimize | sched/adaptdl_sched/policy/dummy.py:37-111 | on success, `desired_nodes` is the least count whose template GPUs cover `len(jobs) * num_gpus_per_job` |
| DummyPolicy.CanPreserveKnownNodes | sched/adaptdl_sched/policy/dummy.py:73-77 | a previous allocation that passes the capacity check names only known nodes |
| DummyPolicy.FillPass | sched/adaptdl_sched/policy/dummy.py:86-104 | the second pass keeps the node set of `available_gpus` |
| DummyPolicy.PreservePassKeepsNodes | sched/adaptdl_sched/policy/dummy.py:49-83 | the first pass keeps the node set of `available_gpus` |
| DummyPolicy.PreservePassStops | sched/adaptdl_sched/policy/dummy.py:55-58 | after an exception in the first pass no later previous allocation is looked at |
| DummyPolicy.FillPassStops | sched/adaptdl_sched/policy/dummy.py:91 | after an exception in the second pass no later job is looked at |
| DummyPolicy.PreserveStepInv | sched/adaptdl_sched/policy/dummy.py:49-83 | one first-pass step keeps the invariant (books balance, no node oversubscribed, one allocation per job, at most `num_gpus_per_job` replicas per job); a previous job still present is kept, verbatim, iff its length equals `num_gpus_per_job` and the residual GPUs at that point cover its replicas on every node, and otherwise the round is unchanged; the step raises iff the job is present and asks for other than 1 GPU per replica (`ValueError` for 0, otherwise `AssertionError`) |
| DummyPolicy.PreservePassInv | sched/adaptdl_sched/policy/dummy.py:49-83 | the first pass keeps the invariant; every kept entry is an entry of `prev_allocations` of exactly `num_gpus_per_job` replicas; it raises iff some previous job still present asks for other than 1 GPU per replica, and the error is that job's (`ValueError` for 0, otherwise `AssertionError`) |
| DummyPolicy.FillStepInv | sched/adaptdl_sched/policy/dummy.py:86-102 | one second-pass step keeps the invariant and allocates its job; it raises `AssertionError` exactly for an unkept job asking for other than 1 GPU per replica |
| DummyPolicy.FillPassInv | sched/adaptdl_sched/policy/dummy.py:86-102 | the second pass keeps the invariant and allocates every job, or fails with `AssertionError` at such a job |
| DummyPolicy.OptimizeSucceeds | sched/adaptdl_sched/policy/dummy.py:55-109 | `optimize` succeeds iff every job asks for 1 GPU per replica and the template's GPU count is not 0; `ValueError` comes only from a previously allocated job asking for 0 |
| DummyPolicy.OptimizeAllocations | sched/adaptdl_sched/policy/dummy.py:43-102 | the output has exactly the keys of `jobs`, once each (vanished jobs dropped); no job has more than `num_gpus_per_job` replicas; every replica is on a cluster node; no node carries more replicas than its GPUs |
| DummyPolicy.PreservePassKeepsFitting | sched/adaptdl_sched/policy/dummy.py:61-83 | previous allocations of the right size that together fit are all kept, and the residual is the capacity minus them |
| DummyPolicy.FillPassExtends | sched/adaptdl_sched/policy/dummy.py:86-102 | the second pass only appends allocations |
| DummyPolicy.OptimizeKeepsFitting | sched/adaptdl_sched/policy/dummy.py:49-102 | when all previous allocations are of the right size and fit, `optimize` returns them unchanged, first and in order |
| DummyPolicy.PreserveEntry | sched/adaptdl_sched/policy/dummy.py:50-83 | one iteration of the first-pass loop computes `PreserveStep` |
| DummyPolicy.ReplicaCounts | sched/adaptdl_sched/policy/dummy.py:67-70 | `replicas_on_nodes_map` maps exactly the nodes of the allocation to their multiplicity |
| DummyPolicy.CheckCapacity | sched/adaptdl_sched/policy/dummy.py:65-77 | `can_preserve` is true iff every node has residual at least its replica count |
| DummyPolicy.DeductReplicas | sched/adaptdl_sched/policy/dummy.py:82-83 | the deduction loop computes `Deduct` |
| DummyPolicy.FillEntry | sched/adaptdl_sched/policy/dummy.py:87-102 | one iteration of the second-pass loop computes `FillStep` |
| DummyPolicy.OptimizeRound | sched/adaptdl_sched/policy/dummy.py:37-111 | the imperative `optimize` computes `Optimize` |
| FixedWidthPolicy.Wanted | sched/adaptdl_sched/policy/fixed_width.py:63 | the width lookup succeeds iff the table has the application and epoch; otherwise `KeyError` |
| FixedWidthPolicy.FillPass | sched/adaptdl_sched/policy/fixed_width.py:74-93 | the second pass keeps the node set of `available_gpus` |
| FixedWidthPolicy.PreservePassKeepsNodes | sched/adaptdl_sched/policy/fixed_width.py:53-71 | the first pass keeps the node set of `available_gpus` |
| FixedWidthPolicy.PreservePassOk | sched/adaptdl_sched/policy/fixed_width.py:53-71 | the first pass succeeds iff every present previous job asks for 1 GPU per replica and has a width, and every kept allocation names only known nodes |
| FixedWidthPolicy.PreservePassError | sched/adaptdl_sched/policy/fixed_width.py:57-70 | a failing first pass raises at the first previous job that misses those conditions: `AssertionError` when it asks for other than 1 GPU per replica, `KeyError` when it has no width or a kept replica on a node missing from `nodes` |
| FixedWidthPolicy.PreservePassState | sched/adaptdl_sched/policy/fixed_width.py:66-71 | the first pass keeps exactly the allocations whose size equals the width; each residual is capacity minus kept replicas, possibly negative; the total is the sum of the kept widths |
| FixedWidthPolicy.PreservePassStops | sched/adaptdl_sched/policy/fixed_width.py:57-63 | after an exception in the first pass nothing later is looked at |
| FixedWidthPolicy.KeptFacts | sched/adaptdl_sched/policy/fixed_width.py:53-70 | kept allocations are previous ones, for distinct present jobs, each exactly its width, on cluster nodes |
| FixedWidthPolicy.JobsWidthByKeys | sched/adaptdl_sched/policy/fixed_width.py:71-91 | summing widths by job key equals summing over the jobs |
| FixedWidthPolicy.FillStepErr | sched/adaptdl_sched/policy/fixed_width.py:75-81 | a second-pass step raises iff its job is unkept and asks for other than 1 GPU per replica (`AssertionError`) or has no width (`KeyError`) |
| FixedWidthPolicy.FillStepInv | sched/adaptdl_sched/policy/fixed_width.py:74-91 | one second-pass step keeps the fill invariant and allocates its job |
| FixedWidthPolicy.FillPassInv | sched/adaptdl_sched/policy/fixed_width.py:74-91 | the second pass keeps the invariant and allocates every job: kept in front, fills within residual, at most the width, total is the sum of widths |
| FixedWidthPolicy.FillPassOk | sched/adaptdl_sched/policy/fixed_width.py:78-81 | the second pass fails only at a job it cannot handle, with that job's exception, and succeeds when it can handle all |
| FixedWidthPolicy.FillPassStops | sched/adaptdl_sched/policy/fixed_width.py:78-81 | after an exception in the second pass no later job is looked at |
| FixedWidthPolicy.FirstPassReady | sched/adaptdl_sched/policy/fixed_width.py:53-71 | a successful first pass establishes the second pass's invariant |
| FixedWidthPolicy.OptimizeUnfold | sched/adaptdl_sched/policy/fixed_width.py:41-97 | a successful `optimize` returns the second pass's allocations and the ceiling of its total over the template GPUs |
| FixedWidthPolicy.BothPasses | sched/adaptdl_sched/policy/fixed_width.py:47-93 | after both passes every job is allocated, the kept ones first and unchanged, with the first-pass books |
| FixedWidthPolicy.OptimizeSucceeds | sched/adaptdl_sched/policy/fixed_width.py:57-95 | `optimize` succeeds iff every job asks for 1 GPU per replica and has a width, every kept allocation names only cluster nodes, and the template GPU count is not 0 |
| FixedWidthPolicy.OptimizeErrors | sched/adaptdl_sched/policy/fixed_width.py:59-95 | a failing `optimize` raises `AssertionError`, `KeyError` or `ZeroDivisionError` and nothing else: `AssertionError` only when some job asks for other than 1 GPU per replica, `KeyError` only when some job has no width or a kept previous allocation names a node the cluster lacks, `ZeroDivisionError` only for a template with 0 GPUs |
| FixedWidthPolicy.OptimizeAllocations | sched/adaptdl_sched/policy/fixed_width.py:47-93 | the output has exactly the keys of `jobs`, once each; the kept previous allocations come first, unchanged; no job exceeds its width; every replica is on a cluster node |
| FixedWidthPolicy.OptimizeFillsWithinResidual | sched/adaptdl_sched/policy/fixed_width.py:81-93 | the fill pass never places more on a node than the kept allocations left there |
| FixedWidthPolicy.OptimizeDesiredNodes | sched/adaptdl_sched/policy/fixed_width.py:51-95 | `desired_nodes` is the ceiling of the sum of all jobs' widths over the template GPUs; each job is counted once |
| FixedWidthPolicy.KeptMayOversubscribe | sched/adaptdl_sched/policy/fixed_width.py:66-70 | a kept allocation can oversubscribe a node: a node reporting no GPU keeps a one-replica job |
| FixedWidthPolicy.PreserveEntry | sched/adaptdl_sched/policy/fixed_width.py:54-71 | one iteration of the first-pass loop computes `PreserveStep` |
| FixedWidthPolicy.DeductEach | sched/adaptdl_sched/policy/fixed_width.py:68-70 | the deduction loop finishes iff every node of the allocation is in `available_gpus`, and then computes `Deduct`; otherwise it raises `KeyError` |
| FixedWidthPolicy.FillEntry | sched/adaptdl_sched/policy/fixed_width.py:75-91 | one iteration of the second-pass loop computes `FillStep` |
| FixedWidthPolicy.KeepPrevious | sched/adaptdl_sched/policy/fixed_width.py:49-71 | the first-pass loop computes `PreservePass` |
| FixedWidthPolicy.FillRemaining | sched/adaptdl_sched/policy/fixed_width.py:74-93 | the second-pass loop computes `FillPass` |
| FixedWidthPolicy.OptimizeRound | sched/adaptdl_sched/policy/fixed_width.py:41-97 | the imperative `optimize` computes `Optimize` |
| ProfileState.WithProfileFacts | sched/adaptdl_sched/global_profile_state.py:22-36 | an all-zero record is created only where none was; an existing one is returned and the table is unchanged; no other record changes |
| ProfileState.KeyOf | sched/adaptdl_sched/global_profile_state.py:47 | the key exists iff all three fields are present; otherwise `KeyError` |
| ProfileState.UpdateFacts | sched/adaptdl_sched/global_profile_state.py:47-56 | `update_profile` fails iff a key field is missing. Otherwise only that record changes. An accumulation step adds its step time and 1 to the accum fields; any other step adds its step and sync times and 1 to the optim fields; the other fields stay |
| ProfileState.UpdateValid | sched/adaptdl_sched/global_profile_state.py:50-56 | updates keep every count non-negative |
| ProfileState.ReplayCounts | sched/adaptdl_sched/global_profile_state.py:50-56 | `accum_count + optim_count` grows by exactly the number of updates for that configuration |
| ProfileState.ApplyFind | sched/adaptdl_sched/global_profile_state.py:47-56 | an update changes only the record it targets |
| ProfileState.ApplyCommutes | sched/adaptdl_sched/global_profile_state.py:50-56 | two updates commute |
| ProfileState.ReplayPermutation | sched/adaptdl_sched/global_profile_state.py:50-56 | any reordering of the updates gives the same tables |
| ProfileState.Observed | sched/adaptdl_sched/global_profile_state.py:73 | the filter keeps exactly the configurations with `optim_count > 0`, unchanged |
| ProfileState.FitInput | sched/adaptdl_sched/global_profile_state.py:79-98 | the fit input has exactly the kept configurations |
| ProfileState.RefitFacts | sched/adaptdl_sched/global_profile_state.py:59-106 | parameters are unchanged when the application has no table, no optimisation step, a key whose sync exceeds step time, or the fit raises. Otherwise the fit receives the two averages, with positive denominators, and its result replaces the application's parameters. Other applications never change |
| ProfileState.RefitAllFacts | sched/adaptdl_sched/global_profile_state.py:118-123 | every application with a table is refit as the single-application fit would; other parameters stay |
| ProfileState.RefitSomeStep | sched/adaptdl_sched/global_profile_state.py:122-123 | refitting one more application is one more single-application fit |
| ProfileState.GlobalProfileState.constructor | sched/adaptdl_sched/global_profile_state.py:13-20 | empty tables, no parameters, last fit time is the creation time |
| ProfileState.GlobalProfileState.GetOrCreateProfile | sched/adaptdl_sched/global_profile_state.py:22-36 | the tables become `WithProfile`, the returned record is the existing one or zeros, and nothing else changes |
| ProfileState.GlobalProfileState.UpdateProfile | sched/adaptdl_sched/global_profile_state.py:38-56 | the result is the key or `KeyError`; the tables become `Apply` of that update; parameters and fit time are unchanged |
| ProfileState.GlobalProfileState.AddStep | sched/adaptdl_sched/global_profile_state.py:50-56 | the in-place additions to one record compute `Step` |
| ProfileState.GlobalProfileState.FitForApplication | sched/adaptdl_sched/global_profile_state.py:59-106 | parameters become `Refit`; the profiles are never modified |
| ProfileState.GlobalProfileState.FitAll | sched/adaptdl_sched/global_profile_state.py:108-124 | parameters become `RefitAll`; profiles unchanged; last fit time is now, whatever the fits did; afterwards the strict 300-second gate of `should_fit_perf_params` is shut at every time up to and including `now + 300` and open at every later time |
| ProfileState.GlobalProfileState.FitEach | sched/adaptdl_sched/global_profile_state.py:122-123 | the loop over applications leaves the parameters `RefitAll` computes, and changes neither the profiles nor the fit time |
| WidthCalc.StopFoldStops | sched/adaptdl_sched/width_calculator.py:56-62 | once a loop body raises, nothing later in the list is processed |
| WidthCalc.StopFoldOk | sched/adaptdl_sched/width_calculator.py:56-100 | a loop whose body raises depending only on the element finishes iff no element makes it raise |
| WidthCalc.StopFoldKeeps | sched/adaptdl_sched/width_calculator.py:56-100 | a property every step preserves holds after the loop |
| WidthCalc.WithLevelFacts | sched/adaptdl_sched/width_calculator.py:66-89 | creating `table[app][epoch]` and writing it changes only that level and creates only it |
| WidthCalc.MergeProfileEntry | sched/adaptdl_sched/width_calculator.py:71-82 | a new key gets a copy of the three optim fields, an existing one the field-wise sum; it raises `KeyError` iff a field is missing; other keys never change |
| WidthCalc.MergeGoodputEntry | sched/adaptdl_sched/width_calculator.py:91-100 | the latest goodput wins and counts add; it raises `KeyError` iff a field is missing; other keys never change |
| WidthCalc.ProfileHintElsewhere | sched/adaptdl_sched/width_calculator.py:71-82 | keys a profile hint does not name keep their entries |
| WidthCalc.GoodputHintElsewhere | sched/adaptdl_sched/width_calculator.py:91-100 | keys a goodput hint does not name keep their entries |
| WidthCalc.AppOf | sched/adaptdl_sched/width_calculator.py:60 | the application is the longest prefix of the name without `-`: the whole name when there is none |
| WidthCalc.ActiveJobs | sched/adaptdl_sched/width_calculator.py:48-51 | exactly the jobs whose phase is Pending, Running, Starting or Stopping are merged |
| WidthCalc.FilterActive | sched/adaptdl_sched/width_calculator.py:48-51 | the filter loop computes `ActiveJobs` |
| WidthCalc.MergeJobErrors | sched/adaptdl_sched/width_calculator.py:56-100 | a job raises `ValueError` iff it has no epoch, and then changes nothing; otherwise it raises only for an incomplete hint entry |
| WidthCalc.ProfileErrorIsKeyError | sched/adaptdl_sched/width_calculator.py:71-82 | a profile hint can raise only `KeyError` |
| WidthCalc.GoodputErrorIsKeyError | sched/adaptdl_sched/width_calculator.py:91-100 | a goodput hint can raise only `KeyError` |
| WidthCalc.MergeJobScope | sched/adaptdl_sched/width_calculator.py:64-100 | a job changes only its own application and epoch levels; a hint creates its level even when empty; keys its hints do not name stay |
| WidthCalc.MissingEpochStops | sched/adaptdl_sched/width_calculator.py:56-62 | the first active job without an epoch raises `ValueError`; earlier merges persist; later jobs are not merged |
| WidthCalc.PollOk | sched/adaptdl_sched/width_calculator.py:48-100 | a poll finishes iff every active job has an epoch and complete hint entries |
| WidthCalc.PollElsewhere | sched/adaptdl_sched/width_calculator.py:56-100 | a level no active job names is unchanged by the poll |
| WidthCalc.Tick | sched/adaptdl_sched/width_calculator.py:32-35 | one turn increments the counter and computes iff the result is a multiple of 30, then resets to 0 |
| WidthCalc.CounterFacts | sched/adaptdl_sched/width_calculator.py:29-35 | after `n` polls the counter is `n % 30`, within 0..29; the compute step runs on poll `n` iff `n` is a multiple of 30 |
| WidthCalc.WidthCalculator.constructor | sched/adaptdl_sched/width_calculator.py:16-22 | both tables start empty |
| WidthCalc.WidthCalculator.UpdateJobData | sched/adaptdl_sched/width_calculator.py:38-100 | the tables and the exception are those of `Poll`: a failed listing changes nothing; active jobs merge in order until one raises |
| WidthCalc.WidthCalculator.MergeEach | sched/adaptdl_sched/width_calculator.py:56-100 | the merge loop computes `StopFold` of `MergeJob` over the active jobs: it stops at the first job that raises |
| WidthCalc.WidthCalculator.MergeJobInto | sched/adaptdl_sched/width_calculator.py:57-100 | merging one job in place computes `MergeJob` |
| WidthCalc.WidthCalculator.MergeProfileLevel | sched/adaptdl_sched/width_calculator.py:65-82 | a profile hint merged in place computes `MergeLevel`; the goodput table is untouched |
| WidthCalc.WidthCalculator.MergeGoodputLevel | sched/adaptdl_sched/width_calculator.py:85-100 | a goodput hint merged in place computes `MergeLevel`; the profile table is untouched |
| WidthCalc.WidthCalculator.MergeProfileHint | sched/adaptdl_sched/width_calculator.py:71-82 | the entry loop writes the level `StopFold` computes |
| WidthCalc.WidthCalculator.MergeGoodputHint | sched/adaptdl_sched/width_calculator.py:91-100 | the entry loop writes the level `StopFold` computes |
| WidthCalc.WidthCalculator.Run | sched/adaptdl_sched/width_calculator.py:24-36 | over successive listings the tables follow the polls until one raises; the counter is polls mod 30 (0..29); widths are computed `polls / 30` times |
| WidthCalc.WidthCalculator.RunTurn | sched/adaptdl_sched/width_calculator.py:31-35 | one turn polls as `Poll` does, and then advances the counter as `Tick` does; a poll that raises leaves the counter |
| ProcessMonitor.ObserveJob | our_utils/process_monitor.py:16-72 | one job entry keeps the monitor invariant: every job has a current epoch with an entry, and every `num_gpu` list is duplicate-free |
| ProcessMonitor.ProcessLine | our_utils/process_monitor.py:11-77 | a line keeps the invariant; an unreadable line changes nothing |
| ProcessMonitor.ProcessLines | our_utils/process_monitor.py:5-79 | the invariant holds after any sequence of lines |
| ProcessMonitor.NoteValid | our_utils/process_monitor.py:23-41 | creating a job and epoch and appending a GPU count keeps every list duplicate-free |
| ProcessMonitor.AdvanceValid | our_utils/process_monitor.py:50-72 | an advance keeps the invariant; gap epochs reuse the current epoch's list |
| ProcessMonitor.FillToFrame | our_utils/process_monitor.py:56-67 | the fill loop changes only this job's epoch entries, adds no list, keeps existing epochs' list ids, and gives new epochs the current epoch's list |
| ProcessMonitor.NoteFrame | our_utils/process_monitor.py:23-41 | sighting and noting add this job's epoch entry and change no other job, no arrival and no existing epoch entry |
| ProcessMonitor.ObserveJobArrival | our_utils/process_monitor.py:23-28 | a known job keeps its arrival; a job seen for the first time arrives at the line's timestamp with its epoch as current |
| ProcessMonitor.ObserveAllArrival | our_utils/process_monitor.py:16-28 | a whole line keeps every known arrival |
| ProcessMonitor.ArrivalStable | our_utils/process_monitor.py:23-28 | later lines never change an arrival time |
| ProcessMonitor.ObserveJobNewEpoch | our_utils/process_monitor.py:31-36 | a first-seen epoch gets a fresh list `[len(allocation)]`, no completion and the line's timestamp as start, and the same step never overwrites them |
| ProcessMonitor.NoteKnownEpoch | our_utils/process_monitor.py:37-41 | a known epoch's list gets the count appended only if absent, and that shared list is the one changed |
| ProcessMonitor.WriteEpochFacts | our_utils/process_monitor.py:57-67 | one turn writes epoch `t` alone and succeeds iff `t` is the current epoch or has no entry yet: the current epoch gets its completion; a new gap epoch gets the shared list, the completion and its start; an existing gap epoch raises `AssertionError` |
| ProcessMonitor.FillToError | our_utils/process_monitor.py:56-67 | the fill loop can raise only `AssertionError` |
| ProcessMonitor.FillToOk | our_utils/process_monitor.py:56-67 | the fill loop over `[cur, cur + k)` runs to the end iff no gap epoch after `cur` already has an entry |
| ProcessMonitor.FillToDone | our_utils/process_monitor.py:56-67 | after the loop every visited epoch has completion `per` and the current epoch's list; gap epochs were new and start at `start + (t - cur) * per` |
| ProcessMonitor.TotalOfEqualShares | our_utils/process_monitor.py:53-59 | `k` equal shares of `per` add up to `k * per` |
| ProcessMonitor.AdvanceForward | our_utils/process_monitor.py:50-72 | moving from `cur` to a later epoch succeeds iff no gap epoch in `(cur, epoch)` has an entry yet, and otherwise raises `AssertionError`; on success every epoch in `[cur, epoch)` gets the same share, adding up to exactly `timestamp - start`, and `epoch` becomes current |
| ProcessMonitor.ObserveJobAdvance | our_utils/process_monitor.py:43-72 | a job entry with a later epoch succeeds iff no gap epoch in `(cur, epoch)` already has an entry, and then spreads the time since the current epoch started evenly over `[cur, epoch)`. The shares add up to that time. Gap epochs are new, share `cur`'s list and start where the earlier shares end, and `epoch` becomes current. Otherwise it raises `AssertionError` |
| ProcessMonitor.ObserveJobZeroDivision | our_utils/process_monitor.py:46-53 | a completion reported at the current epoch raises `ZeroDivisionError` after the sighting and noting, with the current epoch unchanged |
| ProcessMonitor.ObserveJobBackward | our_utils/process_monitor.py:46-72 | a completion at an earlier epoch fills nothing and moves the current epoch back |
| ProcessMonitor.ObserveAllStops | our_utils/process_monitor.py:12-77 | after an exception the rest of the line is skipped and what it changed is kept |
| ProcessMonitor.FillEpochs | our_utils/process_monitor.py:56-67 | the `for t_epoch` loop computes `FillTo` |
| ProcessMonitor.ObserveJobStep | our_utils/process_monitor.py:16-72 | the step-by-step body of the job loop computes `ObserveJob` |
| ProcessMonitor.NoteStep | our_utils/process_monitor.py:30-41 | the epoch bookkeeping of one entry computes `Note` |
| ProcessMonitor.AdvanceStep | our_utils/process_monitor.py:49-72 | the epoch fill and the move of the current epoch compute `Advance` |
| ProcessMonitor.ObserveLine | our_utils/process_monitor.py:16-72 | the loop over one line's jobs computes `ObserveAll` |
| ProcessMonitor.ProcessLogFile | our_utils/process_monitor.py:5-79 | the line loop computes `ProcessLines`: the jobs and their `num_gpu` lists |

## Left out

- File, JSON and Kubernetes I/O, logging, `print` and `asyncio.sleep`. A log line arrives already decoded (`Unparsable` for a line that is not JSON or lacks `timestamp`/`submitted_jobs`, `Malformed` for a job entry lacking a field). A job listing arrives already fetched (`None` when listing failed).
- Clocks: `time.time()` becomes a `now` parameter. `datetime.fromtimestamp` is left out; the arrival time is the raw timestamp.
- Floating point: times are `real`, GPU counts are integers, and `math.ceil(a / b)` is exact integer ceiling division. Rounding and `inf`/`nan` are not modelled.
- `fit_perf_params` is an external numerical fit, so it is a function parameter returning a result or an exception. Its input is a map from configuration to the two averages rather than five parallel numpy arrays.
- `GlobalProfileState.save`/`load` and the checkpoint base class `State` (pickle byte streams) are not part of this model.
- `_compute_width` is not modelled. It is called without `await`, so its coroutine never runs, and it only logs. The model counts the polls that reach it.
- `WidthCalculator.run` loops forever, so `Run` models it over a finite sequence of poll listings.
- DummyPolicy.CheckCapacity: the source iterates over the map `replicas_on_nodes_map` and breaks at the first short node; the model iterates over the allocation list. Both give the same boolean, and it has no side effects.
- Job objects: `metadata.name` is assumed present. Hint values are assumed numeric, and a value of the wrong type (a Python `TypeError`) is not modelled.
- A request value that is not an integer (Python `//` on other types) is not modelled; requests are integer maps.
- In process_monitor, `len(allocation)` is a given natural number, and a non-list allocation is not modelled.
