/** WidthCalculator: the poll loop that gathers the profiling hints of all
    active AdaptDL jobs into two tables keyed by application, epoch and
    configuration. One poll merges an already fetched job listing; the
    Kubernetes call, the logging and the sleep are not part of the model. */
module WidthCalc {
  import opened Common

  /** The state reached by a computation that may raise part way: whatever
      it had changed before the exception stays changed. */
  datatype Merge<S> = Merge(state: S, error: Option<Error>)

  /** A loop over `xs` whose body may raise: the first exception ends it. */
  function StopFold<S, X>(step: (S, X) -> Merge<S>, s: S, xs: seq<X>): Merge<S>
    decreases |xs|
  {
    if xs == [] then Merge(s, None)
    else
      var m := StopFold(step, s, xs[..|xs| - 1]);
      if m.error.Some? then m else step(m.state, xs[|xs| - 1])
  }

  /** Once the loop has raised, the rest of the list is never looked at. */
  lemma {:induction false} StopFoldStops<S, X>(step: (S, X) -> Merge<S>, s: S, xs: seq<X>, n: nat)
    requires n <= |xs| && StopFold(step, s, xs[..n]).error.Some?
    ensures StopFold(step, s, xs) == StopFold(step, s, xs[..n])
    decreases |xs|
  {
    if n == |xs| {
      assert xs[..n] == xs;
    } else {
      assert xs[..|xs| - 1][..n] == xs[..n];
      StopFoldStops(step, s, xs[..|xs| - 1], n);
    }
  }

  /** When whether a step raises depends on its element alone, the loop
      finishes exactly when no element makes it raise. */
  lemma {:induction false} StopFoldOk<S, X>(step: (S, X) -> Merge<S>, s: S, xs: seq<X>, ok: X -> bool)
    requires forall t, x :: step(t, x).error.None? <==> ok(x)
    ensures StopFold(step, s, xs).error.None? <==> forall i :: 0 <= i < |xs| ==> ok(xs[i])
    decreases |xs|
  {
    if xs != [] {
      var xs' := xs[..|xs| - 1];
      StopFoldOk(step, s, xs', ok);
      assert forall i :: 0 <= i < |xs'| ==> xs'[i] == xs[i];
    }
  }

  /** A property every step keeps holds of the state reached. */
  lemma {:induction false} StopFoldKeeps<S, X>(step: (S, X) -> Merge<S>, s: S, xs: seq<X>, inv: S -> bool)
    requires inv(s)
    requires forall i, t :: 0 <= i < |xs| && inv(t) ==> inv(step(t, xs[i]).state)
    ensures inv(StopFold(step, s, xs).state)
    decreases |xs|
  {
    if xs != [] {
      var xs' := xs[..|xs| - 1];
      assert forall i :: 0 <= i < |xs'| ==> xs'[i] == xs[i];
      StopFoldKeeps(step, s, xs', inv);
    }
  }

  /* ---------- the tables ---------- */

  /** `table[application][epoch][key]` */
  type Table<V> = map<string, map<int, map<string, V>>>

  /** The three optimisation totals kept per configuration. */
  datatype ProfileTotals = ProfileTotals(optimStepTime: real, optimSyncTime: real, optimCount: int)

  /** One entry of a job's `new_profile` hint; a missing field is `None`. */
  datatype ProfileDelta = ProfileDelta(optimStepTime: Option<real>, optimSyncTime: Option<real>, optimCount: Option<int>)

  datatype GoodputTotals = GoodputTotals(goodput: real, cnt: int)

  /** One entry of a job's `new_goodput_profile` hint. */
  datatype GoodputDelta = GoodputDelta(goodput: Option<real>, cnt: Option<int>)

  datatype Snapshot = Snapshot(profiles: Table<ProfileTotals>, goodputs: Table<GoodputTotals>)

  /** The fields of an AdaptDL job object that a poll reads. */
  datatype JobObject = JobObject(name: string, phase: Option<string>, epoch: Option<int>,
                                 newProfile: Option<seq<(string, ProfileDelta)>>,
                                 newGoodput: Option<seq<(string, GoodputDelta)>>)

  function At<V>(m: map<string, V>, k: string): Option<V>
  {
    if k in m then Some(m[k]) else None
  }

  predicate HasLevel<V>(t: Table<V>, app: string, epoch: int)
  {
    app in t && epoch in t[app]
  }

  /** `table[application][epoch]`, empty when it does not exist yet. */
  function Level<V>(t: Table<V>, app: string, epoch: int): map<string, V>
  {
    if HasLevel(t, app, epoch) then t[app][epoch] else map[]
  }

  /** The table once `table[application][epoch]` has been created if need
      be and then holds `m`. */
  function WithLevel<V>(t: Table<V>, app: string, epoch: int, m: map<string, V>): Table<V>
  {
    t[app := Get(t, app, map[])[epoch := m]]
  }

  /** Writing one level changes that level alone and creates only it. */
  lemma WithLevelFacts<V>(t: Table<V>, app: string, epoch: int, m: map<string, V>)
    ensures forall a :: a in WithLevel(t, app, epoch, m) <==> a in t || a == app
    ensures forall a, e :: HasLevel(WithLevel(t, app, epoch, m), a, e) <==> HasLevel(t, a, e) || (a, e) == (app, epoch)
    ensures forall a, e :: Level(WithLevel(t, app, epoch, m), a, e) == if (a, e) == (app, epoch) then m else Level(t, a, e)
    ensures HasLevel(t, app, epoch) ==> WithLevel(t, app, epoch, Level(t, app, epoch)) == t
    ensures forall m' :: WithLevel(WithLevel(t, app, epoch, m), app, epoch, m') == WithLevel(t, app, epoch, m')
  {
    if HasLevel(t, app, epoch) {
      assert t[app][epoch := t[app][epoch]] == t[app];
    }
    forall m' ensures WithLevel(WithLevel(t, app, epoch, m), app, epoch, m') == WithLevel(t, app, epoch, m') {
      assert Get(t, app, map[])[epoch := m][epoch := m'] == Get(t, app, map[])[epoch := m'];
    }
  }

  /* ---------- merging one hint entry ---------- */

  predicate ProfileComplete(d: ProfileDelta)
  {
    d.optimStepTime.Some? && d.optimSyncTime.Some? && d.optimCount.Some?
  }

  /** One `(key, value)` of `new_profile` merged into
      `profile_data[application][epoch]`. A new key gets a copy of the three
      fields, which all have to be there; an existing one gets each field
      added in turn, so a missing field raises `KeyError` after the earlier
      fields were already added. */
  function MergeProfileEntry(t: map<string, ProfileTotals>, item: (string, ProfileDelta)): (r: Merge<map<string, ProfileTotals>>)
    ensures forall k :: k != item.0 ==> At(r.state, k) == At(t, k)
    ensures r.error.None? <==> ProfileComplete(item.1)
    ensures r.error.Some? ==> r.error == Some(KeyError)
    ensures ProfileComplete(item.1) ==> At(r.state, item.0) == Some(
      var d := item.1;
      if item.0 in t then
        ProfileTotals(t[item.0].optimStepTime + d.optimStepTime.value, t[item.0].optimSyncTime + d.optimSyncTime.value,
                      t[item.0].optimCount + d.optimCount.value)
      else ProfileTotals(d.optimStepTime.value, d.optimSyncTime.value, d.optimCount.value))
    ensures item.0 !in t && !ProfileComplete(item.1) ==> r.state == t
  {
    var (key, d) := item;
    if key !in t then
      if ProfileComplete(d) then
        Merge(t[key := ProfileTotals(d.optimStepTime.value, d.optimSyncTime.value, d.optimCount.value)], None)
      else Merge(t, Some(KeyError))
    else
      var prior := t[key];
      if d.optimStepTime.None? then Merge(t, Some(KeyError))
      else
        var t1 := t[key := prior.(optimStepTime := prior.optimStepTime + d.optimStepTime.value)];
        if d.optimSyncTime.None? then Merge(t1, Some(KeyError))
        else
          var t2 := t1[key := t1[key].(optimSyncTime := prior.optimSyncTime + d.optimSyncTime.value)];
          if d.optimCount.None? then Merge(t2, Some(KeyError))
          else Merge(t2[key := t2[key].(optimCount := prior.optimCount + d.optimCount.value)], None)
  }

  predicate GoodputComplete(d: GoodputDelta)
  {
    d.goodput.Some? && d.cnt.Some?
  }

  /** One `(key, value)` of `new_goodput_profile` merged in: the latest
      goodput replaces the old one and the counts add up. */
  function MergeGoodputEntry(t: map<string, GoodputTotals>, item: (string, GoodputDelta)): (r: Merge<map<string, GoodputTotals>>)
    ensures forall k :: k != item.0 ==> At(r.state, k) == At(t, k)
    ensures r.error.None? <==> GoodputComplete(item.1)
    ensures r.error.Some? ==> r.error == Some(KeyError)
    ensures GoodputComplete(item.1) ==> At(r.state, item.0) == Some(
      GoodputTotals(item.1.goodput.value, if item.0 in t then t[item.0].cnt + item.1.cnt.value else item.1.cnt.value))
    ensures item.0 !in t && !GoodputComplete(item.1) ==> r.state == t
  {
    var (key, d) := item;
    if key !in t then
      if GoodputComplete(d) then Merge(t[key := GoodputTotals(d.goodput.value, d.cnt.value)], None)
      else Merge(t, Some(KeyError))
    else
      if d.goodput.None? then Merge(t, Some(KeyError))
      else
        var t1 := t[key := t[key].(goodput := d.goodput.value)];
        if d.cnt.None? then Merge(t1, Some(KeyError))
        else Merge(t1[key := t1[key].(cnt := t[key].cnt + d.cnt.value)], None)
  }

  /** Merge a whole hint into `table[application][epoch]`, creating the
      level first even when the hint is empty; no hint changes nothing. */
  function MergeLevel<V, D>(step: (map<string, V>, (string, D)) -> Merge<map<string, V>>,
                            t: Table<V>, app: string, epoch: int, hint: Option<seq<(string, D)>>): Merge<Table<V>>
  {
    if hint.None? then Merge(t, None)
    else
      var m := StopFold(step, Level(t, app, epoch), hint.value);
      Merge(WithLevel(t, app, epoch, m.state), m.error)
  }

  /** Keys a hint does not name keep their entries, whatever the hint does
      to the others and wherever it raises. */
  lemma ProfileHintElsewhere(t: map<string, ProfileTotals>, items: seq<(string, ProfileDelta)>, k: string)
    requires forall i :: 0 <= i < |items| ==> items[i].0 != k
    ensures At(StopFold(MergeProfileEntry, t, items).state, k) == At(t, k)
  {
    StopFoldKeeps(MergeProfileEntry, t, items, (m: map<string, ProfileTotals>) => At(m, k) == At(t, k));
  }

  lemma GoodputHintElsewhere(t: map<string, GoodputTotals>, items: seq<(string, GoodputDelta)>, k: string)
    requires forall i :: 0 <= i < |items| ==> items[i].0 != k
    ensures At(StopFold(MergeGoodputEntry, t, items).state, k) == At(t, k)
  {
    StopFoldKeeps(MergeGoodputEntry, t, items, (m: map<string, GoodputTotals>) => At(m, k) == At(t, k));
  }

  /* ---------- merging one job ---------- */

  /** `name.split("-")[0]`: the name up to its first `-`. */
  function AppOf(name: string): (app: string)
    ensures app <= name && '-' !in app
    ensures |app| < |name| ==> name[|app|] == '-'
    ensures '-' !in name ==> app == name
  {
    if name == [] || name[0] == '-' then [] else [name[0]] + AppOf(name[1..])
  }

  /** The statuses of a job that is still around. */
  predicate Active(j: JobObject)
  {
    j.phase.Some? && j.phase.value in ["Pending", "Running", "Starting", "Stopping"]
  }

  /** The jobs a poll merges, in listing order. */
  function ActiveJobs(jobs: seq<JobObject>): (r: seq<JobObject>)
    ensures forall j :: j in r <==> j in jobs && Active(j)
    ensures |r| <= |jobs|
  {
    if jobs == [] then []
    else ActiveJobs(jobs[..|jobs| - 1]) + (if Active(jobs[|jobs| - 1]) then [jobs[|jobs| - 1]] else [])
  }

  /** The filter over the listing: the jobs whose phase is pending,
      running, starting or stopping, in listing order. */
  method FilterActive(items: seq<JobObject>) returns (active: seq<JobObject>)
    ensures active == ActiveJobs(items)
  {
    active := [];
    for i := 0 to |items|
      invariant active == ActiveJobs(items[..i])
    {
      assert items[..i + 1][..i] == items[..i];
      if Active(items[i]) {
        active := active + [items[i]];
      }
    }
    assert items[..|items|] == items;
  }

  /** One job merged into both tables: a job without an epoch raises
      `ValueError`; a profile hint that raises leaves the goodput hint
      unmerged. */
  function MergeJob(s: Snapshot, j: JobObject): Merge<Snapshot>
  {
    if j.epoch.None? then Merge(s, Some(ValueError))
    else
      var app, epoch := AppOf(j.name), j.epoch.value;
      var pm := MergeLevel(MergeProfileEntry, s.profiles, app, epoch, j.newProfile);
      if pm.error.Some? then Merge(s.(profiles := pm.state), pm.error)
      else
        var gm := MergeLevel(MergeGoodputEntry, s.goodputs, app, epoch, j.newGoodput);
        Merge(Snapshot(pm.state, gm.state), gm.error)
  }

  /** A job whose merge does not raise. */
  predicate JobOk(j: JobObject)
  {
    && j.epoch.Some?
    && (j.newProfile.Some? ==> forall i :: 0 <= i < |j.newProfile.value| ==> ProfileComplete(j.newProfile.value[i].1))
    && (j.newGoodput.Some? ==> forall i :: 0 <= i < |j.newGoodput.value| ==> GoodputComplete(j.newGoodput.value[i].1))
  }

  /** A job raises `ValueError`, without changing anything, exactly when it
      has no epoch, and otherwise raises only when a hint entry lacks a
      field. */
  lemma MergeJobErrors(s: Snapshot, j: JobObject)
    ensures MergeJob(s, j).error.None? <==> JobOk(j)
    ensures MergeJob(s, j).error == Some(ValueError) <==> j.epoch.None?
    ensures j.epoch.None? ==> MergeJob(s, j).state == s
  {
    if j.epoch.Some? {
      var app, epoch := AppOf(j.name), j.epoch.value;
      if j.newProfile.Some? {
        StopFoldOk(MergeProfileEntry, Level(s.profiles, app, epoch), j.newProfile.value,
                   (x: (string, ProfileDelta)) => ProfileComplete(x.1));
      }
      if j.newGoodput.Some? {
        StopFoldOk(MergeGoodputEntry, Level(s.goodputs, app, epoch), j.newGoodput.value,
                   (x: (string, GoodputDelta)) => GoodputComplete(x.1));
      }
      ProfileErrorIsKeyError(Level(s.profiles, app, epoch), j.newProfile);
      GoodputErrorIsKeyError(Level(s.goodputs, app, epoch), j.newGoodput);
    }
  }

  lemma {:induction false} ProfileErrorIsKeyError(t: map<string, ProfileTotals>, hint: Option<seq<(string, ProfileDelta)>>)
    ensures hint.Some? ==> StopFold(MergeProfileEntry, t, hint.value).error in {None, Some(KeyError)}
    decreases if hint.Some? then |hint.value| else 0
  {
    if hint.Some? && hint.value != [] {
      var h := hint.value;
      ProfileErrorIsKeyError(t, Some(h[..|h| - 1]));
    }
  }

  lemma {:induction false} GoodputErrorIsKeyError(t: map<string, GoodputTotals>, hint: Option<seq<(string, GoodputDelta)>>)
    ensures hint.Some? ==> StopFold(MergeGoodputEntry, t, hint.value).error in {None, Some(KeyError)}
    decreases if hint.Some? then |hint.value| else 0
  {
    if hint.Some? && hint.value != [] {
      var h := hint.value;
      GoodputErrorIsKeyError(t, Some(h[..|h| - 1]));
    }
  }

  /** What one job changes: the levels of its own application and epoch,
      which a hint creates even when it is empty; every other level stays
      as it was, and so does every key its hints do not name. */
  lemma MergeJobScope(s: Snapshot, j: JobObject)
    requires j.epoch.Some?
    ensures var r, app, epoch := MergeJob(s, j).state, AppOf(j.name), j.epoch.value;
      && (forall a, e :: (a, e) != (app, epoch) ==>
            && (HasLevel(r.profiles, a, e) <==> HasLevel(s.profiles, a, e)) && Level(r.profiles, a, e) == Level(s.profiles, a, e)
            && (HasLevel(r.goodputs, a, e) <==> HasLevel(s.goodputs, a, e)) && Level(r.goodputs, a, e) == Level(s.goodputs, a, e))
      && (j.newProfile.Some? ==> HasLevel(r.profiles, app, epoch))
      && (j.newGoodput.Some? && MergeJob(s, j).error != Some(KeyError) ==> HasLevel(r.goodputs, app, epoch))
      && (forall k :: (j.newProfile.Some? ==> forall i :: 0 <= i < |j.newProfile.value| ==> j.newProfile.value[i].0 != k) ==>
            At(Level(r.profiles, app, epoch), k) == At(Level(s.profiles, app, epoch), k))
      && (forall k :: (j.newGoodput.Some? ==> forall i :: 0 <= i < |j.newGoodput.value| ==> j.newGoodput.value[i].0 != k) ==>
            At(Level(r.goodputs, app, epoch), k) == At(Level(s.goodputs, app, epoch), k))
  {
    var app, epoch := AppOf(j.name), j.epoch.value;
    var pm := MergeLevel(MergeProfileEntry, s.profiles, app, epoch, j.newProfile);
    var gm := MergeLevel(MergeGoodputEntry, s.goodputs, app, epoch, j.newGoodput);
    if j.newProfile.Some? {
      WithLevelFacts(s.profiles, app, epoch, StopFold(MergeProfileEntry, Level(s.profiles, app, epoch), j.newProfile.value).state);
      forall k | forall i :: 0 <= i < |j.newProfile.value| ==> j.newProfile.value[i].0 != k
        ensures At(Level(pm.state, app, epoch), k) == At(Level(s.profiles, app, epoch), k)
      {
        ProfileHintElsewhere(Level(s.profiles, app, epoch), j.newProfile.value, k);
      }
    }
    if j.newGoodput.Some? {
      WithLevelFacts(s.goodputs, app, epoch, StopFold(MergeGoodputEntry, Level(s.goodputs, app, epoch), j.newGoodput.value).state);
      forall k | forall i :: 0 <= i < |j.newGoodput.value| ==> j.newGoodput.value[i].0 != k
        ensures At(Level(gm.state, app, epoch), k) == At(Level(s.goodputs, app, epoch), k)
      {
        GoodputHintElsewhere(Level(s.goodputs, app, epoch), j.newGoodput.value, k);
      }
    }
    ProfileErrorIsKeyError(Level(s.profiles, app, epoch), j.newProfile);
  }

  /* ---------- one poll ---------- */

  /** The tables after `_update_job_data` with this listing: a failed
      listing (`None`) changes nothing; otherwise the active jobs are merged
      in order until one raises. */
  function Poll(s: Snapshot, listing: Option<seq<JobObject>>): Merge<Snapshot>
  {
    if listing.None? then Merge(s, None) else StopFold(MergeJob, s, ActiveJobs(listing.value))
  }

  /** The first active job without an epoch raises `ValueError`; what the
      jobs before it merged stays, and no later job is merged. */
  lemma MissingEpochStops(s: Snapshot, jobs: seq<JobObject>, n: nat)
    requires n < |jobs| && jobs[n].epoch.None?
    requires StopFold(MergeJob, s, jobs[..n]).error.None?
    ensures StopFold(MergeJob, s, jobs) == Merge(StopFold(MergeJob, s, jobs[..n]).state, Some(ValueError))
  {
    assert jobs[..n + 1][..n] == jobs[..n];
    StopFoldStops(MergeJob, s, jobs, n + 1);
  }

  /** A poll finishes exactly when every active job has an epoch and
      complete hint entries. */
  lemma PollOk(s: Snapshot, jobs: seq<JobObject>)
    ensures Poll(s, Some(jobs)).error.None? <==> forall j :: j in jobs && Active(j) ==> JobOk(j)
  {
    forall t, j ensures MergeJob(t, j).error.None? <==> JobOk(j) {
      MergeJobErrors(t, j);
    }
    StopFoldOk(MergeJob, s, ActiveJobs(jobs), JobOk);
    var act := ActiveJobs(jobs);
    assert (forall i :: 0 <= i < |act| ==> JobOk(act[i])) <==> (forall j :: j in act ==> JobOk(j));
  }

  /** A level no active job names is the same after the poll. */
  lemma PollElsewhere(s: Snapshot, jobs: seq<JobObject>, a: string, e: int)
    requires forall j :: j in jobs && Active(j) && j.epoch.Some? ==> (AppOf(j.name), j.epoch.value) != (a, e)
    ensures var r := Poll(s, Some(jobs)).state;
      && (HasLevel(r.profiles, a, e) <==> HasLevel(s.profiles, a, e)) && Level(r.profiles, a, e) == Level(s.profiles, a, e)
      && (HasLevel(r.goodputs, a, e) <==> HasLevel(s.goodputs, a, e)) && Level(r.goodputs, a, e) == Level(s.goodputs, a, e)
  {
    var act := ActiveJobs(jobs);
    var inv := (t: Snapshot) =>
      && (HasLevel(t.profiles, a, e) <==> HasLevel(s.profiles, a, e)) && Level(t.profiles, a, e) == Level(s.profiles, a, e)
      && (HasLevel(t.goodputs, a, e) <==> HasLevel(s.goodputs, a, e)) && Level(t.goodputs, a, e) == Level(s.goodputs, a, e);
    forall i, t | 0 <= i < |act| && inv(t) ensures inv(MergeJob(t, act[i]).state) {
      assert act[i] in act;
      if act[i].epoch.Some? {
        MergeJobScope(t, act[i]);
      } else {
        MergeJobErrors(t, act[i]);
      }
    }
    StopFoldKeeps(MergeJob, s, act, inv);
  }

  /* ---------- the poll counter of `run` ---------- */

  /** The counter step of one turn of `run`: count the poll, and on every 30th
      compute the widths and reset the counter. */
  function Tick(counter: int): (r: (int, bool))
    ensures r.1 <==> (counter + 1) % 30 == 0
    ensures r.0 == if r.1 then 0 else counter + 1
  {
    if (counter + 1) % 30 == 0 then (0, true) else (counter + 1, false)
  }

  /** The counter after `n` polls. */
  function Counter(n: nat): int
  {
    if n == 0 then 0 else Tick(Counter(n - 1)).0
  }

  /** The counter stays in 0..29, and the widths are computed on poll `n`
      exactly when `n` is a multiple of 30. */
  lemma {:induction false} CounterFacts(n: nat)
    ensures Counter(n) == n % 30 && 0 <= Counter(n) <= 29
    ensures n > 0 ==> (Tick(Counter(n - 1)).1 <==> n % 30 == 0)
    ensures n > 0 ==> n / 30 == (n - 1) / 30 + (if n % 30 == 0 then 1 else 0)
  {
    if n > 0 {
      CounterFacts(n - 1);
      var q, r := (n - 1) / 30, (n - 1) % 30;
      if r == 29 {
        DivModUnique(n, q + 1, 0);
        DivModUnique(r + 1, 1, 0);
      } else {
        DivModUnique(n, q, r + 1);
        DivModUnique(r + 1, 0, r + 1);
      }
    }
  }

  /** One turn of `run` on the counter, for `n` polls done so far. */
  lemma CounterStep(n: nat, counter: int, computes: int, next: int, compute: bool)
    requires counter == n % 30 && computes == n / 30 && (next, compute) == Tick(counter)
    ensures next == (n + 1) % 30 && 0 <= next <= 29
    ensures (if compute then computes + 1 else computes) == (n + 1) / 30
  {
    CounterFacts(n);
    CounterFacts(n + 1);
  }

  lemma DivModUnique(n: int, q: int, r: int)
    requires n == 30 * q + r && 0 <= r < 30
    ensures n / 30 == q && n % 30 == r
  {
  }

  /* ---------- the object ---------- */

  class WidthCalculator {
    var profileData: Table<ProfileTotals>
    var goodputData: Table<GoodputTotals>

    function Tables(): Snapshot
      reads this
    {
      Snapshot(profileData, goodputData)
    }

    constructor()
      ensures profileData == map[] && goodputData == map[]
    {
      profileData := map[];
      goodputData := map[];
    }

    /** One `_update_job_data` over an already fetched listing. */
    method UpdateJobData(listing: Option<seq<JobObject>>) returns (err: Option<Error>)
      modifies this
      ensures Merge(Tables(), err) == Poll(old(Tables()), listing)
    {
      if listing.None? {
        return None;
      }
      var active := FilterActive(listing.value);
      err := MergeEach(active);
    }

    /** The merge loop over the active jobs of one poll. */
    method MergeEach(active: seq<JobObject>) returns (err: Option<Error>)
      modifies this
      ensures Merge(Tables(), err) == StopFold(MergeJob, old(Tables()), active)
    {
      ghost var s0 := Tables();
      var i := 0;
      while i < |active|
        invariant 0 <= i <= |active|
        invariant StopFold(MergeJob, s0, active[..i]) == Merge(Tables(), None)
      {
        assert active[..i + 1][..i] == active[..i];
        var e := MergeJobInto(active[i]);
        if e.Some? {
          StopFoldStops(MergeJob, s0, active, i + 1);
          return e;
        }
        i := i + 1;
      }
      assert active[..|active|] == active;
      return None;
    }

    method MergeJobInto(j: JobObject) returns (err: Option<Error>)
      modifies this
      ensures Merge(Tables(), err) == MergeJob(old(Tables()), j)
    {
      if j.epoch.None? {
        return Some(ValueError);
      }
      var app, epoch := AppOf(j.name), j.epoch.value;
      err := None;
      if j.newProfile.Some? {
        err := MergeProfileLevel(app, epoch, j.newProfile.value);
        if err.Some? {
          return;
        }
      }
      if j.newGoodput.Some? {
        err := MergeGoodputLevel(app, epoch, j.newGoodput.value);
      }
    }

    method MergeProfileLevel(app: string, epoch: int, items: seq<(string, ProfileDelta)>) returns (err: Option<Error>)
      modifies this
      ensures Merge(profileData, err) == MergeLevel(MergeProfileEntry, old(profileData), app, epoch, Some(items))
      ensures goodputData == old(goodputData)
    {
      ghost var t0 := profileData;
      if app !in profileData {
        profileData := profileData[app := map[]];
      }
      if epoch !in profileData[app] {
        profileData := profileData[app := profileData[app][epoch := map[]]];
      }
      WithLevelFacts(t0, app, epoch, Level(t0, app, epoch));
      assert profileData == WithLevel(t0, app, epoch, Level(t0, app, epoch));
      err := MergeProfileHint(app, epoch, items);
    }

    method MergeGoodputLevel(app: string, epoch: int, items: seq<(string, GoodputDelta)>) returns (err: Option<Error>)
      modifies this
      ensures Merge(goodputData, err) == MergeLevel(MergeGoodputEntry, old(goodputData), app, epoch, Some(items))
      ensures profileData == old(profileData)
    {
      ghost var t0 := goodputData;
      if app !in goodputData {
        goodputData := goodputData[app := map[]];
      }
      if epoch !in goodputData[app] {
        goodputData := goodputData[app := goodputData[app][epoch := map[]]];
      }
      WithLevelFacts(t0, app, epoch, Level(t0, app, epoch));
      assert goodputData == WithLevel(t0, app, epoch, Level(t0, app, epoch));
      err := MergeGoodputHint(app, epoch, items);
    }

    /** The loop over `hints["new_profile"].items()`. */
    method MergeProfileHint(app: string, epoch: int, items: seq<(string, ProfileDelta)>) returns (err: Option<Error>)
      requires HasLevel(profileData, app, epoch)
      modifies this
      ensures var m := StopFold(MergeProfileEntry, Level(old(profileData), app, epoch), items);
        profileData == WithLevel(old(profileData), app, epoch, m.state) && err == m.error
      ensures goodputData == old(goodputData)
    {
      ghost var t0 := profileData;
      ghost var inner0 := t0[app][epoch];
      WithLevelFacts(t0, app, epoch, inner0);
      var i := 0;
      while i < |items|
        invariant 0 <= i <= |items|
        invariant StopFold(MergeProfileEntry, inner0, items[..i]).error.None?
        invariant profileData == WithLevel(t0, app, epoch, StopFold(MergeProfileEntry, inner0, items[..i]).state)
        invariant goodputData == old(goodputData)
      {
        assert items[..i + 1][..i] == items[..i];
        var r := MergeProfileEntry(profileData[app][epoch], items[i]);
        profileData := profileData[app := profileData[app][epoch := r.state]];
        WithLevelFacts(t0, app, epoch, StopFold(MergeProfileEntry, inner0, items[..i]).state);
        if r.error.Some? {
          StopFoldStops(MergeProfileEntry, inner0, items, i + 1);
          return r.error;
        }
        i := i + 1;
      }
      assert items[..|items|] == items;
      return None;
    }

    /** The loop over `hints["new_goodput_profile"].items()`. */
    method MergeGoodputHint(app: string, epoch: int, items: seq<(string, GoodputDelta)>) returns (err: Option<Error>)
      requires HasLevel(goodputData, app, epoch)
      modifies this
      ensures var m := StopFold(MergeGoodputEntry, Level(old(goodputData), app, epoch), items);
        goodputData == WithLevel(old(goodputData), app, epoch, m.state) && err == m.error
      ensures profileData == old(profileData)
    {
      ghost var t0 := goodputData;
      ghost var inner0 := t0[app][epoch];
      WithLevelFacts(t0, app, epoch, inner0);
      var i := 0;
      while i < |items|
        invariant 0 <= i <= |items|
        invariant StopFold(MergeGoodputEntry, inner0, items[..i]).error.None?
        invariant goodputData == WithLevel(t0, app, epoch, StopFold(MergeGoodputEntry, inner0, items[..i]).state)
        invariant profileData == old(profileData)
      {
        assert items[..i + 1][..i] == items[..i];
        var r := MergeGoodputEntry(goodputData[app][epoch], items[i]);
        goodputData := goodputData[app := goodputData[app][epoch := r.state]];
        WithLevelFacts(t0, app, epoch, StopFold(MergeGoodputEntry, inner0, items[..i]).state);
        if r.error.Some? {
          StopFoldStops(MergeGoodputEntry, inner0, items, i + 1);
          return r.error;
        }
        i := i + 1;
      }
      assert items[..|items|] == items;
      return None;
    }

    /** `run` over the listings of successive polls: it stops at the first
      poll that raises. `polls` counts the polls that finished, `computes`
      the width computations, and `counter` is `iter_cnt` at the end. */
    method Run(listings: seq<Option<seq<JobObject>>>) returns (polls: nat, computes: nat, counter: int, err: Option<Error>)
      modifies this
      ensures Merge(Tables(), err) == StopFold(Poll, old(Tables()), listings)
      ensures polls <= |listings| && (err.None? ==> polls == |listings|)
      ensures StopFold(Poll, old(Tables()), listings[..polls]).error.None?
      ensures counter == polls % 30 && 0 <= counter <= 29
      ensures computes == polls / 30
    {
      ghost var s0 := Tables();
      polls, computes, counter, err := 0, 0, 0, None;
      while polls < |listings|
        invariant 0 <= polls <= |listings|
        invariant StopFold(Poll, s0, listings[..polls]) == Merge(Tables(), None)
        invariant counter == polls % 30 && 0 <= counter <= 29 && computes == polls / 30
      {
        var e, next, compute := RunTurn(listings[polls], counter);
        assert StopFold(Poll, s0, listings[..polls + 1]) == Merge(Tables(), e) by {
          assert listings[..polls + 1][..polls] == listings[..polls];
        }
        if e.Some? {
          StopFoldStops(Poll, s0, listings, polls + 1);
          err := e;
          return;
        }
        CounterStep(polls, counter, computes, next, compute);
        counter := next;
        if compute {
          computes := computes + 1;
        }
        polls := polls + 1;
      }
      assert listings[..polls] == listings;
    }

    /** One turn of the polling loop of `run`: a poll, then the counter. */
    method RunTurn(listing: Option<seq<JobObject>>, counter: int) returns (err: Option<Error>, next: int, compute: bool)
      modifies this
      ensures Merge(Tables(), err) == Poll(old(Tables()), listing)
      ensures err.None? ==> (next, compute) == Tick(counter)
      ensures err.Some? ==> next == counter && !compute
    {
      err := UpdateJobData(listing);
      if err.Some? {
        return err, counter, false;
      }
      next, compute := Tick(counter).0, Tick(counter).1;
    }
  }
}
