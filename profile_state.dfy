/** GlobalProfileState: per-application tables of streaming sums and counts
    of step times, keyed by `(num_nodes, num_replicas, atomic_bsz)`, the
    performance parameters fitted from them, and the time of the last fit. */
module ProfileState {
  import opened Common

  /** `(num_nodes, num_replicas, atomic_bsz)` */
  type ProfileKey = (int, int, int)

  /** The five running totals of one configuration. */
  datatype ProfileRecord = ProfileRecord(accumStepTime: real, accumCount: int,
                                         optimStepTime: real, optimSyncTime: real, optimCount: int)

  /** The record `_get_or_create_profile` creates. */
  const Zero := ProfileRecord(0.0, 0, 0.0, 0.0, 0)

  /** The fields of a `profile_data` dict that `update_profile` reads; a
      missing field is `None`. */
  datatype ProfileData = ProfileData(numNodes: Option<int>, numReplicas: Option<int>, atomicBsz: Option<int>,
                                     accumulationStep: Option<bool>, stepTime: Option<real>, syncTime: Option<real>)

  type Profiles = map<string, map<ProfileKey, ProfileRecord>>

  /** The parameters of AdaptDL's throughput model. */
  datatype PerfParams = PerfParams(alphaC: real, betaC: real, alphaN: real, betaN: real,
                                   alphaR: real, betaR: real, gamma: real)

  /** One configuration as handed to the fit: its averaged accumulation and
      optimisation step times. */
  datatype FitPoint = FitPoint(accumStepTime: real, optimStepTime: real)

  /** `adaptdl.goodput.fit_perf_params`: a fit that may fail. */
  type Fitter = map<ProfileKey, FitPoint> -> Result<PerfParams>

  /** A record of the application's table, if there is one. */
  function Find(p: Profiles, app: string, key: ProfileKey): Option<ProfileRecord>
  {
    if app in p && key in p[app] then Some(p[app][key]) else None
  }

  /** Counts are never negative. */
  predicate ValidProfiles(p: Profiles)
  {
    forall app, key :: app in p && key in p[app] ==> p[app][key].accumCount >= 0 && p[app][key].optimCount >= 0
  }

  /* ---------- _get_or_create_profile ---------- */

  /** The record `_get_or_create_profile` returns. */
  function Current(p: Profiles, app: string, key: ProfileKey): ProfileRecord
  {
    UnwrapOr(Find(p, app, key), Zero)
  }

  /** The table after `_get_or_create_profile`. */
  function WithProfile(p: Profiles, app: string, key: ProfileKey): Profiles
  {
    p[app := Get(p, app, map[])[key := Current(p, app, key)]]
  }

  /** `_get_or_create_profile` creates an all-zero record only where there
      was none, leaves an existing record (and then the whole table) as it
      was, and touches no other record. */
  lemma WithProfileFacts(p: Profiles, app: string, key: ProfileKey)
    ensures Find(WithProfile(p, app, key), app, key) == Some(if Find(p, app, key).Some? then Find(p, app, key).value else Zero)
    ensures Find(p, app, key).Some? ==> WithProfile(p, app, key) == p
    ensures forall a, k :: (a, k) != (app, key) ==> Find(WithProfile(p, app, key), a, k) == Find(p, a, k)
    ensures WithProfile(p, app, key).Keys == p.Keys + {app}
  {
    if Find(p, app, key).Some? {
      assert p[app][key := p[app][key]] == p[app];
    }
  }

  /* ---------- update_profile ---------- */

  /** `(profile_data["num_nodes"], profile_data["num_replicas"],
      profile_data["atomic_bsz"])`, a `KeyError` when one is missing. */
  function KeyOf(d: ProfileData): (r: Result<ProfileKey>)
    ensures r.Ok? <==> d.numNodes.Some? && d.numReplicas.Some? && d.atomicBsz.Some?
    ensures r.Err? ==> r.error == KeyError
  {
    if d.numNodes.None? || d.numReplicas.None? || d.atomicBsz.None? then Err(KeyError)
    else Ok((d.numNodes.value, d.numReplicas.value, d.atomicBsz.value))
  }

  /** One profiled step added to a record. */
  function Step(r: ProfileRecord, d: ProfileData): ProfileRecord
  {
    var t := UnwrapOr(d.stepTime, 0.0);
    if UnwrapOr(d.accumulationStep, false) then
      r.(accumStepTime := r.accumStepTime + t, accumCount := r.accumCount + 1)
    else
      r.(optimStepTime := r.optimStepTime + t, optimSyncTime := r.optimSyncTime + UnwrapOr(d.syncTime, 0.0),
         optimCount := r.optimCount + 1)
  }

  /** The tables after `update_profile(app, d)`. */
  function Update(p: Profiles, app: string, d: ProfileData): Result<Profiles>
  {
    match KeyOf(d)
    case Err(e) => Err(e)
    case Ok(key) =>
      var q := WithProfile(p, app, key);
      Ok(q[app := q[app][key := Step(q[app][key], d)]])
  }

  /** `update_profile` fails exactly when a key field is missing, and then
      changes nothing; otherwise it changes the record of that configuration
      alone: an accumulation step adds its step time (0 when absent) and one
      to the accumulation totals, any other step adds its step and sync times
      and one to the optimisation totals, and the other totals stay. */
  lemma UpdateFacts(p: Profiles, app: string, d: ProfileData)
    ensures Update(p, app, d).Ok? <==> KeyOf(d).Ok?
    ensures Update(p, app, d).Ok? ==>
      var q, key := Update(p, app, d).value, KeyOf(d).value;
      && (forall a, k :: (a, k) != (app, key) ==> Find(q, a, k) == Find(p, a, k))
      && q.Keys == p.Keys + {app}
      && Find(q, app, key).Some?
    ensures Update(p, app, d).Ok? ==>
      var q, key, t := Update(p, app, d).value, KeyOf(d).value, UnwrapOr(d.stepTime, 0.0);
      var before, after := Current(p, app, key), Find(q, app, key).value;
      if UnwrapOr(d.accumulationStep, false) then
        && after.accumStepTime == before.accumStepTime + t && after.accumCount == before.accumCount + 1
        && after.optimStepTime == before.optimStepTime && after.optimSyncTime == before.optimSyncTime
        && after.optimCount == before.optimCount
      else
        && after.optimStepTime == before.optimStepTime + t
        && after.optimSyncTime == before.optimSyncTime + UnwrapOr(d.syncTime, 0.0)
        && after.optimCount == before.optimCount + 1
        && after.accumStepTime == before.accumStepTime && after.accumCount == before.accumCount
  {
    if KeyOf(d).Ok? {
      WithProfileFacts(p, app, KeyOf(d).value);
    }
  }

  lemma UpdateValid(p: Profiles, app: string, d: ProfileData)
    requires ValidProfiles(p)
    ensures Update(p, app, d).Ok? ==> ValidProfiles(Update(p, app, d).value)
  {
    if Update(p, app, d).Ok? {
      UpdateFacts(p, app, d);
      var q: Profiles := Update(p, app, d).value;
      forall a: string, k: ProfileKey | a in q && k in q[a] ensures q[a][k].accumCount >= 0 && q[a][k].optimCount >= 0 {
        assert Find(q, a, k).Some?;
        if (a, k) != (app, KeyOf(d).value) {
          assert Find(q, a, k) == Find(p, a, k);
        }
      }
    }
  }

  /* ---------- replaying a stream of updates ---------- */

  /** One call `update_profile(app, data)`. */
  datatype ProfileUpdate = ProfileUpdate(app: string, data: ProfileData)

  /** A call leaves the tables as they were when it raises. */
  function Apply(p: Profiles, u: ProfileUpdate): Profiles
  {
    match Update(p, u.app, u.data)
    case Ok(q) => q
    case Err(_) => p
  }

  function Replay(p: Profiles, us: seq<ProfileUpdate>): Profiles
    decreases |us|
  {
    if us == [] then p else Replay(Apply(p, us[0]), us[1..])
  }

  /** The number of calls that count towards configuration `key` of `app`. */
  function Matching(us: seq<ProfileUpdate>, app: string, key: ProfileKey): nat
  {
    if us == [] then 0
    else (if us[0].app == app && KeyOf(us[0].data) == Ok(key) then 1 else 0) + Matching(us[1..], app, key)
  }

  /** Each record counts its updates: `accum_count + optim_count` grows by
      exactly the number of calls for that configuration. */
  lemma {:induction false} ReplayCounts(p: Profiles, us: seq<ProfileUpdate>, app: string, key: ProfileKey)
    ensures var before, after := Current(p, app, key), Current(Replay(p, us), app, key);
      after.accumCount + after.optimCount == before.accumCount + before.optimCount + Matching(us, app, key)
    decreases |us|
  {
    if us != [] {
      var u := us[0];
      UpdateFacts(p, u.app, u.data);
      ReplayCounts(Apply(p, u), us[1..], app, key);
    }
  }

  /** Whether call `u` counts towards configuration `key` of `app`. */
  predicate Targets(u: ProfileUpdate, app: string, key: ProfileKey)
  {
    u.app == app && KeyOf(u.data) == Ok(key)
  }

  /** A call changes the one record it targets, by `Step`. */
  lemma ApplyFind(p: Profiles, u: ProfileUpdate, a: string, k: ProfileKey)
    ensures Find(Apply(p, u), a, k) == if Targets(u, a, k) then Some(Step(Current(p, a, k), u.data)) else Find(p, a, k)
  {
    if KeyOf(u.data).Ok? {
      WithProfileFacts(p, u.app, KeyOf(u.data).value);
    }
  }

  lemma ApplyKeys(p: Profiles, u: ProfileUpdate)
    ensures Apply(p, u).Keys == if KeyOf(u.data).Ok? then p.Keys + {u.app} else p.Keys
  {
    if KeyOf(u.data).Ok? {
      WithProfileFacts(p, u.app, KeyOf(u.data).value);
    }
  }

  /** Two tables with the same applications and the same records are equal. */
  lemma ProfilesEqual(q: Profiles, r: Profiles)
    requires q.Keys == r.Keys
    requires forall a, k :: Find(q, a, k) == Find(r, a, k)
    ensures q == r
  {
    forall a | a in q ensures q[a] == r[a] {
      forall k | k in q[a] || k in r[a] ensures k in q[a] && k in r[a] && q[a][k] == r[a][k] {
        assert Find(q, a, k) == Find(r, a, k);
      }
    }
  }

  lemma StepCommutes(r: ProfileRecord, d: ProfileData, e: ProfileData)
    ensures Step(Step(r, d), e) == Step(Step(r, e), d)
  {
  }

  /** Two calls commute: the sums and counts do not depend on their order. */
  lemma ApplyCommutes(p: Profiles, u: ProfileUpdate, v: ProfileUpdate)
    ensures Apply(Apply(p, u), v) == Apply(Apply(p, v), u)
  {
    var pu, pv := Apply(p, u), Apply(p, v);
    var uv, vu := Apply(pu, v), Apply(pv, u);
    ApplyKeys(p, u);
    ApplyKeys(p, v);
    ApplyKeys(pu, v);
    ApplyKeys(pv, u);
    forall a, k ensures Find(uv, a, k) == Find(vu, a, k) {
      ApplyFind(p, u, a, k);
      ApplyFind(p, v, a, k);
      ApplyFind(pu, v, a, k);
      ApplyFind(pv, u, a, k);
      if Targets(u, a, k) && Targets(v, a, k) {
        StepCommutes(Current(p, a, k), u.data, v.data);
      }
    }
    ProfilesEqual(uv, vu);
  }

  lemma {:induction false} ReplayMovesLast(p: Profiles, s: seq<ProfileUpdate>, x: ProfileUpdate)
    ensures Replay(p, s + [x]) == Replay(Apply(p, x), s)
    decreases |s|
  {
    if s == [] {
      assert [x][1..] == [];
    } else {
      assert (s + [x])[0] == s[0] && (s + [x])[1..] == s[1..] + [x];
      ReplayMovesLast(Apply(p, s[0]), s[1..], x);
      ApplyCommutes(p, s[0], x);
    }
  }

  lemma {:induction false} ReplayAppend(p: Profiles, s: seq<ProfileUpdate>, t: seq<ProfileUpdate>)
    ensures Replay(p, s + t) == Replay(Replay(p, s), t)
    decreases |s|
  {
    if s == [] {
      assert s + t == t;
    } else {
      assert (s + t)[0] == s[0] && (s + t)[1..] == s[1..] + t;
      ReplayAppend(Apply(p, s[0]), s[1..], t);
    }
  }

  /** The tables reached do not depend on the order of the calls. */
  lemma {:induction false} ReplayPermutation(p: Profiles, xs: seq<ProfileUpdate>, ys: seq<ProfileUpdate>)
    requires multiset(xs) == multiset(ys)
    ensures Replay(p, xs) == Replay(p, ys)
    decreases |xs|
  {
    if xs == [] {
      assert |ys| == |multiset(ys)| == 0;
    } else {
      var x := xs[0];
      assert x in multiset(ys);
      var j :| 0 <= j < |ys| && ys[j] == x;
      var rest := ys[..j] + ys[j + 1..];
      assert ys == ys[..j] + [x] + ys[j + 1..];
      assert xs == [x] + xs[1..];
      assert multiset(xs) == multiset{x} + multiset(xs[1..]);
      assert multiset(ys) == multiset(ys[..j]) + multiset{x} + multiset(ys[j + 1..]);
      assert multiset(rest) == multiset(ys[..j]) + multiset(ys[j + 1..]);
      assert multiset(xs[1..]) == multiset(xs) - multiset{x};
      assert multiset(rest) == multiset(ys) - multiset{x};
      ReplayAppend(p, ys[..j] + [x], ys[j + 1..]);
      ReplayMovesLast(p, ys[..j], x);
      ReplayAppend(Apply(p, x), ys[..j], ys[j + 1..]);
      ReplayPermutation(Apply(p, x), xs[1..], rest);
    }
  }

  /* ---------- fit_perf_params_for_application ---------- */

  /** The configurations the fit uses: those with an optimisation step. */
  function Observed(table: map<ProfileKey, ProfileRecord>): (r: map<ProfileKey, ProfileRecord>)
    ensures forall k :: k in r <==> k in table && table[k].optimCount > 0
    ensures forall k :: k in r ==> r[k] == table[k]
  {
    map k | k in table && table[k].optimCount > 0 :: table[k]
  }

  /** The fit's input: per configuration, the accumulation time averaged
      over all steps once the non-sync part of each optimisation step joins
      it, and the optimisation time averaged over the optimisation steps. */
  function FitInput(kept: map<ProfileKey, ProfileRecord>): (r: map<ProfileKey, FitPoint>)
    requires forall k :: k in kept ==> kept[k].accumCount >= 0 && kept[k].optimCount > 0
    ensures r.Keys == kept.Keys
  {
    map k | k in kept ::
      var v := kept[k];
      assert v.accumCount + v.optimCount > 0;
      FitPoint((v.accumStepTime + v.optimStepTime - v.optimSyncTime) / (v.accumCount + v.optimCount) as real,
               v.optimStepTime / v.optimCount as real)
  }

  /** Whether the data of the application gets as far as the fit. */
  predicate Fittable(p: Profiles, app: string)
  {
    app in p && Observed(p[app]) != map[] &&
    forall k :: k in Observed(p[app]) ==> Observed(p[app])[k].optimStepTime >= Observed(p[app])[k].optimSyncTime
  }

  /** The new parameters of `app`, when the fit runs and succeeds. */
  function Outcome(p: Profiles, app: string, fit: Fitter): Option<PerfParams>
    requires ValidProfiles(p)
  {
    if !Fittable(p, app) then None
    else match fit(FitInput(Observed(p[app])))
      case Ok(v) => Some(v)
      case Err(_) => None
  }

  /** `global_perf_params` after `fit_perf_params_for_application(app)`. */
  function Refit(p: Profiles, params: map<string, PerfParams>, app: string, fit: Fitter): map<string, PerfParams>
    requires ValidProfiles(p)
  {
    match Outcome(p, app, fit)
    case Some(v) => params[app := v]
    case None => params
  }

  /** The parameters stay as they were when the application has no table,
      no configuration with an optimisation step, or one whose sync time
      exceeds its step time, and when the fit raises; otherwise the fit's
      result replaces them. No other application's parameters change, and
      both averages divide by a positive count. */
  lemma RefitFacts(p: Profiles, params: map<string, PerfParams>, app: string, fit: Fitter)
    requires ValidProfiles(p)
    ensures app !in p ==> Refit(p, params, app, fit) == params
    ensures app in p && (forall k :: k in p[app] ==> p[app][k].optimCount <= 0) ==> Refit(p, params, app, fit) == params
    ensures app in p && (exists k :: k in p[app] && p[app][k].optimCount > 0 && p[app][k].optimStepTime < p[app][k].optimSyncTime) ==>
              Refit(p, params, app, fit) == params
    ensures Fittable(p, app) ==>
      var kept := Observed(p[app]);
      && (forall k :: k in kept ==> kept[k].optimCount > 0 && kept[k].accumCount + kept[k].optimCount > 0)
      && Refit(p, params, app, fit) == match fit(FitInput(kept)) { case Ok(v) => params[app := v] case Err(_) => params }
    ensures forall a :: a != app ==> (a in Refit(p, params, app, fit) <==> a in params)
    ensures forall a :: a != app && a in params ==> Refit(p, params, app, fit)[a] == params[a]
  {
    if app in p && (forall k :: k in p[app] ==> p[app][k].optimCount <= 0) {
      assert Observed(p[app]) == map[];
    }
    if app in p && (exists k :: k in p[app] && p[app][k].optimCount > 0 && p[app][k].optimStepTime < p[app][k].optimSyncTime) {
      var k :| k in p[app] && p[app][k].optimCount > 0 && p[app][k].optimStepTime < p[app][k].optimSyncTime;
      assert k in Observed(p[app]);
    }
  }

  /** `global_perf_params` after `fit_all_perf_params`: for every application
      with a table, the fit's result where it succeeded. */
  function RefitAll(p: Profiles, params: map<string, PerfParams>, fit: Fitter): map<string, PerfParams>
    requires ValidProfiles(p)
  {
    RefitSome(p, params, p.Keys, fit)
  }

  /** The same for the applications in `done` only. */
  function RefitSome(p: Profiles, params: map<string, PerfParams>, done: set<string>, fit: Fitter): map<string, PerfParams>
    requires ValidProfiles(p)
  {
    var fitted := set a | a in done && Outcome(p, a, fit).Some?;
    map a | a in params.Keys + fitted :: if a in fitted then Outcome(p, a, fit).value else params[a]
  }

  /** `fit_all_perf_params` refits every application that has a table, each
      as `fit_perf_params_for_application` alone would, and keeps the
      parameters of every other application. */
  lemma RefitAllFacts(p: Profiles, params: map<string, PerfParams>, fit: Fitter)
    requires ValidProfiles(p)
    ensures forall a :: a in RefitAll(p, params, fit) <==> a in params || (a in p && Outcome(p, a, fit).Some?)
    ensures forall a :: a in RefitAll(p, params, fit) ==>
      RefitAll(p, params, fit)[a] == Refit(p, params, a, fit)[a]
    ensures forall a :: a !in p && a in params ==> RefitAll(p, params, fit)[a] == params[a]
  {
  }

  lemma RefitSomeEmpty(p: Profiles, params: map<string, PerfParams>, fit: Fitter)
    requires ValidProfiles(p)
    ensures RefitSome(p, params, {}, fit) == params
  {
  }

  lemma RefitSomeStep(p: Profiles, params: map<string, PerfParams>, done: set<string>, app: string, fit: Fitter)
    requires ValidProfiles(p)
    ensures RefitSome(p, params, done + {app}, fit) == Refit(p, RefitSome(p, params, done, fit), app, fit)
  {
    var m := RefitSome(p, params, done, fit);
    var l := RefitSome(p, params, done + {app}, fit);
    var o := Outcome(p, app, fit);
    var r := if o.Some? then m[app := o.value] else m;
    assert Refit(p, m, app, fit) == r;
    forall a ensures a in l <==> a in r {
      if a != app {
        assert a in l <==> a in m;
      }
    }
    forall a | a in l ensures l[a] == r[a] {
      if a != app {
        assert l[a] == m[a];
      }
    }
  }

  /* ---------- the object ---------- */

  class GlobalProfileState {
    var profiles: Profiles
    var perfParams: map<string, PerfParams>
    var lastFitTime: real

    ghost predicate Valid()
      reads this
    {
      ValidProfiles(profiles)
    }

    /** The state starts empty; `now` is the clock reading at creation. */
    constructor(now: real)
      ensures Valid()
      ensures profiles == map[] && perfParams == map[] && lastFitTime == now
    {
      profiles := map[];
      perfParams := map[];
      lastFitTime := now;
    }

    method GetOrCreateProfile(app: string, key: ProfileKey) returns (record: ProfileRecord)
      requires Valid()
      modifies this
      ensures Valid()
      ensures profiles == WithProfile(old(profiles), app, key) && record == Current(old(profiles), app, key)
      ensures perfParams == old(perfParams) && lastFitTime == old(lastFitTime)
    {
      if app !in profiles {
        profiles := profiles[app := map[]];
      }
      if key !in profiles[app] {
        profiles := profiles[app := profiles[app][key := Zero]];
      } else {
        assert profiles[app][key := profiles[app][key]] == profiles[app];
      }
      record := profiles[app][key];
      WithProfileFacts(old(profiles), app, key);
    }

    method UpdateProfile(app: string, d: ProfileData) returns (r: Result<ProfileKey>)
      requires Valid()
      modifies this
      ensures Valid()
      ensures r == KeyOf(d)
      ensures profiles == Apply(old(profiles), ProfileUpdate(app, d))
      ensures perfParams == old(perfParams) && lastFitTime == old(lastFitTime)
    {
      r := KeyOf(d);
      if r.Err? {
        return;
      }
      var key := r.value;
      ghost var p0 := profiles;
      var record := GetOrCreateProfile(app, key);
      record := AddStep(record, d);
      profiles := profiles[app := profiles[app][key := record]];
      UpdateValid(p0, app, d);
    }

    /** The field updates of `update_profile` on the record it fetched. */
    static method AddStep(record: ProfileRecord, d: ProfileData) returns (r: ProfileRecord)
      ensures r == Step(record, d)
    {
      r := record;
      if UnwrapOr(d.accumulationStep, false) {
        r := r.(accumStepTime := r.accumStepTime + UnwrapOr(d.stepTime, 0.0));
        r := r.(accumCount := r.accumCount + 1);
      } else {
        r := r.(optimStepTime := r.optimStepTime + UnwrapOr(d.stepTime, 0.0));
        r := r.(optimSyncTime := r.optimSyncTime + UnwrapOr(d.syncTime, 0.0));
        r := r.(optimCount := r.optimCount + 1);
      }
    }

    method FitForApplication(app: string, fit: Fitter)
      requires Valid()
      modifies this
      ensures Valid()
      ensures perfParams == Refit(old(profiles), old(perfParams), app, fit)
      ensures profiles == old(profiles) && lastFitTime == old(lastFitTime)
    {
      if app !in profiles {
        return;
      }
      var kept := Observed(profiles[app]);
      if kept == map[] {
        return;
      }
      if exists k :: k in kept && kept[k].optimStepTime < kept[k].optimSyncTime {
        return;
      }
      var result := fit(FitInput(kept));
      if result.Ok? {
        perfParams := perfParams[app := result.value];
      }
    }

    /** `should_fit_perf_params` at clock reading `now`. */
    predicate ShouldFit(now: real)
      reads this
    {
      now - lastFitTime > 300.0
    }

    /** `fit_all_perf_params` at clock reading `now`. */
    method FitAll(now: real, fit: Fitter)
      requires Valid()
      modifies this
      ensures Valid()
      ensures perfParams == RefitAll(old(profiles), old(perfParams), fit)
      ensures profiles == old(profiles) && lastFitTime == now
      ensures forall t :: ShouldFit(t) <==> t > now + 300.0
    {
      FitEach(fit);
      lastFitTime := now;
    }

    /** The loop over `global_profiles`: one fit per application with a table. */
    method FitEach(fit: Fitter)
      requires Valid()
      modifies this
      ensures Valid()
      ensures perfParams == RefitAll(old(profiles), old(perfParams), fit)
      ensures profiles == old(profiles) && lastFitTime == old(lastFitTime)
    {
      ghost var p0, params0 := profiles, perfParams;
      var todo := profiles.Keys;
      ghost var done: set<string> := {};
      RefitSomeEmpty(p0, params0, fit);
      while todo != {}
        invariant Valid() && profiles == p0 && lastFitTime == old(lastFitTime)
        invariant todo + done == p0.Keys && todo !! done
        invariant perfParams == RefitSome(p0, params0, done, fit)
        decreases |todo|
      {
        var app :| app in todo;
        RefitSomeStep(p0, params0, done, app, fit);
        FitForApplication(app, fit);
        todo := todo - {app};
        done := done + {app};
      }
      assert done == p0.Keys;
    }
  }
}
