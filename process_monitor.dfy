/** process_log_file: rebuilds, from the monitor's log, when each job arrived
    and how long each of its epochs took. Each log line is one snapshot of
    the submitted jobs; the model reads lines already decoded from JSON. */
module ProcessMonitor {
  import opened Common

  /** One element of `submitted_jobs`; `Malformed` lacks one of the four
      fields read from it (`name`, `epoch`, `allocation`, `completion_time`). */
  datatype JobEntry = JobEntry(name: string, epoch: int, allocation: nat, completion: Option<real>) | Malformed

  /** A log line: `Unparsable` is one that is not JSON or lacks
      `timestamp` or `submitted_jobs`. */
  datatype LogLine = Unparsable | Record(timestamp: real, submitted: seq<JobEntry>)

  /** `epoch_data[epoch]`. Python epochs hold a reference to their `num_gpu`
      list, and gap epochs share the list of the epoch they were split from,
      so `gpus` is an index into the monitor's store of lists. */
  datatype EpochInfo = EpochInfo(gpus: nat, completion: Option<real>, start: real)

  /** `jobs[name]`; the arrival time is the raw timestamp. */
  datatype JobInfo = JobInfo(arrival: real, epochs: map<int, EpochInfo>)

  /** The locals of `process_log_file`: `jobs`, `job_current_epochs`, and
      the `num_gpu` lists they point to. */
  datatype Monitor = Monitor(jobs: map<string, JobInfo>, current: map<string, int>, lists: seq<seq<nat>>)

  /** A state reached part way, with the exception that interrupted it. */
  datatype Outcome = Outcome(state: Monitor, error: Option<Error>)

  const Empty := Monitor(map[], map[], [])

  predicate IdsOk(m: Monitor)
  {
    forall name, e :: name in m.jobs && e in m.jobs[name].epochs ==> m.jobs[name].epochs[e].gpus < |m.lists|
  }

  /** What holds between lines: every job has a current epoch that has an
      entry, every entry's list exists, and no list holds a count twice. */
  predicate Valid(m: Monitor)
  {
    && m.current.Keys == m.jobs.Keys
    && (forall name :: name in m.jobs ==> m.current[name] in m.jobs[name].epochs)
    && IdsOk(m)
    && (forall i :: 0 <= i < |m.lists| ==> Distinct(m.lists[i]))
  }

  function EpochAt(m: Monitor, name: string, e: int): Option<EpochInfo>
  {
    if name in m.jobs && e in m.jobs[name].epochs then Some(m.jobs[name].epochs[e]) else None
  }

  /* ---------- one job of one line ---------- */

  /** The first sighting of a job: a job seen for the first time arrives now, at this epoch. */
  function Sight(m: Monitor, ts: real, name: string, epoch: int): Monitor
  {
    if name in m.jobs then m else Monitor(m.jobs[name := JobInfo(ts, map[])], m.current[name := epoch], m.lists)
  }

  /** The per-epoch bookkeeping: a new epoch starts now with a fresh list holding this
      allocation's size; a known epoch has the size appended to its (maybe
      shared) list unless the list holds it already. */
  function Note(m: Monitor, ts: real, name: string, epoch: int, n: nat): Monitor
    requires name in m.jobs && IdsOk(m)
  {
    var info := m.jobs[name];
    if epoch !in info.epochs then
      Monitor(m.jobs[name := info.(epochs := info.epochs[epoch := EpochInfo(|m.lists|, None, ts)])], m.current, m.lists + [[n]])
    else
      var id := info.epochs[epoch].gpus;
      if n in m.lists[id] then m else m.(lists := m.lists[id := m.lists[id] + [n]])
  }

  /** One turn of the gap-filling loop over `range(current_epoch, epoch)`. */
  function WriteEpoch(m: Monitor, name: string, cur: int, per: real, start: real, t: int): Outcome
    requires name in m.jobs && cur in m.jobs[name].epochs
  {
    var info := m.jobs[name];
    if t == cur then
      Outcome(m.(jobs := m.jobs[name := info.(epochs := info.epochs[cur := info.epochs[cur].(completion := Some(per))])]), None)
    else if t in info.epochs then Outcome(m, Some(AssertionError))
    else
      Outcome(m.(jobs := m.jobs[name := info.(epochs := info.epochs[t := EpochInfo(info.epochs[cur].gpus, Some(per), start + (t - cur) as real * per)])]), None)
  }

  /** The first `k` turns of that loop, over epochs `cur .. cur + k - 1`. */
  function FillTo(m: Monitor, name: string, cur: int, per: real, start: real, k: nat): (r: Outcome)
    requires name in m.jobs && cur in m.jobs[name].epochs
    ensures name in r.state.jobs && cur in r.state.jobs[name].epochs
  {
    if k == 0 then Outcome(m, None)
    else
      var p := FillTo(m, name, cur, per, start, k - 1);
      if p.error.Some? then p else WriteEpoch(p.state, name, cur, per, start, cur + k - 1)
  }

  /** The advance, once the job has moved to a different epoch: the time
      since the current epoch started is spread evenly over the epochs from
      the current one up to the new one, and the new one becomes current. */
  function Advance(m: Monitor, ts: real, name: string, cur: int, epoch: int): Outcome
    requires name in m.jobs && cur in m.jobs[name].epochs && epoch != cur
  {
    var start := m.jobs[name].epochs[cur].start;
    var per := (ts - start) / (epoch - cur) as real;
    var r := FillTo(m, name, cur, per, start, Max(epoch - cur, 0));
    if r.error.Some? then r else Outcome(r.state.(current := r.state.current[name := epoch]), None)
  }

  /** The body of the loop over `submitted_jobs` for one job. */
  function ObserveJob(m: Monitor, ts: real, e: JobEntry): (r: Outcome)
    requires Valid(m)
    ensures Valid(r.state)
  {
    match e
    case Malformed => Outcome(m, Some(KeyError))
    case JobEntry(name, epoch, n, completion) => Observe(m, ts, name, epoch, n, completion)
  }

  /** The whole job body for a well-formed entry. */
  function Observe(m: Monitor, ts: real, name: string, epoch: int, n: nat, completion: Option<real>): (r: Outcome)
    requires Valid(m)
    ensures Valid(r.state)
  {
    NoteValid(m, ts, name, epoch, n);
    var m2 := Note(Sight(m, ts, name, epoch), ts, name, epoch, n);
    var cur := m2.current[name];
    if epoch > cur || completion.Some? then
      if epoch == cur then Outcome(m2, Some(ZeroDivisionError))
      else
        AdvanceValid(m2, ts, name, cur, epoch);
        Advance(m2, ts, name, cur, epoch)
    else Outcome(m2, None)
  }

  /** The jobs of one line, in order, until one raises. */
  function ObserveAll(m: Monitor, ts: real, es: seq<JobEntry>): (r: Outcome)
    requires Valid(m)
    ensures Valid(r.state)
    decreases |es|
  {
    if es == [] then Outcome(m, None)
    else
      var p := ObserveAll(m, ts, es[..|es| - 1]);
      if p.error.Some? then p else ObserveJob(p.state, ts, es[|es| - 1])
  }

  /** One line: an exception ends the line but keeps what it changed; a
      line that cannot be read changes nothing. */
  function ProcessLine(m: Monitor, line: LogLine): (r: Monitor)
    requires Valid(m)
    ensures Valid(r)
    ensures line.Unparsable? ==> r == m
  {
    if line.Unparsable? then m else ObserveAll(m, line.timestamp, line.submitted).state
  }

  /** The monitor after the given lines. */
  function ProcessLines(lines: seq<LogLine>): (r: Monitor)
    ensures Valid(r)
  {
    if lines == [] then Empty else ProcessLine(ProcessLines(lines[..|lines| - 1]), lines[|lines| - 1])
  }

  /* ---------- the invariant ---------- */

  lemma NoteValid(m: Monitor, ts: real, name: string, epoch: int, n: nat)
    requires Valid(m)
    ensures IdsOk(Sight(m, ts, name, epoch))
    ensures var m2 := Note(Sight(m, ts, name, epoch), ts, name, epoch, n);
      Valid(m2) && epoch in m2.jobs[name].epochs
  {
    var m1 := Sight(m, ts, name, epoch);
    var m2 := Note(m1, ts, name, epoch, n);
    var info := m1.jobs[name];
    if epoch in info.epochs {
      var id := info.epochs[epoch].gpus;
      if n !in m.lists[id] {
        forall i | 0 <= i < |m2.lists| ensures Distinct(m2.lists[i]) {
          if i == id {
            assert Distinct(m.lists[id]);
          }
        }
      }
    } else {
      forall i | 0 <= i < |m2.lists| ensures Distinct(m2.lists[i]) {
        if i < |m.lists| {
          assert m2.lists[i] == m.lists[i];
        }
      }
    }
  }

  /** The gap epochs reuse the current epoch's list, so no list is
      created. */
  lemma {:induction false} FillToFrame(m: Monitor, name: string, cur: int, per: real, start: real, k: nat)
    requires name in m.jobs && cur in m.jobs[name].epochs
    ensures var r := FillTo(m, name, cur, per, start, k).state;
      && r.current == m.current && r.lists == m.lists && r.jobs.Keys == m.jobs.Keys
      && (forall other :: other in m.jobs && other != name ==> r.jobs[other] == m.jobs[other])
      && r.jobs[name].arrival == m.jobs[name].arrival
      && m.jobs[name].epochs.Keys <= r.jobs[name].epochs.Keys
      && r.jobs[name].epochs[cur].gpus == m.jobs[name].epochs[cur].gpus
      && (forall e :: e in r.jobs[name].epochs ==>
            r.jobs[name].epochs[e].gpus == if e in m.jobs[name].epochs then m.jobs[name].epochs[e].gpus else m.jobs[name].epochs[cur].gpus)
  {
    if k > 0 {
      FillToFrame(m, name, cur, per, start, k - 1);
    }
  }

  /** Enough of the frame of the fill loop for the invariant to survive it. */
  predicate FillFrame(m: Monitor, r: Monitor, name: string, cur: int)
    requires name in m.jobs && cur in m.jobs[name].epochs
  {
    && r.current == m.current && r.lists == m.lists && r.jobs.Keys == m.jobs.Keys
    && (forall other :: other in m.jobs && other != name ==> r.jobs[other] == m.jobs[other])
    && m.jobs[name].epochs.Keys <= r.jobs[name].epochs.Keys
    && (forall e :: e in r.jobs[name].epochs ==>
          r.jobs[name].epochs[e].gpus == if e in m.jobs[name].epochs then m.jobs[name].epochs[e].gpus else m.jobs[name].epochs[cur].gpus)
  }

  lemma FillFrameValid(m: Monitor, r: Monitor, name: string, cur: int)
    requires Valid(m) && name in m.jobs && cur in m.jobs[name].epochs
    requires FillFrame(m, r, name, cur)
    ensures Valid(r)
  {
    forall other, e | other in r.jobs && e in r.jobs[other].epochs ensures r.jobs[other].epochs[e].gpus < |r.lists| {
      if other != name {
        assert r.jobs[other] == m.jobs[other];
      } else if e !in m.jobs[name].epochs {
        assert r.jobs[name].epochs[e].gpus == m.jobs[name].epochs[cur].gpus;
      }
    }
    forall other | other in r.jobs ensures r.current[other] in r.jobs[other].epochs {
      if other != name {
        assert r.jobs[other] == m.jobs[other];
      }
    }
  }

  lemma MoveCurrentValid(r: Monitor, name: string, epoch: int)
    requires Valid(r) && name in r.jobs && epoch in r.jobs[name].epochs
    ensures Valid(r.(current := r.current[name := epoch]))
  {
  }

  lemma AdvanceValid(m: Monitor, ts: real, name: string, cur: int, epoch: int)
    requires Valid(m) && name in m.jobs && cur in m.jobs[name].epochs && epoch != cur
    requires epoch in m.jobs[name].epochs
    ensures Valid(Advance(m, ts, name, cur, epoch).state)
  {
    var start := m.jobs[name].epochs[cur].start;
    var per := (ts - start) / (epoch - cur) as real;
    var k := Max(epoch - cur, 0);
    var r := FillTo(m, name, cur, per, start, k);
    assert FillFrame(m, r.state, name, cur) by {
      FillToFrame(m, name, cur, per, start, k);
    }
    FillFrameValid(m, r.state, name, cur);
    if r.error.None? {
      MoveCurrentValid(r.state, name, epoch);
    }
  }

  /** Sight and Note together: the job gets an entry for this epoch; no
      other job, no arrival and no existing epoch entry changes. */
  lemma NoteFrame(m: Monitor, ts: real, name: string, epoch: int, n: nat)
    requires Valid(m)
    ensures IdsOk(Sight(m, ts, name, epoch))
    ensures var m2 := Note(Sight(m, ts, name, epoch), ts, name, epoch, n);
      && Valid(m2) && name in m2.jobs && epoch in m2.jobs[name].epochs
      && m2.jobs.Keys == m.jobs.Keys + {name}
      && (forall other :: other in m.jobs && other != name ==> m2.jobs[other] == m.jobs[other])
      && m2.current == (if name in m.jobs then m.current else m.current[name := epoch])
      && m2.jobs[name].arrival == (if name in m.jobs then m.jobs[name].arrival else ts)
      && (name in m.jobs ==> forall k :: k in m.jobs[name].epochs ==> k in m2.jobs[name].epochs && m2.jobs[name].epochs[k] == m.jobs[name].epochs[k])
      && (name in m.jobs ==> m2.jobs[name].epochs.Keys == m.jobs[name].epochs.Keys + {epoch})
      && |m2.lists| >= |m.lists|
  {
    NoteValid(m, ts, name, epoch, n);
    SightFrame(m, ts, name, epoch);
    NoteOnlyFrame(Sight(m, ts, name, epoch), ts, name, epoch, n);
  }

  lemma SightFrame(m: Monitor, ts: real, name: string, epoch: int)
    ensures var m1 := Sight(m, ts, name, epoch);
      && name in m1.jobs && m1.lists == m.lists && m1.jobs.Keys == m.jobs.Keys + {name}
      && (forall other :: other in m.jobs && other != name ==> m1.jobs[other] == m.jobs[other])
      && m1.current == (if name in m.jobs then m.current else m.current[name := epoch])
      && m1.jobs[name].arrival == (if name in m.jobs then m.jobs[name].arrival else ts)
      && (name in m.jobs ==> m1.jobs[name] == m.jobs[name])
  {
  }

  lemma NoteOnlyFrame(m: Monitor, ts: real, name: string, epoch: int, n: nat)
    requires name in m.jobs && IdsOk(m)
    ensures var m2 := Note(m, ts, name, epoch, n);
      && m2.jobs.Keys == m.jobs.Keys && m2.current == m.current
      && (forall other :: other in m.jobs && other != name ==> m2.jobs[other] == m.jobs[other])
      && m2.jobs[name].arrival == m.jobs[name].arrival
      && (forall k :: k in m.jobs[name].epochs ==> k in m2.jobs[name].epochs && m2.jobs[name].epochs[k] == m.jobs[name].epochs[k])
      && m2.jobs[name].epochs.Keys == m.jobs[name].epochs.Keys + {epoch}
      && |m2.lists| >= |m.lists|
  {
  }

  /* ---------- what one job does ---------- */

  lemma ObserveUnfold(m: Monitor, ts: real, name: string, epoch: int, n: nat, completion: Option<real>)
    requires Valid(m)
    ensures IdsOk(Sight(m, ts, name, epoch))
    ensures var m2 := Note(Sight(m, ts, name, epoch), ts, name, epoch, n);
      && name in m2.current && name in m2.jobs && m2.current[name] in m2.jobs[name].epochs
      && ObserveJob(m, ts, JobEntry(name, epoch, n, completion)) ==
         var cur := m2.current[name];
         if epoch > cur || completion.Some? then
           (if epoch == cur then Outcome(m2, Some(ZeroDivisionError)) else Advance(m2, ts, name, cur, epoch))
         else Outcome(m2, None)
  {
    NoteFrame(m, ts, name, epoch, n);
  }

  /** An advance keeps every job and every arrival. */
  lemma AdvanceKeeps(m: Monitor, ts: real, name: string, cur: int, epoch: int)
    requires name in m.jobs && cur in m.jobs[name].epochs && epoch != cur
    ensures var r := Advance(m, ts, name, cur, epoch).state;
      r.jobs.Keys == m.jobs.Keys && forall n :: n in m.jobs ==> r.jobs[n].arrival == m.jobs[n].arrival
  {
    var start := m.jobs[name].epochs[cur].start;
    FillToFrame(m, name, cur, (ts - start) / (epoch - cur) as real, start, Max(epoch - cur, 0));
  }

  /** An advance leaves the entry of the epoch it moves to, and every list,
      as they were. */
  lemma AdvanceKeepsTarget(m: Monitor, ts: real, name: string, cur: int, epoch: int)
    requires name in m.jobs && cur in m.jobs[name].epochs && epoch != cur
    ensures EpochAt(Advance(m, ts, name, cur, epoch).state, name, epoch) == EpochAt(m, name, epoch)
    ensures Advance(m, ts, name, cur, epoch).state.lists == m.lists
  {
    var start := m.jobs[name].epochs[cur].start;
    var per := (ts - start) / (epoch - cur) as real;
    FillToFrame(m, name, cur, per, start, Max(epoch - cur, 0));
    FillToOutside(m, name, cur, per, start, Max(epoch - cur, 0), epoch);
  }

  /** Arrival times are written once: a job already known keeps its arrival
      whatever happens, and a job seen for the first time arrives at the
      line's timestamp with that entry's epoch as its current one. */
  lemma ObserveJobArrival(m: Monitor, ts: real, e: JobEntry)
    requires Valid(m)
    ensures forall n :: n in m.jobs ==> n in ObserveJob(m, ts, e).state.jobs && ObserveJob(m, ts, e).state.jobs[n].arrival == m.jobs[n].arrival
    ensures e.JobEntry? && e.name !in m.jobs ==>
      var r := ObserveJob(m, ts, e).state;
      e.name in r.jobs && r.jobs[e.name].arrival == ts && r.current[e.name] == e.epoch
  {
    if e.JobEntry? {
      var name, epoch := e.name, e.epoch;
      NoteFrame(m, ts, name, epoch, e.allocation);
      ObserveUnfold(m, ts, name, epoch, e.allocation, e.completion);
      var m2 := Note(Sight(m, ts, name, epoch), ts, name, epoch, e.allocation);
      var cur := m2.current[name];
      if (epoch > cur || e.completion.Some?) && epoch != cur {
        AdvanceKeeps(m2, ts, name, cur, epoch);
      }
    }
  }

  /** The first sighting of an epoch records the allocation's size in a
      list of its own, no completion time, and the line's timestamp as its
      start, and nothing later in the same step overwrites them. */
  lemma ObserveJobNewEpoch(m: Monitor, ts: real, e: JobEntry)
    requires Valid(m) && e.JobEntry? && EpochAt(m, e.name, e.epoch).None?
    ensures var r := ObserveJob(m, ts, e).state;
      && EpochAt(r, e.name, e.epoch) == Some(EpochInfo(|m.lists|, None, ts))
      && |m.lists| < |r.lists| && r.lists[|m.lists|] == [e.allocation]
  {
    var name, epoch := e.name, e.epoch;
    NoteFrame(m, ts, name, epoch, e.allocation);
    ObserveUnfold(m, ts, name, epoch, e.allocation, e.completion);
    var m2 := Note(Sight(m, ts, name, epoch), ts, name, epoch, e.allocation);
    assert EpochAt(m2, name, epoch) == Some(EpochInfo(|m.lists|, None, ts)) && m2.lists == m.lists + [[e.allocation]];
    var cur := m2.current[name];
    if (epoch > cur || e.completion.Some?) && epoch != cur {
      AdvanceKeepsTarget(m2, ts, name, cur, epoch);
    }
  }

  /** An allocation size is added to a known epoch's list only when the list
      does not hold it yet, and that list object is the one changed. */
  lemma NoteKnownEpoch(m: Monitor, ts: real, name: string, epoch: int, n: nat)
    requires Valid(m) && EpochAt(m, name, epoch).Some?
    ensures var id := m.jobs[name].epochs[epoch].gpus;
      Note(Sight(m, ts, name, epoch), ts, name, epoch, n) ==
        if n in m.lists[id] then m else m.(lists := m.lists[id := m.lists[id] + [n]])
  {
  }

  lemma {:induction false} FillToOutside(m: Monitor, name: string, cur: int, per: real, start: real, k: nat, e: int)
    requires name in m.jobs && cur in m.jobs[name].epochs
    requires e < cur || e >= cur + k
    ensures EpochAt(FillTo(m, name, cur, per, start, k).state, name, e) == EpochAt(m, name, e)
  {
    if k > 0 {
      FillToOutside(m, name, cur, per, start, k - 1, e);
      FillToFrame(m, name, cur, per, start, k - 1);
    }
  }

  /** One turn of the gap-filling loop writes epoch `t` alone, and raises
      exactly when `t` is a gap epoch that already has an entry. */
  lemma WriteEpochFacts(m: Monitor, name: string, cur: int, per: real, start: real, t: int)
    requires name in m.jobs && cur in m.jobs[name].epochs
    ensures var r := WriteEpoch(m, name, cur, per, start, t);
      && name in r.state.jobs
      && (forall e :: e != t ==> EpochAt(r.state, name, e) == EpochAt(m, name, e))
      && (r.error.None? <==> t == cur || t !in m.jobs[name].epochs)
      && (r.error.Some? ==> r.error == Some(AssertionError))
      && (r.error.None? ==>
            && t in r.state.jobs[name].epochs
            && r.state.jobs[name].epochs[t].completion == Some(per)
            && r.state.jobs[name].epochs[t].gpus == m.jobs[name].epochs[cur].gpus
            && (t != cur ==> t !in m.jobs[name].epochs && r.state.jobs[name].epochs[t].start == start + (t - cur) as real * per))
  {
  }

  lemma {:induction false} FillToError(m: Monitor, name: string, cur: int, per: real, start: real, k: nat)
    requires name in m.jobs && cur in m.jobs[name].epochs
    ensures FillTo(m, name, cur, per, start, k).error in {None, Some(AssertionError)}
  {
    if k > 0 {
      FillToError(m, name, cur, per, start, k - 1);
      var p := FillTo(m, name, cur, per, start, k - 1);
      if p.error.None? {
        WriteEpochFacts(p.state, name, cur, per, start, cur + k - 1);
      }
    }
  }

  /** The gap-filling loop over epochs `cur .. cur + k - 1` runs to the end
      exactly when none of the gap epochs after `cur` has an entry yet. */
  lemma {:induction false} FillToOk(m: Monitor, name: string, cur: int, per: real, start: real, k: nat)
    requires name in m.jobs && cur in m.jobs[name].epochs
    ensures FillTo(m, name, cur, per, start, k).error.None? <==>
      forall t :: cur < t < cur + k ==> t !in m.jobs[name].epochs
  {
    if k > 0 {
      FillToOk(m, name, cur, per, start, k - 1);
      var p := FillTo(m, name, cur, per, start, k - 1);
      if p.error.None? {
        FillToOutside(m, name, cur, per, start, k - 1, cur + k - 1);
        WriteEpochFacts(p.state, name, cur, per, start, cur + k - 1);
      }
    }
  }

  /** What the gap-filling loop leaves at epoch `t`, starting from `m`:
      the completion time `per` and the current epoch's list, and for a gap
      epoch a fresh entry starting where the preceding shares end. */
  predicate Filled(r: Monitor, m: Monitor, name: string, cur: int, per: real, start: real, t: int)
    requires name in m.jobs && cur in m.jobs[name].epochs
  {
    var x := EpochAt(r, name, t);
    && x.Some?
    && x.value.completion == Some(per)
    && x.value.gpus == m.jobs[name].epochs[cur].gpus
    && (t != cur ==> t !in m.jobs[name].epochs && x.value.start == start + (t - cur) as real * per)
  }

  /** Filled for every epoch from `cur` up to, but not including, `hi`. */
  predicate FilledUpTo(r: Monitor, m: Monitor, name: string, cur: int, per: real, start: real, hi: int)
    requires name in m.jobs && cur in m.jobs[name].epochs
  {
    forall t :: cur <= t < hi ==> Filled(r, m, name, cur, per, start, t)
  }

  lemma FillStep(m: Monitor, p: Monitor, name: string, cur: int, per: real, start: real, t: int)
    requires name in m.jobs && cur in m.jobs[name].epochs
    requires name in p.jobs && cur in p.jobs[name].epochs
    requires p.jobs[name].epochs[cur].gpus == m.jobs[name].epochs[cur].gpus
    requires m.jobs[name].epochs.Keys <= p.jobs[name].epochs.Keys
    requires WriteEpoch(p, name, cur, per, start, t).error.None?
    ensures Filled(WriteEpoch(p, name, cur, per, start, t).state, m, name, cur, per, start, t)
    ensures forall e :: e != t ==> EpochAt(WriteEpoch(p, name, cur, per, start, t).state, name, e) == EpochAt(p, name, e)
  {
    WriteEpochFacts(p, name, cur, per, start, t);
  }

  /** When the gap-filling loop finishes, every epoch it visited has
      completed in `per`, and the gap epochs were new, share the current
      epoch's list and start where the preceding epochs' shares end. */
  lemma {:induction false} FillToDone(m: Monitor, name: string, cur: int, per: real, start: real, k: nat)
    requires name in m.jobs && cur in m.jobs[name].epochs
    ensures var r := FillTo(m, name, cur, per, start, k);
      r.error.None? ==> FilledUpTo(r.state, m, name, cur, per, start, cur + k)
  {
    if k > 0 {
      var p := FillTo(m, name, cur, per, start, k - 1);
      if p.error.None? {
        FillToDone(m, name, cur, per, start, k - 1);
        FillToFrame(m, name, cur, per, start, k - 1);
        var r := FillTo(m, name, cur, per, start, k);
        assert r == WriteEpoch(p.state, name, cur, per, start, cur + k - 1);
        if r.error.None? {
          FillStep(m, p.state, name, cur, per, start, cur + k - 1);
          forall t | cur <= t < cur + k
            ensures Filled(r.state, m, name, cur, per, start, t)
          {
            if t < cur + k - 1 {
              assert EpochAt(r.state, name, t) == EpochAt(p.state, name, t);
              assert Filled(p.state, m, name, cur, per, start, t);
            }
          }
        }
      }
    }
  }

  /** The sum of the completion times recorded for epochs `lo .. lo + k - 1`. */
  function TotalCompletion(epochs: map<int, EpochInfo>, lo: int, k: nat): real
  {
    if k == 0 then 0.0
    else TotalCompletion(epochs, lo, k - 1) + (if lo + k - 1 in epochs then UnwrapOr(epochs[lo + k - 1].completion, 0.0) else 0.0)
  }

  lemma {:induction false} TotalOfEqualShares(epochs: map<int, EpochInfo>, lo: int, k: nat, per: real)
    requires forall t :: lo <= t < lo + k ==> t in epochs && epochs[t].completion == Some(per)
    ensures TotalCompletion(epochs, lo, k) == k as real * per
  {
    if k > 0 {
      TotalOfEqualShares(epochs, lo, k - 1, per);
    }
  }

  /** The advance moving forward from `cur` to `epoch`: it completes exactly
      when no gap epoch has an entry yet. */
  lemma AdvanceForward(m: Monitor, ts: real, name: string, cur: int, epoch: int)
    requires name in m.jobs && cur in m.jobs[name].epochs && epoch > cur
    ensures var r := Advance(m, ts, name, cur, epoch);
      var start := m.jobs[name].epochs[cur].start;
      var per := (ts - start) / (epoch - cur) as real;
      && (r.error.None? <==> forall t :: cur < t < epoch ==> t !in m.jobs[name].epochs)
      && (r.error.Some? ==> r.error == Some(AssertionError))
      && (r.error.None? ==>
            && name in r.state.current && r.state.current[name] == epoch && name in r.state.jobs
            && TotalCompletion(r.state.jobs[name].epochs, cur, epoch - cur) == ts - start
            && FilledUpTo(r.state, m, name, cur, per, start, epoch))
  {
    var start := m.jobs[name].epochs[cur].start;
    var per := (ts - start) / (epoch - cur) as real;
    var k := epoch - cur;
    FillToError(m, name, cur, per, start, k);
    FillToOk(m, name, cur, per, start, k);
    FillToDone(m, name, cur, per, start, k);
    var f := FillTo(m, name, cur, per, start, k);
    if f.error.None? {
      var r := Advance(m, ts, name, cur, epoch);
      assert r.state == f.state.(current := f.state.current[name := epoch]);
      forall t | cur <= t < epoch
        ensures t in f.state.jobs[name].epochs && f.state.jobs[name].epochs[t].completion == Some(per)
        ensures Filled(r.state, m, name, cur, per, start, t)
      {
        assert Filled(f.state, m, name, cur, per, start, t);
      }
      assert r.state.jobs == f.state.jobs;
      SharesAddUp(f.state.jobs[name].epochs, cur, k, ts - start);
    }
  }

  /** `k` epochs that each completed in `total / k` add up to `total`. */
  lemma SharesAddUp(epochs: map<int, EpochInfo>, lo: int, k: nat, total: real)
    requires k > 0
    requires forall t :: lo <= t < lo + k ==> t in epochs && epochs[t].completion == Some(total / k as real)
    ensures TotalCompletion(epochs, lo, k) == total
  {
    TotalOfEqualShares(epochs, lo, k, total / k as real);
    EqualSharesAddUp(total, k);
  }

  /** `k` equal shares of `total` add up to `total` again. */
  lemma EqualSharesAddUp(total: real, k: int)
    requires k > 0
    ensures k as real * (total / k as real) == total
  {
  }

  /** A job that moves on from its current epoch `cur` to a later `epoch`
      gives each epoch from `cur` up to `epoch` the same share
      of the time since `cur` started, so the shares add up to exactly that
      time; the gap epochs are created sharing `cur`'s list, and `epoch`
      becomes current. It raises, at the assertion that a gap epoch is new,
      exactly when some gap epoch already has an entry. */
  lemma ObserveJobAdvance(m: Monitor, ts: real, e: JobEntry)
    requires Valid(m) && e.JobEntry? && e.name in m.jobs
    requires e.epoch > m.current[e.name]
    ensures var r, cur := ObserveJob(m, ts, e), m.current[e.name];
      var start := m.jobs[e.name].epochs[cur].start;
      var per := (ts - start) / (e.epoch - cur) as real;
      && (r.error.None? <==> forall t :: cur < t < e.epoch ==> t !in m.jobs[e.name].epochs)
      && (r.error.Some? ==> r.error == Some(AssertionError))
      && (r.error.None? ==>
            && r.state.current[e.name] == e.epoch
            && TotalCompletion(r.state.jobs[e.name].epochs, cur, e.epoch - cur) == ts - start
            && FilledUpTo(r.state, m, e.name, cur, per, start, e.epoch))
  {
    var name, epoch := e.name, e.epoch;
    var m2 := Note(Sight(m, ts, name, epoch), ts, name, epoch, e.allocation);
    var cur := m.current[name];
    var r := ObserveJob(m, ts, e);
    assert && name in m2.jobs && cur in m2.jobs[name].epochs
           && m2.jobs[name].epochs[cur] == m.jobs[name].epochs[cur]
           && m.jobs[name].epochs.Keys <= m2.jobs[name].epochs.Keys
           && m2.jobs[name].epochs.Keys <= m.jobs[name].epochs.Keys + {epoch}
           && r == Advance(m2, ts, name, cur, epoch) by {
      NoteFrame(m, ts, name, epoch, e.allocation);
      ObserveUnfold(m, ts, name, epoch, e.allocation, e.completion);
    }
    AdvanceForwardFrom(m, m2, ts, name, cur, epoch);
  }

  /** AdvanceForward, with Filled stated relative to an earlier state. */
  lemma AdvanceForwardFrom(m: Monitor, m2: Monitor, ts: real, name: string, cur: int, epoch: int)
    requires name in m.jobs && cur in m.jobs[name].epochs && epoch > cur
    requires name in m2.jobs && cur in m2.jobs[name].epochs
    requires m2.jobs[name].epochs[cur] == m.jobs[name].epochs[cur]
    requires m.jobs[name].epochs.Keys <= m2.jobs[name].epochs.Keys
    requires m2.jobs[name].epochs.Keys <= m.jobs[name].epochs.Keys + {epoch}
    ensures var r := Advance(m2, ts, name, cur, epoch);
      var start := m.jobs[name].epochs[cur].start;
      var per := (ts - start) / (epoch - cur) as real;
      && (r.error.None? <==> forall t :: cur < t < epoch ==> t !in m.jobs[name].epochs)
      && (r.error.Some? ==> r.error == Some(AssertionError))
      && (r.error.None? ==>
            && r.state.current[name] == epoch
            && TotalCompletion(r.state.jobs[name].epochs, cur, epoch - cur) == ts - start
            && FilledUpTo(r.state, m, name, cur, per, start, epoch))
  {
    AdvanceForward(m2, ts, name, cur, epoch);
    var r := Advance(m2, ts, name, cur, epoch);
    if r.error.None? {
      var start := m.jobs[name].epochs[cur].start;
      var per := (ts - start) / (epoch - cur) as real;
      forall t | cur <= t < epoch
        ensures Filled(r.state, m, name, cur, per, start, t)
      {
        FilledRebase(r.state, m2, m, name, cur, per, start, t);
      }
    }
  }

  /** Filled relative to a later state is Filled relative to an earlier one
      that had fewer epochs and the same current entry. */
  lemma FilledRebase(r: Monitor, m2: Monitor, m: Monitor, name: string, cur: int, per: real, start: real, t: int)
    requires name in m.jobs && cur in m.jobs[name].epochs
    requires name in m2.jobs && cur in m2.jobs[name].epochs
    requires m2.jobs[name].epochs[cur] == m.jobs[name].epochs[cur]
    requires m.jobs[name].epochs.Keys <= m2.jobs[name].epochs.Keys
    requires Filled(r, m2, name, cur, per, start, t)
    ensures Filled(r, m, name, cur, per, start, t)
  {
  }

  /** A completion reported at the current epoch divides by zero when the time per epoch is computed:
      the line stops there, keeping what this job's entry had already
      recorded, and the current epoch stays. */
  lemma ObserveJobZeroDivision(m: Monitor, ts: real, e: JobEntry)
    requires Valid(m) && e.JobEntry? && e.completion.Some?
    requires e.name in m.jobs ==> m.current[e.name] == e.epoch
    ensures ObserveJob(m, ts, e) == Outcome(Note(Sight(m, ts, e.name, e.epoch), ts, e.name, e.epoch, e.allocation), Some(ZeroDivisionError))
    ensures ObserveJob(m, ts, e).state.current == m.current[e.name := e.epoch]
  {
    NoteValid(m, ts, e.name, e.epoch, e.allocation);
  }

  /** A completion reported at an epoch before the current one fills
      nothing (the range of gap epochs is empty) and moves the current epoch
      back. */
  lemma ObserveJobBackward(m: Monitor, ts: real, e: JobEntry)
    requires Valid(m) && e.JobEntry? && e.completion.Some? && e.name in m.jobs
    requires e.epoch < m.current[e.name]
    ensures var m2 := Note(Sight(m, ts, e.name, e.epoch), ts, e.name, e.epoch, e.allocation);
      ObserveJob(m, ts, e) == Outcome(m2.(current := m.current[e.name := e.epoch]), None)
  {
    NoteFrame(m, ts, e.name, e.epoch, e.allocation);
  }

  /** After an exception the rest of the line is skipped. */
  lemma {:induction false} ObserveAllStops(m: Monitor, ts: real, es: seq<JobEntry>, n: nat)
    requires Valid(m) && n <= |es| && ObserveAll(m, ts, es[..n]).error.Some?
    ensures ObserveAll(m, ts, es) == ObserveAll(m, ts, es[..n])
    decreases |es|
  {
    if n == |es| {
      assert es[..n] == es;
    } else {
      assert es[..|es| - 1][..n] == es[..n];
      ObserveAllStops(m, ts, es[..|es| - 1], n);
    }
  }

  /** A line keeps the arrival of every job already known. */
  lemma {:induction false} ObserveAllArrival(m: Monitor, ts: real, es: seq<JobEntry>)
    requires Valid(m)
    ensures forall n :: n in m.jobs ==> n in ObserveAll(m, ts, es).state.jobs && ObserveAll(m, ts, es).state.jobs[n].arrival == m.jobs[n].arrival
    decreases |es|
  {
    if es != [] {
      ObserveAllArrival(m, ts, es[..|es| - 1]);
      var p := ObserveAll(m, ts, es[..|es| - 1]);
      if p.error.None? {
        ObserveJobArrival(p.state, ts, es[|es| - 1]);
      }
    }
  }

  /** Later lines never change an arrival time. */
  lemma {:induction false} ArrivalStable(lines: seq<LogLine>, i: nat)
    requires i <= |lines|
    ensures forall n :: n in ProcessLines(lines[..i]).jobs ==>
      n in ProcessLines(lines).jobs && ProcessLines(lines).jobs[n].arrival == ProcessLines(lines[..i]).jobs[n].arrival
    decreases |lines|
  {
    if i == |lines| {
      assert lines[..i] == lines;
    } else {
      var prev := lines[..|lines| - 1];
      assert prev[..i] == lines[..i];
      ArrivalStable(prev, i);
      var line := lines[|lines| - 1];
      if line.Record? {
        ObserveAllArrival(ProcessLines(prev), line.timestamp, line.submitted);
      }
    }
  }

  /* ---------- the imperative loops ---------- */

  /** The loop `for t_epoch in range(cur, cur + k)`. */
  method FillEpochs(m: Monitor, name: string, cur: int, per: real, start: real, k: nat) returns (r: Outcome)
    requires name in m.jobs && cur in m.jobs[name].epochs
    ensures r == FillTo(m, name, cur, per, start, k)
  {
    var s := m;
    var i := 0;
    while i < k
      invariant 0 <= i <= k
      invariant FillTo(m, name, cur, per, start, i) == Outcome(s, None)
    {
      var t := cur + i;
      assert FillTo(m, name, cur, per, start, i + 1) == WriteEpoch(s, name, cur, per, start, t);
      var info := s.jobs[name];
      if t == cur {
        s := s.(jobs := s.jobs[name := info.(epochs := info.epochs[cur := info.epochs[cur].(completion := Some(per))])]);
      } else {
        if t in info.epochs {
          FillToStops(m, name, cur, per, start, i + 1, k);
          return Outcome(s, Some(AssertionError));
        }
        s := s.(jobs := s.jobs[name := info.(epochs := info.epochs[t := EpochInfo(info.epochs[cur].gpus, Some(per), start + (t - cur) as real * per)])]);
      }
      i := i + 1;
    }
    return Outcome(s, None);
  }

  lemma {:induction false} FillToStops(m: Monitor, name: string, cur: int, per: real, start: real, n: nat, k: nat)
    requires name in m.jobs && cur in m.jobs[name].epochs && n <= k
    requires FillTo(m, name, cur, per, start, n).error.Some?
    ensures FillTo(m, name, cur, per, start, k) == FillTo(m, name, cur, per, start, n)
    decreases k
  {
    if n < k {
      FillToStops(m, name, cur, per, start, n, k - 1);
    }
  }

  /** One job of one line, updating the monitor step by step. */
  method ObserveJobStep(m: Monitor, ts: real, e: JobEntry) returns (r: Outcome)
    requires Valid(m)
    ensures r == ObserveJob(m, ts, e)
  {
    if e.Malformed? {
      return Outcome(m, Some(KeyError));
    }
    var name, epoch, n := e.name, e.epoch, e.allocation;
    ObserveUnfold(m, ts, name, epoch, n, e.completion);
    var s := m;
    if name !in s.jobs {
      s := Monitor(s.jobs[name := JobInfo(ts, map[])], s.current[name := epoch], s.lists);
    }
    s := NoteStep(s, ts, name, epoch, n);
    var cur := s.current[name];
    if epoch > cur || e.completion.Some? {
      if epoch == cur {
        return Outcome(s, Some(ZeroDivisionError));
      }
      r := AdvanceStep(s, ts, name, cur, epoch);
      return;
    }
    return Outcome(s, None);
  }

  /** The per-epoch bookkeeping on the monitor's own state. */
  method NoteStep(m: Monitor, ts: real, name: string, epoch: int, n: nat) returns (s: Monitor)
    requires name in m.jobs && IdsOk(m)
    ensures s == Note(m, ts, name, epoch, n)
  {
    s := m;
    var info := s.jobs[name];
    if epoch !in info.epochs {
      s := Monitor(s.jobs[name := info.(epochs := info.epochs[epoch := EpochInfo(|s.lists|, None, ts)])], s.current, s.lists + [[n]]);
    } else {
      var id := info.epochs[epoch].gpus;
      if n !in s.lists[id] {
        s := s.(lists := s.lists[id := s.lists[id] + [n]]);
      }
    }
  }

  /** The advance on the monitor's own state. */
  method AdvanceStep(m: Monitor, ts: real, name: string, cur: int, epoch: int) returns (r: Outcome)
    requires name in m.jobs && cur in m.jobs[name].epochs && epoch != cur
    ensures r == Advance(m, ts, name, cur, epoch)
  {
    var start := m.jobs[name].epochs[cur].start;
    var per := (ts - start) / (epoch - cur) as real;
    r := FillEpochs(m, name, cur, per, start, Max(epoch - cur, 0));
    if r.error.Some? {
      return;
    }
    r := Outcome(r.state.(current := r.state.current[name := epoch]), None);
  }

  /** `process_log_file` over the decoded lines of the log. */
  method ProcessLogFile(lines: seq<LogLine>) returns (jobs: map<string, JobInfo>, lists: seq<seq<nat>>)
    ensures jobs == ProcessLines(lines).jobs && lists == ProcessLines(lines).lists
  {
    var m := Empty;
    var i := 0;
    while i < |lines|
      invariant 0 <= i <= |lines| && m == ProcessLines(lines[..i])
    {
      assert lines[..i + 1][..i] == lines[..i];
      var line := lines[i];
      if line.Record? {
        var r := ObserveLine(m, line.timestamp, line.submitted);
        m := r.state;
      }
      i := i + 1;
    }
    assert lines[..|lines|] == lines;
    return m.jobs, m.lists;
  }

  /** The loop over the `submitted_jobs` of one line, which an exception ends. */
  method ObserveLine(m: Monitor, ts: real, es: seq<JobEntry>) returns (r: Outcome)
    requires Valid(m)
    ensures r == ObserveAll(m, ts, es)
  {
    var s := m;
    var j := 0;
    while j < |es|
      invariant 0 <= j <= |es| && Valid(s)
      invariant ObserveAll(m, ts, es[..j]) == Outcome(s, None)
    {
      assert es[..j + 1][..j] == es[..j];
      r := ObserveJobStep(s, ts, es[j]);
      if r.error.Some? {
        ObserveAllStops(m, ts, es, j + 1);
        return;
      }
      s := r.state;
      j := j + 1;
    }
    assert es[..|es|] == es;
    r := Outcome(s, None);
  }
}
