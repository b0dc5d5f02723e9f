/** Whole scans of the runner: recover, observe every source, work off what is due and
    refresh results, until all is done or the lease is lost. */
module AutomationTicks {
  import opened Wrappers
  import opened Messaging
  import opened Automation
  import Runs = AutomationRuns
  import opened AutomationRunner

  datatype Setting = Setting(activatedAt: int, now: int, rebaseline: bool, hour: int)

  /** What one scan does: the untied places it ties, the sources it observes one after the
      other, the due jobs it runs over up to a place, and the results it refreshes. A scan
      that lost its lease simply does less. */
  datatype Tick = Tick(
    setting: Setting,
    byId: seq<JobKey>, attempts: Attempts, rows: seq<nat>,
    sources: seq<Source>,
    byDue: seq<JobKey>, turns: JobKey -> Turn, upTo: nat,
    refreshed: seq<(JobKey, Attempt)>)
  {
    predicate Fits() {
      Places(byId, rows) && upTo <= |byDue|
    }
  }

  function ObserveSource(setting: Setting, source: Source): Runs.Action {
    Runs.Observe(source, setting.activatedAt, setting.now, setting.rebaseline, setting.hour)
  }

  function ObservedAll(store: Runs.Store, setting: Setting, sources: seq<Source>): Runs.Store {
    if sources == [] then store
    else
      Runs.Step(ObservedAll(store, setting, sources[..|sources| - 1]),
                ObserveSource(setting, sources[|sources| - 1]))
  }

  /** The refreshed result of a dispatch is written on its job. */
  function RefreshedOne(jobs: Jobs, key: JobKey, result: Attempt): Jobs {
    if key in jobs && jobs[key].dispatchId == Some(result.id) then Written(jobs, key, TieOf(result)) else jobs
  }

  function RefreshedAll(jobs: Jobs, results: seq<(JobKey, Attempt)>): Jobs {
    if results == [] then jobs
    else
      var last := results[|results| - 1];
      RefreshedOne(RefreshedAll(jobs, results[..|results| - 1]), last.0, last.1)
  }

  /** The jobs and targets when every source was observed. */
  function Reconciled(store: Runs.Store, t: Tick): Runs.Store
    requires t.Fits()
  {
    ObservedAll(store.(jobs := TiedAll(store.jobs, t.byId, t.attempts, t.rows)), t.setting, t.sources)
  }

  function Worked(store: Runs.Store, t: Tick): Work
    requires t.Fits()
  {
    WorkedOff(Reconciled(store, t).jobs, t.byDue, t.setting.now, t.turns, 0, t.upTo)
  }

  /** What a scan leaves behind. */
  function Ticked(store: Runs.Store, t: Tick): Runs.Store
    requires t.Fits()
  {
    Reconciled(store, t).(jobs := RefreshedAll(Worked(store, t).jobs, t.refreshed))
  }

  // ---------------------------------------------------------------- the scan

  function StoreOf(runner: Runner): Runs.Store
    reads runner.store
  {
    Runs.Store(runner.store.jobs, runner.store.targets)
  }

  /** A scan did part of what was there to do. */
  ghost predicate PartOf(done: Tick, t: Tick) {
    && done == t.(rows := done.rows, sources := done.sources, upTo := done.upTo, refreshed := done.refreshed)
    && done.Fits() && done.sources <= t.sources && done.refreshed <= t.refreshed
  }

  /** One observation takes the reconciliation on by one source. */
  lemma OneObserved(start: Runs.Store, before: Runs.Store, setting: Setting, sources: seq<Source>, n: nat,
                    after: Runs.Store)
    requires n < |sources| && before == ObservedAll(start, setting, sources[..n])
    requires var o := Runs.Observing(before, sources[n], setting.activatedAt, setting.now, setting.rebaseline,
                                     setting.hour);
             Observed(before.jobs, o, after.jobs)
             && after.targets == before.targets[sources[n].subject := ObservedTarget(o)]
    ensures after == ObservedAll(start, setting, sources[..n + 1])
  {
    var o := Runs.Observing(before, sources[n], setting.activatedAt, setting.now, setting.rebaseline, setting.hour);
    Runs.ObservedJobsIsObserved(before.jobs, o);
    SameJobs(after.jobs, Runs.ObservedJobs(before.jobs, o), before.jobs, o);
    assert after == Runs.Step(before, ObserveSource(setting, sources[n]));
    ObservedNext(start, setting, sources, n);
  }

  lemma ObservedNext(start: Runs.Store, setting: Setting, sources: seq<Source>, n: nat)
    requires n < |sources|
    ensures ObservedAll(start, setting, sources[..n + 1])
            == Runs.Step(ObservedAll(start, setting, sources[..n]), ObserveSource(setting, sources[n]))
  {
    assert sources[..n + 1][..n] == sources[..n];
  }

  lemma SameJobs(a: Jobs, b: Jobs, before: Jobs, o: Observation)
    requires Observed(before, o, a) && Observed(before, o, b)
    ensures a == b
  {
    forall key: JobKey
      ensures key in a <==> key in b
      ensures key in a ==> a[key] == b[key]
    {
      assert Find(a, key) == Find(b, key);
    }
  }

  lemma {:induction false} TiedKeyed(jobs: Jobs, order: seq<JobKey>, attempts: Attempts, rows: seq<nat>)
    requires WellKeyed(jobs) && Places(order, rows)
    ensures WellKeyed(TiedAll(jobs, order, attempts, rows))
  {
    if rows != [] {
      TiedKeyed(jobs, order, attempts, rows[..|rows| - 1]);
    }
  }

  /** Observes one source after the other, while the lease is renewed. */
  method Reconcile(runner: Runner, setting: Setting, sources: seq<Source>, renewals: nat) returns (n: nat)
    requires WellKeyed(runner.store.jobs) && runner.store.hour == setting.hour
    modifies runner.store
    ensures n == if |sources| <= renewals then |sources| else renewals
    ensures StoreOf(runner) == ObservedAll(old(StoreOf(runner)), setting, sources[..n])
    ensures WellKeyed(runner.store.jobs)
  {
    n := 0;
    while n < |sources| && n < renewals
      invariant n <= |sources| && n <= renewals && WellKeyed(runner.store.jobs)
      invariant StoreOf(runner) == ObservedAll(old(StoreOf(runner)), setting, sources[..n])
    {
      ghost var before := StoreOf(runner);
      runner.store.Observe(sources[n], setting.activatedAt, setting.now, setting.rebaseline);
      OneObserved(old(StoreOf(runner)), before, setting, sources, n, StoreOf(runner));
      n := n + 1;
    }
  }

  /** Writes refreshed results on the jobs of their dispatches, while the lease is renewed. */
  method RefreshResults(runner: Runner, results: seq<(JobKey, Attempt)>, renewals: nat) returns (n: nat)
    modifies runner.store`jobs
    ensures n == if |results| <= renewals then |results| else renewals
    ensures runner.store.jobs == RefreshedAll(old(runner.store.jobs), results[..n])
  {
    n := 0;
    while n < |results| && n < renewals
      invariant n <= |results| && n <= renewals
      invariant runner.store.jobs == RefreshedAll(old(runner.store.jobs), results[..n])
    {
      var (key, result) := results[n];
      if key in runner.store.jobs && runner.store.jobs[key].dispatchId == Some(result.id) {
        runner.Record(key, result);
      }
      assert results[..n + 1][..n] == results[..n];
      n := n + 1;
    }
  }

  /** One scan of the runner that holds the lease, which it may lose anywhere. */
  method Scan(runner: Runner, t: Tick, pages: nat, observations: nat, runs: nat, refreshes: nat)
    returns (sent: seq<DispatchInput>, ghost done: Tick)
    requires WellKeyed(runner.store.jobs) && runner.store.hour == t.setting.hour && runner.attempts == t.attempts
    requires Distinct(t.byId) && Distinct(t.byDue)
    modifies runner.store
    ensures PartOf(done, t)
    ensures StoreOf(runner) == Ticked(old(StoreOf(runner)), done) && sent == Worked(old(StoreOf(runner)), done).sent
    ensures |t.byId| < pages && |t.sources| <= observations && |t.byDue| <= runs && |t.refreshed| <= refreshes ==>
              done.sources == t.sources && done.upTo == |t.byDue| && done.refreshed == t.refreshed
  {
    done := t.(rows := [], sources := [], upTo := 0, refreshed := []);
    sent := [];
    var recovered, rows := runner.RecoverAttempts(t.byId, pages);
    done := done.(rows := rows);
    TiedKeyed(old(runner.store.jobs), t.byId, t.attempts, rows);
    if !recovered {
      return;
    }
    var n := Reconcile(runner, t.setting, t.sources, observations);
    done := done.(sources := t.sources[..n]);
    if n < |t.sources| {
      return;
    }
    var requests, finished, reached := runner.WorkOff(t.byDue, t.setting.now, t.turns, runs);
    sent := requests;
    done := done.(upTo := reached);
    if !finished {
      return;
    }
    var k := RefreshResults(runner, t.refreshed, refreshes);
    done := done.(refreshed := t.refreshed[..k]);
  }

  // ---------------------------------------------------------------- what scans keep

  lemma ReachesObserved(store: Runs.Store, sources: seq<Source>, between: Runs.Store, a: Runs.Action)
    requires Runs.Sound(between) && Runs.Reaches(store, sources, between) && a.Observe?
    ensures Runs.Sound(Runs.Step(between, a)) && Runs.Reaches(store, sources + [a.source], Runs.Step(between, a))
  {
    Runs.StepKeeps(between, a);
    Runs.OneStepReaches(between, a);
    Runs.ReachesJoin(store, sources, between, [a.source], Runs.Step(between, a));
  }

  lemma ObservedNextReaches(store: Runs.Store, setting: Setting, sources: seq<Source>, n: nat, between: Runs.Store)
    requires n < |sources| && between == ObservedAll(store, setting, sources[..n])
    requires Runs.Sound(between) && Runs.Reaches(store, sources[..n], between)
    ensures Runs.Sound(ObservedAll(store, setting, sources[..n + 1]))
    ensures Runs.Reaches(store, sources[..n + 1], ObservedAll(store, setting, sources[..n + 1]))
  {
    ReachesObserved(store, sources[..n], between, ObserveSource(setting, sources[n]));
    ObservedNext(store, setting, sources, n);
    assert sources[..n + 1] == sources[..n] + [sources[n]];
  }

  lemma {:induction false} ObservedAllReaches(store: Runs.Store, setting: Setting, sources: seq<Source>, n: nat)
    requires Runs.Sound(store) && n <= |sources|
    ensures Runs.Sound(ObservedAll(store, setting, sources[..n]))
    ensures Runs.Reaches(store, sources[..n], ObservedAll(store, setting, sources[..n]))
  {
    if n == 0 {
      Runs.ReachesItself(store);
    } else {
      ObservedAllReaches(store, setting, sources, n - 1);
      ObservedNextReaches(store, setting, sources, n - 1, ObservedAll(store, setting, sources[..n - 1]));
    }
  }

  lemma {:induction false} RefreshLeads(store: Runs.Store, jobs: Jobs, results: seq<(JobKey, Attempt)>)
    requires Leads(store, jobs)
    ensures Leads(store, RefreshedAll(jobs, results))
  {
    if results != [] {
      var front, last := results[..|results| - 1], results[|results| - 1];
      RefreshLeads(store, jobs, front);
      var between := RefreshedAll(jobs, front);
      if last.0 in between && between[last.0].dispatchId == Some(last.1.id) {
        LeadsOn(store, between, last.0, TieOf(last.1));
      }
    }
  }

  /** A scan is a history in which nobody else writes, with exactly its observations. */
  lemma TickIsExclusive(store: Runs.Store, t: Tick)
    requires Runs.Sound(store) && t.Fits()
    ensures Runs.Sound(Ticked(store, t)) && Runs.Reaches(store, t.sources, Ticked(store, t))
  {
    var recovered := store.(jobs := TiedAll(store.jobs, t.byId, t.attempts, t.rows));
    LeadsNowhere(store);
    PageKeeps(store, store.jobs, t.byId, t.attempts, t.rows);
    var observed := Reconciled(store, t);
    ObservedAllReaches(recovered, t.setting, t.sources, |t.sources|);
    assert t.sources[..|t.sources|] == t.sources;
    LeadsNowhere(observed);
    PassKeeps(observed, observed.jobs, t.byDue, t.setting.now, t.turns, 0, t.upTo);
    RefreshLeads(observed, Worked(store, t).jobs, t.refreshed);
    Runs.ReachesJoin(store, [], recovered, t.sources, observed);
    Runs.ReachesJoin(store, [] + t.sources, observed, [], Ticked(store, t));
    assert [] + t.sources + [] == t.sources;
  }

  /** One scan after the other. */
  function AllTicked(store: Runs.Store, ticks: seq<Tick>): Runs.Store
    requires forall i :: 0 <= i < |ticks| ==> ticks[i].Fits()
  {
    if ticks == [] then store else Ticked(AllTicked(store, ticks[..|ticks| - 1]), ticks[|ticks| - 1])
  }

  function AllSources(ticks: seq<Tick>): seq<Source> {
    if ticks == [] then [] else AllSources(ticks[..|ticks| - 1]) + ticks[|ticks| - 1].sources
  }

  /** Scans that keep out of each other's way are one such history, from the empty tables on. */
  lemma {:induction false} TicksAreExclusive(ticks: seq<Tick>)
    requires forall i :: 0 <= i < |ticks| ==> ticks[i].Fits()
    ensures Runs.Sound(AllTicked(Runs.EMPTY, ticks))
    ensures Runs.Reaches(Runs.EMPTY, AllSources(ticks), AllTicked(Runs.EMPTY, ticks))
  {
    if ticks == [] {
      Runs.ReachesItself(Runs.EMPTY);
    } else {
      var front, last := ticks[..|ticks| - 1], ticks[|ticks| - 1];
      TicksAreExclusive(front);
      TickIsExclusive(AllTicked(Runs.EMPTY, front), last);
      Runs.ReachesJoin(Runs.EMPTY, AllSources(front), AllTicked(Runs.EMPTY, front), last.sources,
                       AllTicked(Runs.EMPTY, ticks));
    }
  }

  /** After any scans, whole or cut short: jobs agree with their targets, no waiting job is
      tied, and the live jobs of every subject carry what was last observed of it, with at
      most one notice among them. */
  lemma TicksSettle(ticks: seq<Tick>)
    requires forall i :: 0 <= i < |ticks| ==> ticks[i].Fits()
    ensures var store, sources := AllTicked(Runs.EMPTY, ticks), AllSources(ticks);
            && Runs.Sound(store)
            && forall k :: 0 <= k < |sources| && Runs.NotObserved(sources, k + 1, sources[k].subject) ==>
                 Runs.Settled(store.jobs, sources[k])
  {
    TicksAreExclusive(ticks);
    Runs.ReachedIsSound(Runs.EMPTY, AllSources(ticks), AllTicked(Runs.EMPTY, ticks));
  }
}
