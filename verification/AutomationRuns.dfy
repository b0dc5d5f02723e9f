/** What the job table looks like after any history of observations and runner
    writes, and what that means for the messages a stay receives. */
module AutomationRuns {
  import opened Wrappers
  import opened Messaging
  import opened Automation

  datatype Store = Store(jobs: Jobs, targets: Targets)

  const EMPTY := Store(map[], map[])

  function Observing(store: Store, source: Source, activatedAt: int, now: int, rebaseline: bool, hour: int)
    : Observation
  {
    Observation(source, Find(store.targets, source.subject), activatedAt, now, rebaseline, hour)
  }

  /** The keys an observation may add. */
  function NewKeys(o: Observation): set<JobKey> {
    {Reminder(o.source.subject, GuestCheckin), Reminder(o.source.subject, GuestCheckout)}
    + (if o.Notice().Some? then {EventKeyOf(o.source, o.Notice().value, o.Sequence())} else {})
  }

  function ObservedJobs(jobs: Jobs, o: Observation): Jobs {
    map key | key in jobs.Keys + NewKeys(o) && ObservedJob(key, Find(jobs, key), o).Some?
      :: ObservedJob(key, Find(jobs, key), o).value
  }

  lemma ObservedJobsIsObserved(jobs: Jobs, o: Observation)
    ensures Observed(jobs, o, ObservedJobs(jobs, o))
  {
    forall key: JobKey
      ensures Find(ObservedJobs(jobs, o), key) == ObservedJob(key, Find(jobs, key), o)
    {
      if key !in jobs && key !in NewKeys(o) {
        assert ObservedJob(key, None, o) == None;
      }
    }
  }

  // ---------------------------------------------------------------- after one observation

  predicate LiveAt(jobs: Jobs, key: JobKey) {
    key in jobs && Live(jobs[key])
  }

  /** The subject's live jobs carry its current fingerprint and version, and at
      most one of them is not a reminder. */
  ghost predicate Settled(jobs: Jobs, source: Source) {
    && (forall key :: LiveAt(jobs, key) && key.subject == source.subject ==>
          jobs[key].sourceFingerprint == source.fingerprint && jobs[key].sourceVersion == source.version)
    && (forall k, l ::
          (LiveAt(jobs, k) && LiveAt(jobs, l) && k.subject == l.subject == source.subject && k.Event? && l.Event?)
          ==> k == l)
  }

  /** A live notice that this observation leaves standing. */
  predicate Survives(jobs: Jobs, o: Observation, key: JobKey) {
    && LiveAt(jobs, key) && key.subject == o.source.subject && key.Event?
    && !o.Closed() && (o.source.status == Cancelled ==> IsCancel(key.kind))
    && !RebaselineDrops(o) && !ChangeDrops(o)
  }

  /** What a caller can check beforehand: the notices left standing were written
      for this very fingerprint, and with a notice about to be added there is
      not more than one. */
  ghost predicate ReadyToSettle(jobs: Jobs, o: Observation) {
    && (forall key :: Survives(jobs, o, key) ==> jobs[key].sourceFingerprint == o.source.fingerprint)
    && (forall k, l :: Survives(jobs, o, k) && Survives(jobs, o, l) ==> k == l)
    && (o.Notice().Some? && EventKeyOf(o.source, o.Notice().value, o.Sequence()) !in jobs ==>
          forall key :: !Survives(jobs, o, key))
  }

  /** Which jobs of the subject are live afterwards. */
  lemma LiveAfter(jobs: Jobs, o: Observation, after: Jobs, key: JobKey)
    requires WellKeyed(jobs) && Observed(jobs, o, after)
    requires key.subject == o.source.subject
    ensures key.Event? ==>
              (LiveAt(after, key) <==>
                 || Survives(jobs, o, key)
                 || (o.Notice().Some? && key !in jobs
                     && key == EventKeyOf(o.source, o.Notice().value, o.Sequence())))
    ensures key.Event? && Survives(jobs, o, key) ==>
              && after[key].sourceFingerprint == jobs[key].sourceFingerprint
              && (jobs[key].sourceFingerprint == o.source.fingerprint ==> after[key].sourceVersion == o.source.version)
    ensures key.Event? && key !in jobs && LiveAt(after, key) ==>
              after[key].sourceFingerprint == o.source.fingerprint && after[key].sourceVersion == o.source.version
    ensures key.Reminder? && LiveAt(after, key) ==>
              after[key].sourceFingerprint == o.source.fingerprint && after[key].sourceVersion == o.source.version
  {
    assert Find(after, key) == ObservedJob(key, Find(jobs, key), o);
  }

  /** From any job table whatsoever, one observation settles its subject exactly
      if the notices it leaves standing were already in order. */
  lemma ObservationSettlesIff(jobs: Jobs, o: Observation, after: Jobs)
    requires WellKeyed(jobs) && Observed(jobs, o, after)
    ensures Settled(after, o.source) <==> ReadyToSettle(jobs, o)
  {
    forall key: JobKey | key.subject == o.source.subject
      ensures key.Event? ==>
                (LiveAt(after, key) <==>
                   || Survives(jobs, o, key)
                   || (o.Notice().Some? && key !in jobs
                       && key == EventKeyOf(o.source, o.Notice().value, o.Sequence())))
    {
      LiveAfter(jobs, o, after, key);
    }
    if ReadyToSettle(jobs, o) {
      forall key | LiveAt(after, key) && key.subject == o.source.subject
        ensures after[key].sourceFingerprint == o.source.fingerprint && after[key].sourceVersion == o.source.version
      {
        LiveAfter(jobs, o, after, key);
      }
    }
    if Settled(after, o.source) {
      forall key | Survives(jobs, o, key) ensures jobs[key].sourceFingerprint == o.source.fingerprint {
        LiveAfter(jobs, o, after, key);
      }
      if o.Notice().Some? {
        var added := EventKeyOf(o.source, o.Notice().value, o.Sequence());
        if added !in jobs {
          assert LiveAt(after, added);
          forall key ensures !Survives(jobs, o, key) {
          }
        }
      }
    }
  }

  // ---------------------------------------------------------------- over whole histories

  datatype Action =
    | Observe(source: Source, activatedAt: int, now: int, rebaseline: bool, hour: int)
    | Write(key: JobKey, write: RunnerWrite)

  function Step(store: Store, a: Action): Store {
    match a
    case Observe(source, activatedAt, now, rebaseline, hour) =>
      var o := Observing(store, source, activatedAt, now, rebaseline, hour);
      Store(ObservedJobs(store.jobs, o), store.targets[source.subject := ObservedTarget(o)])
    case Write(key, write) => store.(jobs := Written(store.jobs, key, write))
  }

  function Run(store: Store, actions: seq<Action>): Store
    decreases |actions|
  {
    if actions == [] then store else Run(Step(store, actions[0]), actions[1..])
  }

  ghost predicate Consistent(store: Store) {
    && WellKeyed(store.jobs)
    && (forall key :: key in store.jobs ==> key.subject in store.targets)
    && (forall key :: key in store.jobs && key.Event? ==>
          key.sequence <= store.targets[key.subject].eventSequence)
    && (forall key :: LiveAt(store.jobs, key) ==>
          && store.jobs[key].sourceFingerprint == store.targets[key.subject].fingerprint
          && store.jobs[key].sourceVersion == store.targets[key.subject].sourceVersion)
    && (forall k, l ::
          (LiveAt(store.jobs, k) && LiveAt(store.jobs, l) && k.subject == l.subject && k.Event? && l.Event?)
          ==> k == l)
  }

  /** What the lease is for: nobody observes the subject between a runner's read
      of a job and its write, so a job it parks as Blocked is still live. */
  predicate Exclusive(store: Store, a: Action) {
    a.Write? && a.write.Park? ==>
      && (a.write.status == Skipped || a.write.status == Blocked)
      && (a.write.status == Blocked ==> LiveAt(store.jobs, a.key))
  }

  ghost predicate ExclusiveRun(store: Store, actions: seq<Action>)
    decreases |actions|
  {
    actions == [] || (Exclusive(store, actions[0]) && ExclusiveRun(Step(store, actions[0]), actions[1..]))
  }

  /** An observation drops no job, and every job it writes agrees with its key. */
  lemma ObservedJobKeyed(key: JobKey, job: Option<Job>, o: Observation)
    requires job.Some? ==> Keyed(key, job.value)
    ensures job.Some? ==> ObservedJob(key, job, o).Some?
    ensures ObservedJob(key, job, o).Some? ==> Keyed(key, ObservedJob(key, job, o).value)
    ensures key.subject != o.source.subject ==> ObservedJob(key, job, o) == job
    ensures job.None? && ObservedJob(key, job, o).Some? && key.Event? ==> key.sequence == o.Sequence()
  {
  }

  lemma ObserveKeepsKeys(store: Store, o: Observation, after: Jobs)
    requires Consistent(store) && Observed(store.jobs, o, after)
    requires o.previous == Find(store.targets, o.source.subject)
    ensures var next := Store(after, store.targets[o.source.subject := ObservedTarget(o)]);
            && WellKeyed(after)
            && (forall key :: key in after ==> key.subject in next.targets)
            && (forall key :: key in after && key.Event? ==> key.sequence <= next.targets[key.subject].eventSequence)
  {
    forall key | key in after
      ensures Keyed(key, after[key])
      ensures key.subject == o.source.subject || (key in store.jobs && after[key] == store.jobs[key])
      ensures key.Event? && key.subject == o.source.subject ==> key.sequence <= o.Sequence()
    {
      assert Find(after, key) == ObservedJob(key, Find(store.jobs, key), o);
      ObservedJobKeyed(key, Find(store.jobs, key), o);
    }
  }

  lemma ObserveKeepsOthers(store: Store, o: Observation, after: Jobs)
    requires Consistent(store) && Observed(store.jobs, o, after)
    ensures forall key: JobKey :: LiveAt(after, key) && key.subject != o.source.subject ==>
              LiveAt(store.jobs, key) && after[key] == store.jobs[key]
  {
    forall key: JobKey | LiveAt(after, key) && key.subject != o.source.subject
      ensures LiveAt(store.jobs, key) && after[key] == store.jobs[key]
    {
      assert Find(after, key) == ObservedJob(key, Find(store.jobs, key), o);
    }
  }

  lemma ObserveKeeps(store: Store, a: Action)
    requires Consistent(store) && a.Observe?
    ensures Consistent(Step(store, a)) && Settled(Step(store, a).jobs, a.source)
  {
    var o := Observing(store, a.source, a.activatedAt, a.now, a.rebaseline, a.hour);
    var next := Step(store, a);
    ObservedJobsIsObserved(store.jobs, o);
    ObserveKeepsKeys(store, o, next.jobs);
    assert ReadyToSettle(store.jobs, o);
    ObservationSettlesIff(store.jobs, o, next.jobs);
    ObserveKeepsOthers(store, o, next.jobs);
  }

  lemma WriteKeeps(store: Store, a: Action)
    requires Consistent(store) && a.Write? && Exclusive(store, a)
    ensures Consistent(Step(store, a))
  {
    var next := Step(store, a);
    forall key | LiveAt(next.jobs, key) ensures LiveAt(store.jobs, key)
                                                && next.jobs[key].sourceFingerprint == store.jobs[key].sourceFingerprint
                                                && next.jobs[key].sourceVersion == store.jobs[key].sourceVersion
    {
    }
  }

  /** A job that waits to be sent is tied to no dispatch. */
  predicate WaitingUntied(jobs: Jobs) {
    forall key :: key in jobs && (jobs[key].status == Pending || jobs[key].status == Blocked) ==>
      jobs[key].dispatchId.None?
  }

  lemma StepKeepsUntied(store: Store, a: Action)
    requires WaitingUntied(store.jobs) && Exclusive(store, a)
    ensures WaitingUntied(Step(store, a).jobs)
  {
    if a.Observe? {
      var o := Observing(store, a.source, a.activatedAt, a.now, a.rebaseline, a.hour);
      var after := ObservedJobs(store.jobs, o);
      ObservedJobsIsObserved(store.jobs, o);
      forall key | key in after && (after[key].status == Pending || after[key].status == Blocked)
        ensures after[key].dispatchId.None?
      {
        assert Find(after, key) == ObservedJob(key, Find(store.jobs, key), o);
      }
    }
  }

  /** What every history keeps. */
  ghost predicate Sound(store: Store) {
    Consistent(store) && WaitingUntied(store.jobs)
  }

  lemma StepKeeps(store: Store, a: Action)
    requires Sound(store) && Exclusive(store, a)
    ensures Sound(Step(store, a))
  {
    StepKeepsUntied(store, a);
    if a.Observe? {
      ObserveKeeps(store, a);
    } else {
      WriteKeeps(store, a);
    }
  }

  lemma {:induction false} ExclusiveRunKeeps(store: Store, actions: seq<Action>)
    requires Sound(store) && ExclusiveRun(store, actions)
    ensures Sound(Run(store, actions))
    decreases |actions|
  {
    if actions != [] {
      StepKeeps(store, actions[0]);
      ExclusiveRunKeeps(Step(store, actions[0]), actions[1..]);
    }
  }

  /** While runners keep out of each other's way, every observation leaves its
      subject's live jobs on the observed fingerprint and version, with at most
      one live notice -- over any history of changes, closures, cancellations,
      rebaselines and dispatches. */
  lemma EveryObservationSettles(actions: seq<Action>, a: Action)
    requires ExclusiveRun(EMPTY, actions) && a.Observe?
    ensures Settled(Step(Run(EMPTY, actions), a).jobs, a.source)
  {
    ExclusiveRunKeeps(EMPTY, actions);
    ObserveKeeps(Run(EMPTY, actions), a);
  }

  // ---------------------------------------------------------------- the last observation of a subject counts

  function SourcesOf(actions: seq<Action>): seq<Source> {
    if actions == [] then []
    else (if actions[0].Observe? then [actions[0].source] else []) + SourcesOf(actions[1..])
  }

  /** Nobody observed the subject from this place on. */
  predicate NotObserved(sources: seq<Source>, from: nat, subject: Subject) {
    forall j :: from <= j < |sources| ==> sources[j].subject != subject
  }

  /** A step that does not observe a subject leaves it settled. */
  lemma StepKeepsSettled(store: Store, a: Action, source: Source)
    requires Consistent(store) && Exclusive(store, a) && Settled(store.jobs, source)
    requires a.Observe? ==> a.source.subject != source.subject
    ensures Settled(Step(store, a).jobs, source)
  {
    var next := Step(store, a).jobs;
    if a.Observe? {
      var o := Observing(store, a.source, a.activatedAt, a.now, a.rebaseline, a.hour);
      ObservedJobsIsObserved(store.jobs, o);
      ObserveKeepsOthers(store, o, next);
    } else {
      forall key | LiveAt(next, key) ensures LiveAt(store.jobs, key)
                                             && next[key].sourceFingerprint == store.jobs[key].sourceFingerprint
                                             && next[key].sourceVersion == store.jobs[key].sourceVersion
      {
      }
    }
  }

  lemma NotObservedInRest(first: seq<Source>, rest: seq<Source>, from: nat, subject: Subject)
    requires NotObserved(first + rest, |first| + from, subject)
    ensures NotObserved(rest, from, subject)
  {
    forall j | from <= j < |rest| ensures rest[j].subject != subject {
      assert (first + rest)[|first| + j] == rest[j];
    }
  }

  lemma {:induction false} RunKeepsSettled(store: Store, actions: seq<Action>, source: Source)
    requires Sound(store) && ExclusiveRun(store, actions) && Settled(store.jobs, source)
    requires NotObserved(SourcesOf(actions), 0, source.subject)
    ensures Settled(Run(store, actions).jobs, source)
    decreases |actions|
  {
    if actions != [] {
      var first, rest := actions[0], SourcesOf(actions[1..]);
      if first.Observe? {
        assert SourcesOf(actions)[0] == first.source;
        NotObservedInRest([first.source], rest, 0, source.subject);
      } else {
        assert SourcesOf(actions) == rest;
      }
      StepKeeps(store, first);
      StepKeepsSettled(store, first, source);
      RunKeepsSettled(Step(store, first), actions[1..], source);
    }
  }

  /** After any history, every subject is settled on what was last observed of it. */
  lemma {:induction false} LastObservationSettles(store: Store, actions: seq<Action>, k: nat)
    requires Sound(store) && ExclusiveRun(store, actions) && k < |SourcesOf(actions)|
    requires NotObserved(SourcesOf(actions), k + 1, SourcesOf(actions)[k].subject)
    ensures Settled(Run(store, actions).jobs, SourcesOf(actions)[k])
    decreases |actions|
  {
    var first, rest := actions[0], SourcesOf(actions[1..]);
    var next, source := Step(store, first), SourcesOf(actions)[k];
    StepKeeps(store, first);
    if first.Observe? {
      NotObservedInRest([first.source], rest, k, source.subject);
      if k == 0 {
        ObserveKeeps(store, first);
        RunKeepsSettled(next, actions[1..], source);
      } else {
        LastObservationSettles(next, actions[1..], k - 1);
      }
    } else {
      assert SourcesOf(actions) == rest;
      LastObservationSettles(next, actions[1..], k);
    }
  }

  // ---------------------------------------------------------------- putting histories together

  /** Some history with these observations leads from one store to another. */
  ghost predicate Reaches(store: Store, sources: seq<Source>, next: Store) {
    exists actions :: ExclusiveRun(store, actions) && SourcesOf(actions) == sources && Run(store, actions) == next
  }

  lemma ReachesItself(store: Store)
    ensures Reaches(store, [], store)
  {
    assert ExclusiveRun(store, []) && SourcesOf([]) == [] && Run(store, []) == store;
  }

  lemma OneStepReaches(store: Store, a: Action)
    requires Exclusive(store, a)
    ensures Reaches(store, if a.Observe? then [a.source] else [], Step(store, a))
  {
    var actions := [a];
    assert actions[1..] == [];
    assert ExclusiveRun(Step(store, a), []) && Run(Step(store, a), []) == Step(store, a) && SourcesOf([]) == [];
    assert ExclusiveRun(store, actions) && Run(store, actions) == Step(store, a);
  }

  lemma {:induction false} SourcesJoin(first: seq<Action>, second: seq<Action>)
    ensures SourcesOf(first + second) == SourcesOf(first) + SourcesOf(second)
  {
    var all := first + second;
    if first == [] {
      assert all == second;
    } else {
      assert all[0] == first[0] && all[1..] == first[1..] + second;
      SourcesJoin(first[1..], second);
    }
  }

  lemma RunHead(store: Store, a: Action, rest: seq<Action>)
    ensures Run(store, [a] + rest) == Run(Step(store, a), rest)
    ensures ExclusiveRun(store, [a] + rest) <==> Exclusive(store, a) && ExclusiveRun(Step(store, a), rest)
  {
    assert ([a] + rest)[1..] == rest;
  }

  lemma {:induction false} RunsJoin(store: Store, first: seq<Action>, second: seq<Action>)
    requires ExclusiveRun(store, first) && ExclusiveRun(Run(store, first), second)
    ensures ExclusiveRun(store, first + second) && Run(store, first + second) == Run(Run(store, first), second)
    decreases |first|
  {
    if first == [] {
      assert first + second == second;
    } else {
      var a, rest := first[0], first[1..];
      assert first == [a] + rest && first + second == [a] + (rest + second);
      var next := Step(store, a);
      RunHead(store, a, rest);
      RunHead(store, a, rest + second);
      RunsJoin(next, rest, second);
    }
  }

  lemma ReachesJoin(store: Store, first: seq<Source>, between: Store, second: seq<Source>, next: Store)
    requires Reaches(store, first, between) && Reaches(between, second, next)
    ensures Reaches(store, first + second, next)
  {
    var one :| ExclusiveRun(store, one) && SourcesOf(one) == first && Run(store, one) == between;
    var two :| ExclusiveRun(between, two) && SourcesOf(two) == second && Run(between, two) == next;
    RunsJoin(store, one, two);
    SourcesJoin(one, two);
  }

  /** What a history reaches is sound, and settled on what was last observed. */
  lemma ReachedIsSound(store: Store, sources: seq<Source>, next: Store)
    requires Sound(store) && Reaches(store, sources, next)
    ensures Sound(next)
    ensures forall k :: 0 <= k < |sources| && NotObserved(sources, k + 1, sources[k].subject) ==>
              Settled(next.jobs, sources[k])
  {
    var actions :| ExclusiveRun(store, actions) && SourcesOf(actions) == sources && Run(store, actions) == next;
    ExclusiveRunKeeps(store, actions);
    forall k | 0 <= k < |sources| && NotObserved(sources, k + 1, sources[k].subject)
      ensures Settled(next.jobs, sources[k])
    {
      LastObservationSettles(store, actions, k);
    }
  }

  // ---------------------------------------------------------------- overlapping runners

  const SUBJECT := Subject(StaySubject, "s")
  const SOURCE := Source(SUBJECT, 1, Active, true, 0, 1_000_000_000_000, 999_999_999_999, "A")
  const STALE := JobKey.Event(SUBJECT, GuestChange, 1, 2)

  function Seen(version: int, fingerprint: string, now: int): Action {
    Observe(SOURCE.(version := version, fingerprint := fingerprint), 0, now, false, 15)
  }

  /** A stay changes twice; a runner that read the first notice before the second
      change was observed parks it as Blocked afterwards. */
  const OVERLAP := [Seen(1, "A", 0), Seen(2, "B", 1), Seen(3, "C", 2), Write(STALE, Park(Blocked, NotReady))]

  lemma SeenStep(store: Store, version: int, fingerprint: string, now: int, key: JobKey)
    ensures var o := Observing(store, SOURCE.(version := version, fingerprint := fingerprint), 0, now, false, 15);
            var next := Step(store, Seen(version, fingerprint, now));
            && Find(next.jobs, key) == ObservedJob(key, Find(store.jobs, key), o)
            && Find(next.targets, SUBJECT) == Some(ObservedTarget(o))
  {
    var o := Observing(store, SOURCE.(version := version, fingerprint := fingerprint), 0, now, false, 15);
    ObservedJobsIsObserved(store.jobs, o);
  }

  lemma FirstSight()
    ensures var s1 := Step(EMPTY, Seen(1, "A", 0));
            Find(s1.targets, SUBJECT) == Some(Target(1, "A", Active, 0, 0)) && Find(s1.jobs, STALE) == None
  {
    SeenStep(EMPTY, 1, "A", 0, STALE);
  }

  lemma SecondSight(s1: Store)
    requires Find(s1.targets, SUBJECT) == Some(Target(1, "A", Active, 0, 0)) && Find(s1.jobs, STALE) == None
    ensures var s := Step(s1, Seen(2, "B", 1));
            && LiveAt(s.jobs, STALE) && s.jobs[STALE].sourceFingerprint == "B"
            && Find(s.targets, SUBJECT) == Some(Target(2, "B", Active, 1, 1))
  {
    SeenStep(s1, 2, "B", 1, STALE);
  }

  lemma FirstNoticeAppears()
    ensures var s := Step(Step(EMPTY, Seen(1, "A", 0)), Seen(2, "B", 1));
            && LiveAt(s.jobs, STALE) && s.jobs[STALE].sourceFingerprint == "B"
            && Find(s.targets, SUBJECT) == Some(Target(2, "B", Active, 1, 1))
  {
    FirstSight();
    SecondSight(Step(EMPTY, Seen(1, "A", 0)));
  }

  lemma ParkedNoticeStaysLive(s2: Store)
    requires LiveAt(s2.jobs, STALE) && s2.jobs[STALE].sourceFingerprint == "B"
    requires Find(s2.targets, SUBJECT) == Some(Target(2, "B", Active, 1, 1))
    ensures var s4 := Step(Step(s2, Seen(3, "C", 2)), Write(STALE, Park(Blocked, NotReady)));
            && LiveAt(s4.jobs, STALE) && s4.jobs[STALE].sourceFingerprint == "B"
            && Find(s4.targets, SUBJECT) == Some(Target(3, "C", Active, 2, 2))
  {
    SeenStep(s2, 3, "C", 2, STALE);
  }

  lemma StaleNoticeSurvives(s4: Store)
    requires LiveAt(s4.jobs, STALE) && s4.jobs[STALE].sourceFingerprint == "B"
    requires Find(s4.targets, SUBJECT) == Some(Target(3, "C", Active, 2, 2))
    ensures !Settled(Step(s4, Seen(3, "C", 2)).jobs, SOURCE.(version := 3, fingerprint := "C"))
  {
    SeenStep(s4, 3, "C", 2, STALE);
    assert LiveAt(Step(s4, Seen(3, "C", 2)).jobs, STALE);
  }

  /** Without exclusivity it fails: a runner whose lease ran out parks the job it
      read before another runner observed the next change, and the dropped
      notice is live again beside its successor. */
  lemma OverlappingRunnersBreakIt()
    ensures !Settled(Step(Run(EMPTY, OVERLAP), Seen(3, "C", 2)).jobs, SOURCE.(version := 3, fingerprint := "C"))
  {
    var s2 := Step(Step(EMPTY, OVERLAP[0]), OVERLAP[1]);
    var s4 := Step(Step(s2, OVERLAP[2]), OVERLAP[3]);
    FirstNoticeAppears();
    ParkedNoticeStaysLive(s2);
    StaleNoticeSurvives(s4);
    RunOfFour(EMPTY, OVERLAP);
  }

  lemma RunOfFour(store: Store, actions: seq<Action>)
    requires |actions| == 4
    ensures Run(store, actions) == Step(Step(Step(Step(store, actions[0]), actions[1]), actions[2]), actions[3])
  {
    var rest := actions[1..];
    assert rest[1..] == actions[2..] && actions[2..][1..] == actions[3..] && actions[3..][1..] == [];
    assert rest[0] == actions[1] && actions[2..][0] == actions[2] && actions[3..][0] == actions[3];
    var s1 := Step(store, actions[0]);
    var s2 := Step(s1, actions[1]);
    var s3 := Step(s2, actions[2]);
    assert Run(s3, actions[3..]) == Run(Step(s3, actions[3]), []);
    assert Run(s2, actions[2..]) == Run(s3, actions[3..]);
    assert Run(s1, rest) == Run(s2, actions[2..]);
  }
}
