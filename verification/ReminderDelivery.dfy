/** The reconciler, the runner, the administrators and the dispatch protocol put
    together: what one stay can be sent automatically. */
module ReminderDelivery {
  import opened Wrappers
  import opened Messaging
  import Automation
  import Runs = AutomationRuns
  import Protocol = DispatchProtocol

  datatype System = System(store: Runs.Store, world: Protocol.World)

  const START := System(Runs.EMPTY, Protocol.START)

  /** `SendJob` is the runner's call for a job it read, perhaps long ago: the
      version and preview it carries may be out of date. `Proceed` is any other
      step of anyone inside `dispatch` or `refresh`. */
  datatype Action =
    | Reconcile(a: Runs.Action)
    | SendManually(subject: Subject, kind: MessageKind, requestKey: string, preview: PreviewKey)
    | SendJob(key: JobKey, version: int, preview: PreviewKey)
    | Proceed(p: Protocol.Action)

  function ManualInput(subject: Subject, kind: MessageKind, requestKey: string, preview: PreviewKey): DispatchInput {
    DispatchInput(subject, kind, ManualKey(requestKey), Manual, None, Some(preview))
  }

  function JobInput(key: JobKey, job: Automation.Job, version: int, preview: PreviewKey): DispatchInput {
    DispatchInput(job.subject, job.kind, AutomaticKey(key), Automatic, Some(version), Some(preview))
  }

  function Step(s: System, a: Action): System {
    match a
    case Reconcile(action) => s.(store := Runs.Step(s.store, action))
    case SendManually(subject, kind, requestKey, preview) =>
      s.(world := Protocol.Step(s.world, Protocol.Arrive(ManualInput(subject, kind, requestKey, preview))))
    case SendJob(key, version, preview) =>
      if key !in s.store.jobs then s
      else s.(world := Protocol.Step(s.world, Protocol.Arrive(JobInput(key, s.store.jobs[key], version, preview))))
    case Proceed(p) =>
      if p.Arrive? then s else s.(world := Protocol.Step(s.world, p))
  }

  function Run(s: System, actions: seq<Action>): System
    decreases |actions|
  {
    if actions == [] then s else Run(Step(s, actions[0]), actions[1..])
  }

  /** An automatic request is about the job its key names. */
  predicate NamesItsJob(jobs: Automation.Jobs, mode: Mode, key: RequestKey, subject: Subject, kind: MessageKind) {
    mode == Automatic ==>
      && key.AutomaticKey? && key.job in jobs && key.job.subject == subject && key.job.kind == kind
  }

  ghost predicate Inv(s: System) {
    && Automation.WellKeyed(s.store.jobs)
    && Protocol.Inv(s.world)
    && (forall c :: 0 <= c < |s.world.callers| ==>
          var input := s.world.callers[c].input;
          NamesItsJob(s.store.jobs, input.mode, input.key, input.subject, input.kind))
    && (forall k :: 0 <= k < |s.world.sends| ==>
          var sent := s.world.sends[k];
          NamesItsJob(s.store.jobs, sent.mode, sent.key, sent.context.subject, sent.context.kind))
  }

  /** Reconciling and recording never drop a job nor move it to another key. */
  lemma JobsStay(store: Runs.Store, a: Runs.Action)
    requires Automation.WellKeyed(store.jobs)
    ensures Automation.WellKeyed(Runs.Step(store, a).jobs)
    ensures forall key :: key in store.jobs ==> key in Runs.Step(store, a).jobs
  {
    if a.Observe? {
      var o := Runs.Observing(store, a.source, a.activatedAt, a.now, a.rebaseline, a.hour);
      var after := Runs.ObservedJobs(store.jobs, o);
      forall key | key in after ensures Automation.Keyed(key, after[key]) {
        assert Some(after[key]) == Automation.ObservedJob(key, Automation.Find(store.jobs, key), o);
        Runs.ObservedJobKeyed(key, Automation.Find(store.jobs, key), o);
      }
      forall key | key in store.jobs ensures key in after {
        Runs.ObservedJobKeyed(key, Automation.Find(store.jobs, key), o);
      }
    }
  }

  lemma CallersKeepTheirInput(w: Protocol.World, p: Protocol.Action)
    requires !p.Arrive?
    ensures var next := Protocol.Step(w, p);
            && |next.callers| == |w.callers|
            && forall c :: 0 <= c < |w.callers| ==> next.callers[c].input == w.callers[c].input
  {
  }

  lemma ProceedKeeps(s: System, p: Protocol.Action)
    requires Inv(s) && !p.Arrive?
    ensures Inv(Step(s, Proceed(p)))
  {
    var next := Protocol.Step(s.world, p);
    Protocol.StepKeeps(s.world, p);
    CallersKeepTheirInput(s.world, p);
    if p.CallProvider? && |next.sends| > |s.world.sends| {
      assert Protocol.CallerSound(s.world, p.c);
      var input := s.world.callers[p.c].input;
      assert NamesItsJob(s.store.jobs, input.mode, input.key, input.subject, input.kind);
    }
  }

  lemma ArrivalKeeps(s: System, input: DispatchInput)
    requires Inv(s)
    requires NamesItsJob(s.store.jobs, input.mode, input.key, input.subject, input.kind)
    ensures Inv(s.(world := Protocol.Step(s.world, Protocol.Arrive(input))))
  {
    Protocol.StepKeeps(s.world, Protocol.Arrive(input));
  }

  lemma {:induction false} RunKeeps(s: System, actions: seq<Action>)
    requires Inv(s)
    ensures Inv(Run(s, actions))
    decreases |actions|
  {
    if actions != [] {
      var a := actions[0];
      match a {
        case Reconcile(action) => JobsStay(s.store, action);
        case SendManually(subject, kind, requestKey, preview) =>
          ArrivalKeeps(s, ManualInput(subject, kind, requestKey, preview));
        case SendJob(key, version, preview) =>
          if key in s.store.jobs {
            ArrivalKeeps(s, JobInput(key, s.store.jobs[key], version, preview));
          }
        case Proceed(p) =>
          if !p.Arrive? {
            ProceedKeeps(s, p);
          }
      }
      RunKeeps(Step(s, a), actions[1..]);
    }
  }

  /** However often a stay is rescheduled, cancelled, restored or rebaselined, and
      whatever runners, retries and crashes interleave -- overlapping runners
      included -- it gets at most one automatic check-in reminder and at most one
      automatic check-out reminder. */
  lemma OneReminderPerKind(actions: seq<Action>, k: nat, l: nat)
    requires k < l < |Run(START, actions).world.sends|
    ensures var sends := Run(START, actions).world.sends;
            !(&& sends[k].mode == Automatic && sends[l].mode == Automatic
              && sends[k].context.subject == sends[l].context.subject
              && sends[k].context.kind == sends[l].context.kind
              && Automation.IsReminder(sends[k].context.kind))
  {
    RunKeeps(START, actions);
    var w := Run(START, actions).world;
    assert Protocol.SentSound(w, k) && Protocol.SentSound(w, l);
  }

  /** Every automatic message belongs to a job about its own subject and kind,
      and went out for the source version that job was read with. */
  lemma AutomaticSendsFollowAJob(actions: seq<Action>, k: nat)
    requires k < |Run(START, actions).world.sends| && Run(START, actions).world.sends[k].mode == Automatic
    ensures var s := Run(START, actions);
            var sent := s.world.sends[k];
            && sent.key.AutomaticKey? && sent.key.job in s.store.jobs
            && s.store.jobs[sent.key.job].subject == sent.context.subject
            && s.store.jobs[sent.key.job].kind == sent.context.kind
            && (sent.expectedVersion.Some? ==> sent.context.version == sent.expectedVersion.value)
  {
    RunKeeps(START, actions);
    assert Protocol.SentSound(Run(START, actions).world, k);
  }
}
