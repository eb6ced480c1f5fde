/** What the cached copies carry when a handler acts on them. */
module VolumeData {
  import opened Results
  import opened VolumeProtocol
  import opened VolumeSafety
  import opened VolumeChain
  import opened VolumeRequests

  // ----- pod identity and VM ID -----

  predicate AtLeastReady(status: Status) {
    status.VSIIDReady? || Applied(status)
  }

  predicate AtLeastRunning(status: Status) {
    status.VSIRunning? || AtLeastReady(status)
  }

  predicate Identified(v: Volume) {
    && (v.spec.podUidLabel != "" ==> v.spec.podUid == v.spec.podUidLabel && v.spec.nodePublishReq != "")
    && (AtLeastRunning(v.status) ==> v.spec.podUidLabel != "")
    && (AtLeastReady(v.status) ==> v.spec.vmID != "")
  }

  ghost predicate AllIdentified(s: System) {
    && Linked(s)
    && (!s.ended ==> forall i | 0 <= i < |s.history| :: Identified(s.history[i]))
  }

  lemma {:induction false} EndedStaysEnded(s: System, step: Step)
    requires Enabled(s, step)
    ensures s.ended ==> Apply(s, step).ended
    ensures step.WriteSpec? && s.tasks[step.t].work.Unpublish? ==> Apply(s, step).ended
  {
  }

  lemma {:induction false} NewVersionIdentified(s: System, step: Step, v: Volume)
    requires AllIdentified(s) && Enabled(s, step) && Wrote(s, step, v) && !Apply(s, step).ended
    ensures Identified(v)
  {
    EndedStaysEnded(s, step);
    if step.WriteSpec? || step.WriteStatus? || step.MarkReplay? {
      var c := s.tasks[step.t].c;
      assert TaskLinked(s, s.tasks[step.t]);
      assert CopyLinked(s.history, s.log, s.copies[c]);
      assert Identified(s.history[s.copies[c].version]);
    }
  }

  lemma OneMoreIdentified(before: seq<Volume>, after: seq<Volume>)
    requires forall i | 0 <= i < |before| :: Identified(before[i])
    requires after == before || (|after| == |before| + 1 && after[..|before|] == before && Identified(after[|before|]))
    ensures forall i | 0 <= i < |after| :: Identified(after[i])
  {
    forall i | 0 <= i < |after| ensures Identified(after[i]) {
      assert i < |before| ==> after[i] == after[..|before|][i];
    }
  }

  lemma {:induction false} StepKeepsVersionsIdentified(s: System, step: Step)
    requires AllIdentified(s) && Enabled(s, step) && !Apply(s, step).ended
    ensures forall i | 0 <= i < |Apply(s, step).history| :: Identified(Apply(s, step).history[i])
  {
    var h := Apply(s, step).history;
    EndedStaysEnded(s, step);
    NewVersion(s, step);
    if h != s.history {
      NewVersionIdentified(s, step, h[|s.history|]);
    }
    OneMoreIdentified(s.history, h);
  }

  lemma {:induction false} StepKeepsIdentified(s: System, step: Step)
    requires AllIdentified(s) && Enabled(s, step)
    ensures AllIdentified(Apply(s, step))
  {
    StepKeepsLinked(s, step);
    if !Apply(s, step).ended {
      StepKeepsVersionsIdentified(s, step);
    }
  }

  lemma {:induction false} RunKeepsIdentified(s: System, steps: seq<Step>)
    requires AllIdentified(s) && Possible(s, steps)
    ensures AllIdentified(Run(s, steps))
    decreases |steps|
  {
    if steps != [] {
      StepKeepsIdentified(s, steps[0]);
      RunKeepsIdentified(Apply(s, steps[0]), steps[1..]);
    }
  }

  lemma CopyIdentified(s: System, c: nat)
    requires AllIdentified(s) && !s.ended && c < |s.copies|
    ensures Identified(s.copies[c].vol)
  {
    assert CopyLinked(s.history, s.log, s.copies[c]);
    assert Identified(s.history[s.copies[c].version]);
  }

  /**
   Until the volume is first unpublished, a copy that says the VM is running names its pod: its UID, its
   label and its cached NodePublishVolume request are non-empty and those of one call that was made.
   From VSIIDReady on it has a VM ID, which a lookup gave.
   */
  lemma ActiveCopiesAreIdentified(steps: seq<Step>, c: nat)
    requires Possible(START, steps) && !Run(START, steps).ended && c < |Run(START, steps).copies|
    ensures var v := Run(START, steps).copies[c].vol;
            && (AtLeastRunning(v.status) ==>
                  && v.spec.podUid != "" && v.spec.nodePublishReq != "" && v.spec.podUidLabel == v.spec.podUid
                  && Made(NodePublish(v.spec.nodePublishReq, v.spec.podUid)) in Run(START, steps).calls)
            && (AtLeastReady(v.status) ==> v.spec.vmID != "" && KnownVM(Run(START, steps).calls, v.spec.vmID))
  {
    var s := Run(START, steps);
    RunKeepsIdentified(START, steps);
    CopyIdentified(s, c);
    RunKeepsFromCalls(START, steps);
    assert FromCalls(s.calls, s.copies[c].vol.spec);
  }

  // ----- the three cached requests -----

  /** The orchestrator stages only what it published, and publishes on the node only what it staged. */
  predicate InLifecycle(s: System, step: Step) {
    step.Get? ==> (step.work.Stage? ==> s.published) && (step.work.NodePublish? ==> s.staged)
  }

  predicate Layered(spec: Spec) {
    && (spec.stageReq != "" ==> spec.publishReq != "")
    && (spec.nodePublishReq != "" ==> spec.stageReq != "")
  }

  ghost predicate TaskLayered(s: System, task: Task) {
    match task
    case Editing(work, c) =>
      c < |s.copies| ==> (work.Stage? ==> s.copies[c].vol.spec.publishReq != "")
                         && (work.NodePublish? ==> s.copies[c].vol.spec.stageReq != "")
    case Refetching(work) => work.Stage? ==> s.history != [] && Last(s).spec.stageReq != ""
    case Marking(work, c) =>
      c < |s.copies| ==> (work.Publish? ==> s.copies[c].vol.spec.publishReq != "")
                         && (work.Stage? ==> s.copies[c].vol.spec.stageReq != "")
    case _ => true
  }

  ghost predicate AllLayered(s: System) {
    && Linked(s)
    && (!s.ended ==>
          && (forall i | 0 <= i < |s.history| :: Layered(s.history[i].spec))
          && (s.published ==> s.history != [] && Last(s).spec.publishReq != "")
          && (s.staged ==> s.history != [] && Last(s).spec.stageReq != "")
          && (forall t | t in s.tasks :: TaskLayered(s, s.tasks[t])))
  }

  /** A request once cached stays cached until the volume is unpublished. */
  predicate Keeps(before: Spec, after: Spec) {
    && (before.publishReq != "" ==> after.publishReq != "")
    && (before.stageReq != "" ==> after.stageReq != "")
    && (before.nodePublishReq != "" ==> after.nodePublishReq != "")
  }

  lemma {:induction false} NewVersionLayered(s: System, step: Step, v: Volume)
    requires AllLayered(s) && Enabled(s, step) && Wrote(s, step, v) && !Apply(s, step).ended
    ensures Layered(v.spec) && (s.history != [] ==> Keeps(Last(s).spec, v.spec))
  {
    EndedStaysEnded(s, step);
    if step.WriteSpec? || step.WriteStatus? || step.MarkReplay? {
      var c := s.tasks[step.t].c;
      assert TaskLinked(s, s.tasks[step.t]);
      assert TaskLayered(s, s.tasks[step.t]);
      assert CopyLinked(s.history, s.log, s.copies[c]);
      assert Layered(s.history[s.copies[c].version].spec);
    }
  }

  lemma OneMoreLayered(before: seq<Volume>, after: seq<Volume>)
    requires forall i | 0 <= i < |before| :: Layered(before[i].spec)
    requires after == before || (|after| == |before| + 1 && after[..|before|] == before && Layered(after[|before|].spec))
    ensures forall i | 0 <= i < |after| :: Layered(after[i].spec)
  {
    forall i | 0 <= i < |after| ensures Layered(after[i].spec) {
      assert i < |before| ==> after[i] == after[..|before|][i];
    }
  }

  lemma {:induction false} StepKeepsVersionsLayered(s: System, step: Step)
    requires AllLayered(s) && Enabled(s, step) && !Apply(s, step).ended
    ensures var u := Apply(s, step);
            && (forall i | 0 <= i < |u.history| :: Layered(u.history[i].spec))
            && (s.history != [] ==> u.history != [] && Keeps(Last(s).spec, Last(u).spec))
  {
    var h := Apply(s, step).history;
    EndedStaysEnded(s, step);
    NewVersion(s, step);
    if h != s.history {
      NewVersionLayered(s, step, h[|s.history|]);
    }
    OneMoreLayered(s.history, h);
  }

  lemma {:induction false} StepKeepsFlags(s: System, step: Step)
    requires AllLayered(s) && Enabled(s, step) && !Apply(s, step).ended
    ensures var u := Apply(s, step);
            && (u.published ==> u.history != [] && Last(u).spec.publishReq != "")
            && (u.staged ==> u.history != [] && Last(u).spec.stageReq != "")
  {
    StepKeepsVersionsLayered(s, step);
    EndedStaysEnded(s, step);
    if step.WriteStatus? {
      assert TaskLinked(s, s.tasks[step.t]) && TaskLayered(s, s.tasks[step.t]);
      assert CopyLinked(s.history, s.log, s.copies[s.tasks[step.t].c]);
    }
  }

  /** What a spec write leaves for its handler's status write. */
  lemma {:induction false} SpecWriterLeaves(s: System, t: nat, acknowledged: bool)
    requires t in s.tasks && s.tasks[t].Editing? && Current(s, s.tasks[t].c)
    ensures var u, work := AfterSpecWrite(s, t, acknowledged), s.tasks[t].work;
            && u.history != [] && Last(u).spec == Edit(work, s.copies[s.tasks[t].c].vol.spec)
            && (t in u.tasks ==>
                  || (u.tasks[t] == Refetching(work) && (work.Stage? || work.NodePublish?))
                  || (u.tasks[t] == Marking(work, s.tasks[t].c) && (work.NodeUnpublish? || work.NodeUnstage?))
                  || (u.tasks[t] == Marking(work, |s.copies|) && |u.copies| == |s.copies| + 1 && u.copies[|s.copies|].vol == Last(u)))
  {
  }

  lemma {:induction false} SpecWriterTaskLayered(s: System, t: nat, acknowledged: bool)
    requires AllLayered(s) && t in s.tasks && s.tasks[t].Editing? && Current(s, s.tasks[t].c)
    requires t in AfterSpecWrite(s, t, acknowledged).tasks
    ensures TaskLayered(AfterSpecWrite(s, t, acknowledged), AfterSpecWrite(s, t, acknowledged).tasks[t])
  {
    SpecWriterLeaves(s, t, acknowledged);
    assert EditingLinked(s, s.tasks[t].work, s.tasks[t].c) by { assert TaskLinked(s, s.tasks[t]); }
  }

  lemma {:induction false} OwnTaskLayered(s: System, step: Step)
    requires AllLayered(s) && Enabled(s, step) && InLifecycle(s, step) && !Apply(s, step).ended
    requires step.CreateAndPublish? || step.Get? || step.Refetch? || step.ListOwn?
    ensures TaskLayered(Apply(s, step), Apply(s, step).tasks[step.t])
  {
    EndedStaysEnded(s, step);
    if step.Refetch? {
      assert TaskLayered(s, s.tasks[step.t]);
    }
  }

  lemma {:induction false} TaskLayeredSurvives(s: System, step: Step, task: Task)
    requires AllLayered(s) && Enabled(s, step) && !Apply(s, step).ended && TaskLinked(s, task) && TaskLayered(s, task)
    ensures TaskLayered(Apply(s, step), task)
  {
    StepGrows(s, step);
    StepKeepsVersionsLayered(s, step);
    if task.Editing? || task.Marking? {
      assert CopyGrown(s, Apply(s, step), task.c);
    }
  }

  lemma {:induction false} SyncTaskLayered(s: System, step: Step)
    requires Enabled(s, step) && (step.SyncNode? || step.SyncController? || step.SyncPodVM?) && step.t in Apply(s, step).tasks
    ensures TaskLayered(Apply(s, step), Apply(s, step).tasks[step.t])
  {
  }

  lemma {:induction false} ReplayTaskLayered(s: System, step: Step)
    requires Enabled(s, step) && (step.CallDriver? || step.DialFails? || step.MarkReplay? || step.MarkReplayFails?)
    requires step.t in Apply(s, step).tasks
    ensures TaskLayered(Apply(s, step), Apply(s, step).tasks[step.t])
  {
    ReplayGoesOn(s, step);
  }

  lemma {:induction false} ActingTaskLayered(s: System, step: Step, t: nat)
    requires AllLayered(s) && Enabled(s, step) && InLifecycle(s, step) && !Apply(s, step).ended && t in Apply(s, step).tasks
    requires OfTask(step, t)
    ensures TaskLayered(Apply(s, step), Apply(s, step).tasks[t])
  {
    if step.WriteSpec? {
      SpecWriterTaskLayered(s, t, step.acknowledged);
    } else if step.CreateAndPublish? || step.Get? || step.Refetch? || step.ListOwn? {
      OwnTaskLayered(s, step);
    } else if step.SyncNode? || step.SyncController? || step.SyncPodVM? {
      SyncTaskLayered(s, step);
    } else if step.CallDriver? || step.DialFails? || step.MarkReplay? || step.MarkReplayFails? {
      ReplayTaskLayered(s, step);
    }
  }

  lemma {:induction false} StepKeepsTasksLayered(s: System, step: Step, t: nat)
    requires AllLayered(s) && Enabled(s, step) && InLifecycle(s, step) && !Apply(s, step).ended && t in Apply(s, step).tasks
    ensures TaskLayered(Apply(s, step), Apply(s, step).tasks[t])
  {
    if OfTask(step, t) {
      ActingTaskLayered(s, step, t);
    } else {
      EndedStaysEnded(s, step);
      TasksEffect(s, step, t);
      TaskLayeredSurvives(s, step, s.tasks[t]);
    }
  }

  lemma {:induction false} StepKeepsLayered(s: System, step: Step)
    requires AllLayered(s) && Enabled(s, step) && InLifecycle(s, step)
    ensures AllLayered(Apply(s, step))
  {
    var u := Apply(s, step);
    StepKeepsLinked(s, step);
    if !u.ended {
      StepKeepsVersionsLayered(s, step);
      StepKeepsFlags(s, step);
      forall t | t in u.tasks ensures TaskLayered(u, u.tasks[t]) {
        StepKeepsTasksLayered(s, step, t);
      }
    }
  }

  predicate InLifecycleRun(s: System, steps: seq<Step>)
    requires Possible(s, steps)
    decreases |steps|
  {
    steps == [] || (InLifecycle(s, steps[0]) && InLifecycleRun(Apply(s, steps[0]), steps[1..]))
  }

  lemma {:induction false} RunKeepsLayered(s: System, steps: seq<Step>)
    requires AllLayered(s) && Possible(s, steps) && InLifecycleRun(s, steps)
    ensures AllLayered(Run(s, steps))
    decreases |steps|
  {
    if steps != [] {
      StepKeepsLayered(s, steps[0]);
      RunKeepsLayered(Apply(s, steps[0]), steps[1..]);
    }
  }

  /** If calls come in lifecycle order, a copy that says the VM is running holds all three cached requests. */
  lemma ActiveCopiesHoldAllRequests(steps: seq<Step>, c: nat)
    requires Possible(START, steps) && InLifecycleRun(START, steps)
    requires !Run(START, steps).ended && c < |Run(START, steps).copies|
    ensures var v := Run(START, steps).copies[c].vol;
            AtLeastRunning(v.status) ==> v.spec.publishReq != "" && v.spec.stageReq != "" && v.spec.nodePublishReq != ""
  {
    var s := Run(START, steps);
    RunKeepsLayered(START, steps);
    RunKeepsIdentified(START, steps);
    CopyIdentified(s, c);
    assert CopyLinked(s.history, s.log, s.copies[c]);
    assert Layered(s.history[s.copies[c].version].spec);
  }

  // ----- the replayed NodeStageVolume carries the driver's own publish context -----

  /** No ControllerPublishVolume call overwrites the cached response of an applied publish. */
  predicate NoRepublish(s: System, step: Step) {
    step.WriteSpec? && Enabled(s, step) && s.tasks[step.t].work.Publish? && s.history != [] ==>
      !Last(s).status.ControllerPublishApplied?
  }

  /** Every replayed NodeStageVolume used a response that the driver had given for a named VM. */
  ghost predicate Genuine(log: seq<Event>) {
    forall i | 0 <= i < |log| && log[i].ReplayStage? ::
      && log[i].response.Real? && log[i].devicePath == log[i].response.devicePath
      && exists req, vmID :: vmID != "" && ReplayPublish(req, vmID, Some(log[i].response)) in log[..i]
  }

  ghost predicate AllGenuine(s: System) {
    && AllIdentified(s)
    && (!s.ended ==>
          && Genuine(s.log)
          && (forall i | 0 <= i < |s.history| && s.history[i].status.ControllerPublishApplied? :: Recorded(s.log, s.history[i].spec)))
  }

  /** A spec write that leaves the applied publish in place keeps its response, and so does a status write. */
  lemma {:induction false} SpecWriteGenuine(s: System, step: Step, v: Volume)
    requires AllGenuine(s) && !s.ended && Enabled(s, step) && NoRepublish(s, step) && step.WriteSpec? && !s.tasks[step.t].work.Unpublish?
    requires Wrote(s, step, v)
    ensures v.status.ControllerPublishApplied? ==> Recorded(s.log, v.spec)
  {
    var c := s.tasks[step.t].c;
    assert EditingLinked(s, s.tasks[step.t].work, c) by { assert TaskLinked(s, s.tasks[step.t]); }
    assert CopyLinked(s.history, s.log, s.copies[c]);
    assert s.history[s.copies[c].version] == Last(s);
  }

  lemma {:induction false} StatusWriteGenuine(s: System, step: Step, v: Volume)
    requires AllGenuine(s) && !s.ended && Enabled(s, step) && step.WriteStatus? && Wrote(s, step, v)
    ensures v.status.ControllerPublishApplied? ==> Recorded(s.log, v.spec)
  {
    var c := s.tasks[step.t].c;
    assert MarkingLinked(s, s.tasks[step.t].work, c) by { assert TaskLinked(s, s.tasks[step.t]); }
    assert CopyLinked(s.history, s.log, s.copies[c]);
    assert s.history[s.copies[c].version] == Last(s);
  }

  lemma {:induction false} NewVersionGenuine(s: System, step: Step, v: Volume)
    requires AllGenuine(s) && Enabled(s, step) && NoRepublish(s, step) && Wrote(s, step, v) && !Apply(s, step).ended
    ensures v.status.ControllerPublishApplied? ==> Recorded(s.log, v.spec)
  {
    EndedStaysEnded(s, step);
    if step.WriteSpec? {
      SpecWriteGenuine(s, step, v);
    } else if step.WriteStatus? {
      StatusWriteGenuine(s, step, v);
    }
  }

  lemma {:induction false} NewEventGenuine(s: System, step: Step, e: Event)
    requires AllGenuine(s) && !s.ended && Enabled(s, step) && Apply(s, step).log == s.log + [e]
    ensures Genuine(s.log + [e])
  {
    var log := s.log + [e];
    var f := StepGrowsLog(s, step);
    assert f == Some(e) by { assert log[|s.log|] == e; }
    if e.ReplayStage? {
      var c := s.tasks[step.t].c;
      assert TaskLinked(s, s.tasks[step.t]);
      assert CopyLinked(s.history, s.log, s.copies[c]);
      assert Recorded(s.log, s.history[s.copies[c].version].spec);
      assert Identified(s.history[s.copies[c].version]);
    }
    forall i | 0 <= i < |log| ensures i < |s.log| ==> log[i] == s.log[i] && log[..i] == s.log[..i] {}
    assert log[..|s.log|] == s.log;
  }

  lemma {:induction false} StepKeepsLogGenuine(s: System, step: Step)
    requires AllGenuine(s) && Enabled(s, step) && !Apply(s, step).ended
    ensures Genuine(Apply(s, step).log)
  {
    EndedStaysEnded(s, step);
    var e := StepGrowsLog(s, step);
    if e.Some? {
      NewEventGenuine(s, step, e.value);
    }
  }

  lemma {:induction false} StillRecorded(s: System, step: Step, spec: Spec)
    requires Enabled(s, step) && Recorded(s.log, spec)
    ensures Recorded(Apply(s, step).log, spec)
  {
    LogEffect(s, step);
  }

  lemma {:induction false} StepKeepsVersionsGenuine(s: System, step: Step, i: nat)
    requires AllGenuine(s) && Enabled(s, step) && NoRepublish(s, step) && !Apply(s, step).ended
    requires i < |Apply(s, step).history| && Apply(s, step).history[i].status.ControllerPublishApplied?
    ensures Recorded(Apply(s, step).log, Apply(s, step).history[i].spec)
  {
    var h := Apply(s, step).history;
    EndedStaysEnded(s, step);
    NewVersion(s, step);
    if i < |s.history| {
      assert h[i] == s.history[i];
    } else {
      NewVersionGenuine(s, step, h[|s.history|]);
    }
    StillRecorded(s, step, h[i].spec);
  }

  lemma {:induction false} StepKeepsGenuine(s: System, step: Step)
    requires AllGenuine(s) && Enabled(s, step) && NoRepublish(s, step)
    ensures AllGenuine(Apply(s, step))
  {
    var u := Apply(s, step);
    StepKeepsIdentified(s, step);
    if !u.ended {
      StepKeepsLogGenuine(s, step);
      forall i | 0 <= i < |u.history| && u.history[i].status.ControllerPublishApplied? ensures Recorded(u.log, u.history[i].spec) {
        StepKeepsVersionsGenuine(s, step, i);
      }
    }
  }

  ghost predicate NoRepublishRun(s: System, steps: seq<Step>)
    requires Possible(s, steps)
    decreases |steps|
  {
    steps == [] || (NoRepublish(s, steps[0]) && NoRepublishRun(Apply(s, steps[0]), steps[1..]))
  }

  lemma {:induction false} RunKeepsGenuine(s: System, steps: seq<Step>)
    requires AllGenuine(s) && Possible(s, steps) && NoRepublishRun(s, steps)
    ensures AllGenuine(Run(s, steps))
    decreases |steps|
  {
    if steps != [] {
      StepKeepsGenuine(s, steps[0]);
      RunKeepsGenuine(Apply(s, steps[0]), steps[1..]);
    }
  }

  /**
   Until the volume is unpublished, and if no ControllerPublishVolume call lands on an applied publish,
   each replayed NodeStageVolume carries the publish context and the device path of an earlier
   successful replayed ControllerPublishVolume for a named VM, never the wrapper's fake one.
   */
  lemma StagedContextIsReal(steps: seq<Step>)
    requires Possible(START, steps) && NoRepublishRun(START, steps) && !Run(START, steps).ended
    ensures Genuine(Run(START, steps).log)
  {
    RunKeepsGenuine(START, steps);
  }

  // ----- exactly when it carries the fake one -----

  /** Some continuation without such a call stages with a response that is not genuine. */
  ghost predicate CanFake(s: System) {
    exists rest :: Possible(s, rest) && NoRepublishRun(s, rest) && !Run(s, rest).ended && !Genuine(Run(s, rest).log)
  }

  lemma FakedCanFake(s: System)
    requires !s.ended && !Genuine(s.log)
    ensures CanFake(s)
  {
    assert Possible(s, []) && NoRepublishRun(s, []) && Run(s, []) == s;
  }

  lemma {:induction false} CanFakeBefore(s: System, step: Step)
    requires Enabled(s, step) && NoRepublish(s, step) && CanFake(Apply(s, step))
    ensures CanFake(s)
  {
    var u := Apply(s, step);
    var rest :| Possible(u, rest) && NoRepublishRun(u, rest) && !Run(u, rest).ended && !Genuine(Run(u, rest).log);
    OneStep(s, step, rest);
    assert ([step] + rest)[1..] == rest;
    assert NoRepublishRun(s, [step] + rest);
  }

  /** The current version says that the publish is applied, and holds the wrapper's own response. */
  ghost predicate Faked(s: System) {
    s.history != [] && Last(s).status.ControllerPublishApplied? && Last(s).spec.publishRes.Fake? && !s.ended
  }

  lemma {:induction false} FakedIsStaged(s: System, t: nat)
    requires Faked(s) && Last(s).spec.stageReq != "" && t !in s.tasks
    ensures CanFake(s)
  {
    var spec := Last(s).spec;
    var deliver := Deliver(|s.history| - 1);
    var s1 := Apply(s, deliver);
    var sync := SyncPodVM(t, |s.copies|, spec.podName, spec.podNamespace);
    var s2 := Apply(s1, sync);
    var call := CallDriver(t, true);
    var s3 := Apply(s2, call);
    assert s3.log == s.log + [ReplayStage(spec.stageReq, Fake, spec.devicePath, true)];
    assert s3.log[|s.log|].ReplayStage? && !s3.log[|s.log|].response.Real?;
    FakedCanFake(s3);
    CanFakeBefore(s2, call);
    CanFakeBefore(s1, sync);
    CanFakeBefore(s, deliver);
  }

  /** Where no stage request is cached yet, a NodeStageVolume call supplies one. */
  lemma {:induction false} FakedIsStagedLater(s: System, t: nat, t2: nat)
    requires Faked(s) && t !in s.tasks && t2 !in s.tasks && t != t2
    ensures CanFake(s)
  {
    if Last(s).spec.stageReq != "" {
      FakedIsStaged(s, t);
    } else {
      var get := Get(t2, Stage("stage"));
      var s1 := Apply(s, get);
      var write := WriteSpec(t2, true);
      var s2 := Apply(s1, write);
      assert Last(s2) == Volume(Last(s).spec.(stageReq := "stage"), ControllerPublishApplied);
      FakedIsStaged(s2, t);
      CanFakeBefore(s1, write);
      CanFakeBefore(s, get);
    }
  }

  lemma {:induction false} UnusedAbove(keys: set<nat>) returns (bound: nat)
    ensures forall k | k in keys :: k < bound
  {
    bound := 0;
    if keys != {} {
      var k :| k in keys;
      var rest := UnusedAbove(keys - {k});
      bound := if k < rest then rest else k + 1;
      forall x | x in keys ensures x < bound {
        assert x == k || x in keys - {k};
      }
    }
  }

  lemma {:induction false} RepublishFakes(s: System, step: Step)
    requires Enabled(s, step) && !NoRepublish(s, step) && !s.ended
    ensures Faked(Apply(s, step))
  {
  }

  /**
   The hypothesis is exact: at any moment of a run that obeys it, before the volume is unpublished, a step can
   make the pod VM stage with a response that is not genuine if and only if it is the spec write of a
   ControllerPublishVolume call on a publish that is applied already.
   */
  lemma ContextIsFakedExactly(steps: seq<Step>, step: Step)
    requires Possible(START, steps) && NoRepublishRun(START, steps) && !Run(START, steps).ended
    requires Enabled(Run(START, steps), step)
    ensures CanFake(Apply(Run(START, steps), step)) <==> !NoRepublish(Run(START, steps), step)
  {
    var s := Run(START, steps);
    RunKeepsGenuine(START, steps);
    var u := Apply(s, step);
    if NoRepublish(s, step) {
      StepKeepsGenuine(s, step);
      forall rest | Possible(u, rest) && NoRepublishRun(u, rest) ensures Run(u, rest).ended || Genuine(Run(u, rest).log) {
        RunKeepsGenuine(u, rest);
      }
    } else {
      RepublishFakes(s, step);
      var free := UnusedAbove(u.tasks.Keys);
      FakedIsStagedLater(u, free, free + 1);
    }
  }
}
