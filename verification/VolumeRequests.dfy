/** Where the requests and the names in the volume object, and in the replayed calls, come from. */
module VolumeRequests {
  import opened Results
  import opened VolumeProtocol
  import opened VolumeSafety
  import opened VolumeChain

  /** A VM ID that a node found for the pod that one start of a pod VM named, on the node that it named. */
  ghost predicate KnownVM(calls: seq<Call>, vmID: string) {
    exists nodeName, podName, podNamespace ::
      Found(nodeName, podName, podNamespace, vmID) in calls && OneStart(calls, nodeName, podName, podNamespace)
  }

  ghost predicate OneStart(calls: seq<Call>, nodeName: string, podName: string, podNamespace: string) {
    nodeName == podName == podNamespace == "" || Made(StartUp(podName, podNamespace, nodeName)) in calls
  }

  /**
   Each cached request is that of a call of its kind; the pod UID, its label and the NodePublishVolume
   request are those of one and the same call; pod name, namespace and node are those of one start.
   */
  ghost predicate RequestsFromCalls(calls: seq<Call>, spec: Spec) {
    && (spec.publishReq != "" ==> Made(Publish(spec.publishReq)) in calls)
    && (spec.stageReq != "" ==> Made(Stage(spec.stageReq)) in calls)
    && (spec.nodePublishReq != "" || spec.podUid != "" || spec.podUidLabel != "" ==>
          spec.podUidLabel == spec.podUid && Made(NodePublish(spec.nodePublishReq, spec.podUid)) in calls)
    && (spec.unpublishReq != "" ==> Made(NodeUnpublish(spec.unpublishReq)) in calls)
    && (spec.unstageReq != "" ==> Made(NodeUnstage(spec.unstageReq)) in calls)
    && OneStart(calls, spec.nodeName, spec.podName, spec.podNamespace)
  }

  ghost predicate FromCalls(calls: seq<Call>, spec: Spec) {
    && RequestsFromCalls(calls, spec)
    && (spec.vmID != "" ==> KnownVM(calls, spec.vmID))
  }

  /** A driver call carries the request of a call of its kind, to a VM that was looked up. */
  ghost predicate EventFromCalls(calls: seq<Call>, e: Event) {
    match e
    case ReplayPublish(req, vmID, _) => Made(Publish(req)) in calls && (vmID != "" ==> KnownVM(calls, vmID))
    case ReplayStage(req, _, _, _) => Made(Stage(req)) in calls
    case ReplayNodePublish(req, _) => exists podUid :: Made(NodePublish(req, podUid)) in calls
    case DriverUnpublish(vmID) => vmID != "" ==> KnownVM(calls, vmID)
    case _ => true
  }

  /** A pod VM replays only a cached request of a volume whose pod was started under its own name. */
  ghost predicate OwnPod(calls: seq<Call>, podName: string, podNamespace: string, req: string) {
    && (exists nodeName :: OneStart(calls, nodeName, podName, podNamespace))
    && (Made(Stage(req)) in calls || exists podUid :: Made(NodePublish(req, podUid)) in calls)
  }

  ghost predicate BegunFromCalls(calls: seq<Call>) {
    forall call | call in calls && call.Began? :: OwnPod(calls, call.podName, call.podNamespace, call.req)
  }

  ghost predicate TaskFromCalls(s: System, task: Task) {
    match task
    case Editing(work, c) => work.RecordVM? || work.RecordPublish? || Made(work) in s.calls
    case Replaying(stage, c, _) =>
      c < |s.copies| && if stage then s.copies[c].vol.spec.stageReq != "" else s.copies[c].vol.spec.nodePublishReq != ""
    case Answered(stage, c, _) =>
      c < |s.copies| && if stage then s.copies[c].vol.spec.stageReq != "" else s.copies[c].vol.spec.nodePublishReq != ""
    case _ => true
  }

  ghost predicate AllFromCalls(s: System) {
    && (forall i | 0 <= i < |s.history| :: FromCalls(s.calls, s.history[i].spec))
    && (forall c | 0 <= c < |s.copies| :: FromCalls(s.calls, s.copies[c].vol.spec))
    && (forall t | t in s.tasks :: TaskFromCalls(s, s.tasks[t]))
    && (forall e | e in s.log :: EventFromCalls(s.calls, e))
    && BegunFromCalls(s.calls)
  }

  // ----- one step -----

  lemma {:induction false} CallsEffect(s: System, step: Step)
    requires Enabled(s, step)
    ensures forall call | call in s.calls :: call in Apply(s, step).calls
  {
    assert s.calls <= Apply(s, step).calls;
  }

  lemma {:induction false} FoundVMIsKnown(s: System, step: Step)
    requires AllFromCalls(s) && Enabled(s, step) && step.SyncNode?
    ensures KnownVM(Apply(s, step).calls, step.vmID)
  {
    var calls := Apply(s, step).calls;
    var spec := s.copies[step.c].vol.spec;
    CallsEffect(s, step);
    assert FromCalls(s.calls, spec);
    assert calls[|s.calls|] == Found(step.nodeName, spec.podName, spec.podNamespace, step.vmID);
    assert OneStart(calls, step.nodeName, spec.podName, spec.podNamespace);
  }

  lemma KnownVMStaysKnown(calls: seq<Call>, more: seq<Call>, vmID: string)
    requires KnownVM(calls, vmID) && forall call | call in calls :: call in more
    ensures KnownVM(more, vmID)
  {
    var nodeName, podName, podNamespace :|
      Found(nodeName, podName, podNamespace, vmID) in calls && OneStart(calls, nodeName, podName, podNamespace);
    assert Found(nodeName, podName, podNamespace, vmID) in more && OneStart(more, nodeName, podName, podNamespace);
  }

  lemma MoreCalls(calls: seq<Call>, more: seq<Call>, spec: Spec)
    requires FromCalls(calls, spec) && forall call | call in calls :: call in more
    ensures FromCalls(more, spec)
  {
    if spec.vmID != "" {
      KnownVMStaysKnown(calls, more, spec.vmID);
    }
  }

  lemma MoreCallsForEvent(calls: seq<Call>, more: seq<Call>, e: Event)
    requires EventFromCalls(calls, e) && forall call | call in calls :: call in more
    ensures EventFromCalls(more, e)
  {
    if (e.ReplayPublish? || e.DriverUnpublish?) && e.vmID != "" {
      KnownVMStaysKnown(calls, more, e.vmID);
    }
  }

  lemma {:induction false} EditedRequestsFromCalls(calls: seq<Call>, work: Work, spec: Spec)
    requires RequestsFromCalls(calls, spec) && (work.RecordVM? || work.RecordPublish? || Made(work) in calls)
    ensures RequestsFromCalls(calls, Edit(work, spec))
    ensures Edit(work, spec).vmID == spec.vmID || Edit(work, spec).vmID == ""
  {
    match work
    case Publish(_) =>
    case Stage(_) =>
    case NodePublish(_, _) =>
    case NodeUnpublish(_) =>
    case NodeUnstage(_) =>
    case Unpublish =>
    case StartUp(_, _, _) =>
    case RecordVM =>
    case RecordPublish =>
  }

  lemma EditFromCalls(calls: seq<Call>, work: Work, spec: Spec)
    requires FromCalls(calls, spec) && (work.RecordVM? || work.RecordPublish? || Made(work) in calls)
    ensures FromCalls(calls, Edit(work, spec))
  {
    EditedRequestsFromCalls(calls, work, spec);
    if spec.vmID != "" {
      KnownVMStaysKnown(calls, calls, spec.vmID);
    }
  }

  lemma {:induction false} NewVersionFromCalls(s: System, step: Step, v: Volume)
    requires AllFromCalls(s) && Enabled(s, step) && Wrote(s, step, v)
    ensures FromCalls(s.calls, v.spec)
  {
    if step.WriteSpec? {
      var c := s.tasks[step.t].c;
      assert TaskFromCalls(s, s.tasks[step.t]);
      EditFromCalls(s.calls, s.tasks[step.t].work, s.copies[c].vol.spec);
    } else if step.WriteStatus? || step.MarkReplay? {
      assert FromCalls(s.calls, Last(s).spec);
    }
  }

  lemma {:induction false} VersionIsFromCalls(s: System, step: Step, h: seq<Volume>, i: nat)
    requires AllFromCalls(s) && Enabled(s, step) && i < |h|
    requires h == s.history || (|h| == |s.history| + 1 && h[..|s.history|] == s.history && Wrote(s, step, h[|s.history|]))
    ensures FromCalls(s.calls, h[i].spec)
  {
    if i < |s.history| {
      assert h[i] == s.history[i] by { assert h[..|s.history|] == s.history; }
    } else {
      NewVersionFromCalls(s, step, h[i]);
    }
  }

  lemma {:induction false} StepKeepsVersionsFromCalls(s: System, step: Step, i: nat)
    requires AllFromCalls(s) && Enabled(s, step) && i < |Apply(s, step).history|
    ensures FromCalls(Apply(s, step).calls, Apply(s, step).history[i].spec)
  {
    NewVersion(s, step);
    CallsEffect(s, step);
    VersionIsFromCalls(s, step, Apply(s, step).history, i);
    MoreCalls(s.calls, Apply(s, step).calls, Apply(s, step).history[i].spec);
  }

  /** A cached copy changes in its VM ID, its publish response and its status only. */
  lemma {:induction false} TouchedCopyKeepsRequests(s: System, step: Step)
    requires Enabled(s, step) && Touched(s, step).Some?
    ensures var c := Touched(s, step).value;
            && c < |s.copies| == |Apply(s, step).copies|
            && var spec := Apply(s, step).copies[c].vol.spec;
               && spec == s.copies[c].vol.spec.(vmID := spec.vmID, publishRes := spec.publishRes, devicePath := spec.devicePath)
               && spec.vmID == if step.SyncNode? then step.vmID else s.copies[c].vol.spec.vmID
  {
  }

  lemma {:induction false} StepKeepsCopiesFromCalls(s: System, step: Step, c: nat)
    requires AllFromCalls(s) && Enabled(s, step) && c < |Apply(s, step).copies|
    ensures FromCalls(Apply(s, step).calls, Apply(s, step).copies[c].vol.spec)
  {
    var u := Apply(s, step);
    CopiesEffect(s, step);
    CallsEffect(s, step);
    if c == |s.copies| {
      NewCopyEffect(s, step);
      StepKeepsVersionsFromCalls(s, step, u.copies[c].version);
    } else {
      MoreCalls(s.calls, u.calls, s.copies[c].vol.spec);
      if Touched(s, step) == Some(c) {
        TouchedCopyKeepsRequests(s, step);
        if step.SyncNode? {
          FoundVMIsKnown(s, step);
        }
      }
    }
  }

  lemma {:induction false} StepKeepsRequests(s: System, step: Step, c: nat)
    requires Enabled(s, step) && c < |s.copies|
    ensures c < |Apply(s, step).copies|
    ensures Apply(s, step).copies[c].vol.spec.stageReq == s.copies[c].vol.spec.stageReq
    ensures Apply(s, step).copies[c].vol.spec.nodePublishReq == s.copies[c].vol.spec.nodePublishReq
  {
    CopiesEffect(s, step);
    if Touched(s, step) == Some(c) {
      TouchedCopyKeepsRequests(s, step);
    }
  }

  lemma {:induction false} TaskFromCallsSurvives(s: System, step: Step, task: Task)
    requires Enabled(s, step) && TaskFromCalls(s, task)
    ensures TaskFromCalls(Apply(s, step), task)
  {
    CallsEffect(s, step);
    if task.Replaying? || task.Answered? {
      StepKeepsRequests(s, step, task.c);
    }
  }

  lemma {:induction false} FreshTaskFromCalls(s: System, step: Step)
    requires Enabled(s, step) && (step.CreateAndPublish? || step.Get? || step.ListOwn? || step.SyncPodVM?)
    ensures TaskFromCalls(Apply(s, step), Apply(s, step).tasks[step.t])
  {
    var u := Apply(s, step);
    if !step.SyncPodVM? {
      assert u.calls[|s.calls|] == Made(u.tasks[step.t].work);
    }
  }

  lemma {:induction false} OwnTaskFromCalls(s: System, step: Step, t: nat)
    requires AllFromCalls(s) && Enabled(s, step) && OfTask(step, t) && t in Apply(s, step).tasks
    ensures TaskFromCalls(Apply(s, step), Apply(s, step).tasks[t])
  {
    match step
    case WriteSpec(_, acknowledged) => SpecWriterLeavesNoEdit(s, t, acknowledged);
    case CreateAndPublish(_, _, _) => FreshTaskFromCalls(s, step);
    case Get(_, _) => FreshTaskFromCalls(s, step);
    case ListOwn(_, _, _) => FreshTaskFromCalls(s, step);
    case SyncPodVM(_, _, _, _) => FreshTaskFromCalls(s, step);
    case CallDriver(_, _) => ReplayFromCalls(s, step);
    case DialFails(_) => ReplayFromCalls(s, step);
    case MarkReplay(_, _) => ReplayFromCalls(s, step);
    case MarkReplayFails(_) => ReplayFromCalls(s, step);
    case _ =>
  }

  lemma {:induction false} SpecWriterLeavesNoEdit(s: System, t: nat, acknowledged: bool)
    requires t in s.tasks && s.tasks[t].Editing? && Current(s, s.tasks[t].c)
    ensures var tasks := AfterSpecWrite(s, t, acknowledged).tasks;
            t in tasks ==> tasks[t].Refetching? || tasks[t].Marking?
  {
  }

  lemma {:induction false} ReplayFromCalls(s: System, step: Step)
    requires AllFromCalls(s) && Enabled(s, step) && (step.CallDriver? || step.DialFails? || step.MarkReplay? || step.MarkReplayFails?)
    requires step.t in Apply(s, step).tasks
    ensures TaskFromCalls(Apply(s, step), Apply(s, step).tasks[step.t])
  {
    ReplayGoesOn(s, step);
    assert TaskFromCalls(s, s.tasks[step.t]);
    TaskFromCallsSurvives(s, step, s.tasks[step.t]);
  }

  lemma {:induction false} StepKeepsTasksFromCalls(s: System, step: Step, t: nat)
    requires AllFromCalls(s) && Enabled(s, step) && t in Apply(s, step).tasks
    ensures TaskFromCalls(Apply(s, step), Apply(s, step).tasks[t])
  {
    if OfTask(step, t) {
      OwnTaskFromCalls(s, step, t);
    } else {
      TasksEffect(s, step, t);
      TaskFromCallsSurvives(s, step, s.tasks[t]);
    }
  }

  lemma EventFromSpec(calls: seq<Call>, spec: Spec, e: Event)
    requires FromCalls(calls, spec)
    requires match e
             case ReplayPublish(req, vmID, _) => req == spec.publishReq != "" && vmID == spec.vmID
             case ReplayStage(req, _, _, _) => req == spec.stageReq != ""
             case ReplayNodePublish(req, _) => req == spec.nodePublishReq != ""
             case DriverUnpublish(vmID) => vmID == spec.vmID
             case _ => true
    ensures EventFromCalls(calls, e)
  {
    if spec.vmID != "" {
      KnownVMStaysKnown(calls, calls, spec.vmID);
    }
  }

  lemma {:induction false} NewEventFromCalls(s: System, step: Step, e: Event)
    requires AllFromCalls(s) && Enabled(s, step) && Apply(s, step).log == s.log + [e]
    ensures EventFromCalls(s.calls, e)
  {
    var f := StepGrowsLog(s, step);
    assert f == Some(e) by { assert (s.log + [e])[|s.log|] == e; }
    if step.CallDriver? {
      assert TaskFromCalls(s, s.tasks[step.t]);
      EventFromSpec(s.calls, s.copies[s.tasks[step.t].c].vol.spec, e);
    } else if step.SyncController? {
      EventFromSpec(s.calls, s.copies[step.c].vol.spec, e);
    } else if step.Get? {
      EventFromSpec(s.calls, Last(s).spec, e);
    }
  }

  lemma {:induction false} StepKeepsEventsFromCalls(s: System, step: Step, e: Event)
    requires AllFromCalls(s) && Enabled(s, step) && e in Apply(s, step).log
    ensures EventFromCalls(Apply(s, step).calls, e)
  {
    CallsEffect(s, step);
    if e !in s.log {
      var f := StepGrowsLog(s, step);
      NewEventFromCalls(s, step, f.value);
    }
    MoreCallsForEvent(s.calls, Apply(s, step).calls, e);
  }

  lemma OwnPodStaysOwn(calls: seq<Call>, more: seq<Call>, podName: string, podNamespace: string, req: string)
    requires OwnPod(calls, podName, podNamespace, req) && forall call | call in calls :: call in more
    ensures OwnPod(more, podName, podNamespace, req)
  {
    var nodeName :| OneStart(calls, nodeName, podName, podNamespace);
    assert OneStart(more, nodeName, podName, podNamespace);
  }

  lemma OwnPodOfSpec(calls: seq<Call>, spec: Spec, stage: bool)
    requires RequestsFromCalls(calls, spec) && (if stage then spec.stageReq else spec.nodePublishReq) != ""
    ensures OwnPod(calls, spec.podName, spec.podNamespace, if stage then spec.stageReq else spec.nodePublishReq)
  {
    assert OneStart(calls, spec.nodeName, spec.podName, spec.podNamespace);
  }

  lemma {:induction false} NewCall(s: System, step: Step, call: Call)
    requires Enabled(s, step) && call in Apply(s, step).calls && call.Began? && call !in s.calls
    ensures step.SyncPodVM?
    ensures var spec := s.copies[step.c].vol.spec;
            var stage := s.copies[step.c].vol.status.ControllerPublishApplied?;
            call == Began(spec.podName, spec.podNamespace, if stage then spec.stageReq else spec.nodePublishReq)
  {
  }

  lemma {:induction false} StepKeepsBegun(s: System, step: Step)
    requires AllFromCalls(s) && Enabled(s, step)
    ensures BegunFromCalls(Apply(s, step).calls)
  {
    var calls := Apply(s, step).calls;
    CallsEffect(s, step);
    forall call | call in calls && call.Began? ensures OwnPod(calls, call.podName, call.podNamespace, call.req) {
      if call !in s.calls {
        NewCall(s, step, call);
        assert FromCalls(s.calls, s.copies[step.c].vol.spec);
        OwnPodOfSpec(s.calls, s.copies[step.c].vol.spec, s.copies[step.c].vol.status.ControllerPublishApplied?);
      }
      OwnPodStaysOwn(s.calls, calls, call.podName, call.podNamespace, call.req);
    }
  }

  lemma {:induction false} StepKeepsFromCalls(s: System, step: Step)
    requires AllFromCalls(s) && Enabled(s, step)
    ensures AllFromCalls(Apply(s, step))
  {
    var u := Apply(s, step);
    forall i | 0 <= i < |u.history| ensures FromCalls(u.calls, u.history[i].spec) {
      StepKeepsVersionsFromCalls(s, step, i);
    }
    forall c | 0 <= c < |u.copies| ensures FromCalls(u.calls, u.copies[c].vol.spec) {
      StepKeepsCopiesFromCalls(s, step, c);
    }
    forall t | t in u.tasks ensures TaskFromCalls(u, u.tasks[t]) {
      StepKeepsTasksFromCalls(s, step, t);
    }
    forall e | e in u.log ensures EventFromCalls(u.calls, e) {
      StepKeepsEventsFromCalls(s, step, e);
    }
    StepKeepsBegun(s, step);
  }

  // ----- every run -----

  lemma {:induction false} RunKeepsFromCalls(s: System, steps: seq<Step>)
    requires AllFromCalls(s) && Possible(s, steps)
    ensures AllFromCalls(Run(s, steps))
    decreases |steps|
  {
    if steps != [] {
      StepKeepsFromCalls(s, steps[0]);
      RunKeepsFromCalls(Apply(s, steps[0]), steps[1..]);
    }
  }

  /**
   In every run, also after the volume is unpublished: pod UID, label and cached NodePublishVolume request
   of any copy are those of one call that was made, or all three are empty.
   */
  lemma CopiesCarryOneCall(steps: seq<Step>, c: nat)
    requires Possible(START, steps) && c < |Run(START, steps).copies|
    ensures var s := Run(START, steps);
            var spec := s.copies[c].vol.spec;
            || (spec.podUid == "" && spec.podUidLabel == "" && spec.nodePublishReq == "")
            || (spec.podUidLabel == spec.podUid && Made(NodePublish(spec.nodePublishReq, spec.podUid)) in s.calls)
  {
    RunKeepsFromCalls(START, steps);
    var s := Run(START, steps);
    assert FromCalls(s.calls, s.copies[c].vol.spec);
  }

  /** Every replayed call carries the request of a call of its kind that was made before it. */
  lemma ReplaysCarryEarlierRequests(steps: seq<Step>, step: Step, e: Event)
    requires Possible(START, steps) && Enabled(Run(START, steps), step)
    requires Apply(Run(START, steps), step).log == Run(START, steps).log + [e]
    ensures var calls := Run(START, steps).calls;
            && (e.ReplayPublish? ==> Made(Publish(e.req)) in calls)
            && (e.ReplayStage? ==> Made(Stage(e.req)) in calls)
            && (e.ReplayNodePublish? ==> exists podUid :: Made(NodePublish(e.req, podUid)) in calls)
            && (e.ReplayPublish? || e.DriverUnpublish? ==> e.vmID == "" || KnownVM(calls, e.vmID))
  {
    RunKeepsFromCalls(START, steps);
    NewEventFromCalls(Run(START, steps), step, e);
  }

  /** In every run, a pod VM begins a replay only of a request that was made, for a volume whose pod a start of its own name and namespace named. */
  lemma PodVMsReplayTheirOwn(steps: seq<Step>, call: Call)
    requires Possible(START, steps) && call in Run(START, steps).calls && call.Began?
    ensures OwnPod(Run(START, steps).calls, call.podName, call.podNamespace, call.req)
  {
    RunKeepsFromCalls(START, steps);
  }
}
