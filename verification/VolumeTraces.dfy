/** Runs of the volume protocol, from its start, that show which hypotheses its results need. */
module VolumeTraces {
  import opened Results
  import opened VolumeProtocol
  import opened VolumeChain
  import opened VolumeData

  /** Some run ends in this state. */
  ghost predicate Reached(s: System) {
    exists steps :: Possible(START, steps) && Run(START, steps) == s
  }

  lemma {:induction false} RunsCompose(s: System, first: seq<Step>, second: seq<Step>)
    requires Possible(s, first) && Possible(Run(s, first), second)
    ensures Possible(s, first + second) && Run(s, first + second) == Run(Run(s, first), second)
    decreases |first|
  {
    if first == [] {
      assert [] + second == second;
    } else {
      assert (first + second)[0] == first[0] && (first + second)[1..] == first[1..] + second;
      RunsCompose(Apply(s, first[0]), first[1..], second);
    }
  }

  lemma ReachedLater(s: System, steps: seq<Step>)
    requires Reached(s) && Possible(s, steps)
    ensures Reached(Run(s, steps))
  {
    var first :| Possible(START, first) && Run(START, first) == s;
    RunsCompose(START, first, steps);
  }

  lemma ReachedNext(s: System, step: Step) returns (u: System)
    requires Reached(s) && Enabled(s, step)
    ensures Reached(u) && u == Apply(s, step)
  {
    OneStep(s, step, []);
    ReachedLater(s, [step] + []);
    u := Apply(s, step);
  }

  /** Some run in which calls come in lifecycle order ends in this state. */
  ghost predicate Course(s: System) {
    exists steps :: InOrderRun(START, steps, s)
  }

  predicate InOrderRun(s: System, steps: seq<Step>, u: System) {
    Possible(s, steps) && InLifecycleRun(s, steps) && Run(s, steps) == u
  }

  lemma {:induction false} OneMoreStep(s: System, steps: seq<Step>, u: System, step: Step)
    requires InOrderRun(s, steps, u) && Enabled(u, step) && InLifecycle(u, step)
    ensures InOrderRun(s, steps + [step], Apply(u, step))
    decreases |steps|
  {
    if steps == [] {
      assert ([] + [step])[1..] == [];
    } else {
      OneMoreStep(Apply(s, steps[0]), steps[1..], u, step);
      assert (steps + [step])[1..] == steps[1..] + [step];
    }
  }

  lemma Next(s: System, step: Step) returns (u: System)
    requires Course(s) && Enabled(s, step) && InLifecycle(s, step)
    ensures Course(u) && u == Apply(s, step)
  {
    var steps :| InOrderRun(START, steps, s);
    OneMoreStep(START, steps, s, step);
    u := Apply(s, step);
  }

  lemma CourseIsReached(s: System)
    requires Course(s)
    ensures Reached(s)
  {
    var steps :| InOrderRun(START, steps, s);
  }

  /** No handler is at work; this is the current version, and these are the driver calls so far. */
  predicate Quiet(s: System, vol: Volume, log: seq<Event>) {
    s.history != [] && Last(s) == vol && s.tasks == map[] && !s.ended && s.log == log
  }

  predicate SameAnswers(s: System, u: System) {
    u.published == s.published && u.staged == s.staged
  }

  /** A write of the spec by the object of a call or handler that holds the current version. */
  lemma SpecWritten(s: System, work: Work, c: nat) returns (u: System)
    requires Course(s) && s.tasks == map[0 := Editing(work, c)] && Current(s, c) && !s.ended && s.history != []
    requires !work.Unpublish? && !work.NodeUnpublish? && !work.NodeUnstage?
    ensures Course(u) && !u.ended && u.history != [] && u.log == s.log && SameAnswers(s, u)
    ensures Last(u) == Volume(Edit(work, s.copies[c].vol.spec), Last(s).status)
    ensures if work.Stage? || work.NodePublish? then u.tasks == map[0 := Refetching(work)]
            else u.tasks == map[0 := Marking(work, |s.copies|)] && Current(u, |s.copies|)
  {
    u := Next(s, WriteSpec(0, true));
  }

  lemma StatusWritten(s: System, work: Work, c: nat) returns (u: System)
    requires Course(s) && s.tasks == map[0 := Marking(work, c)] && Current(s, c) && !s.ended && s.history != []
    ensures Course(u) && Quiet(u, Volume(Last(s).spec, Target(work, s.copies[c].vol.status)), s.log)
    ensures u.published == (s.published || work.Publish?) && u.staged == (s.staged || work.Stage?)
  {
    u := Next(s, WriteStatus(0, true));
  }

  /** A NodeStageVolume or NodePublishVolume call from beginning to end. */
  lemma NodeCall(s: System, vol: Volume, log: seq<Event>, work: Work) returns (u: System)
    requires Course(s) && Quiet(s, vol, log) && IsCall(work) && (work.Stage? || work.NodePublish?)
    requires if work.Stage? then s.published else s.staged
    ensures Course(u) && Quiet(u, Volume(Edit(work, vol.spec), if work.Stage? then NodeStageCached else NodePublishCached), log)
    ensures u.published == s.published && u.staged == (s.staged || work.Stage?)
  {
    var s1 := Next(s, Get(0, work));
    var s2 := SpecWritten(s1, work, |s.copies|);
    var s3 := Next(s2, Refetch(0));
    u := StatusWritten(s3, work, |s2.copies|);
  }

  /**
   A ControllerPublishVolume call for a volume without an object.  When the call goes to the driver, because
   the volume is not marked for peer pods, the object is created and the call is cached all the same.
   */
  lemma PublishIsCached(req: string, redirected: bool) returns (u: System)
    requires req != ""
    ensures Course(u) && u.published
    ensures Quiet(u, Volume(EMPTY_SPEC.(publishReq := req, publishRes := Fake), ControllerPublishCached), if redirected then [DirectPublish] else [])
  {
    assert InOrderRun(START, [], START);
    var s1 := Next(START, CreateAndPublish(0, req, redirected));
    var s2 := SpecWritten(s1, Publish(req), 0);
    u := StatusWritten(s2, Publish(req), |s1.copies|);
  }

  lemma StartedUp(s: System, vol: Volume, log: seq<Event>, podName: string, podNamespace: string, nodeName: string) returns (u: System)
    requires Course(s) && Quiet(s, vol, log) && vol.spec.podUidLabel != ""
    ensures Course(u) && Quiet(u, Volume(vol.spec.(podName := podName, podNamespace := podNamespace, nodeName := nodeName), VSIRunning), log)
  {
    var work := StartUp(podName, podNamespace, nodeName);
    var s1 := Next(s, ListOwn(0, vol.spec.podUidLabel, work));
    var s2 := SpecWritten(s1, work, |s.copies|);
    u := StatusWritten(s2, work, |s1.copies|);
  }

  lemma RecordedVM(s: System, vol: Volume, log: seq<Event>, vmID: string) returns (u: System)
    requires Course(s) && Quiet(s, vol, log) && vol.status.VSIRunning? && vmID != ""
    ensures Course(u) && Quiet(u, Volume(vol.spec.(vmID := vmID), VSIIDReady), log)
  {
    var s1 := Next(s, Deliver(|s.history| - 1));
    var s2 := Next(s1, SyncNode(0, |s.copies|, vol.spec.nodeName, vmID));
    var s3 := SpecWritten(s2, RecordVM, |s.copies|);
    u := StatusWritten(s3, RecordVM, |s2.copies|);
  }

  lemma RecordedPublish(s: System, vol: Volume, log: seq<Event>, response: Response) returns (u: System)
    requires Course(s) && Quiet(s, vol, log) && vol.status.VSIIDReady? && vol.spec.devicePath == "" && vol.spec.publishReq != "" && response.Real?
    ensures Course(u)
    ensures Quiet(u, Volume(vol.spec.(publishRes := response, devicePath := response.devicePath), ControllerPublishApplied),
                  log + [ReplayPublish(vol.spec.publishReq, vol.spec.vmID, Some(response))])
  {
    var s1 := Next(s, Deliver(|s.history| - 1));
    var s2 := Next(s1, SyncController(0, |s.copies|, Some(response)));
    var s3 := SpecWritten(s2, RecordPublish, |s.copies|);
    u := StatusWritten(s3, RecordPublish, |s2.copies|);
  }

  /** The cached requests of a volume, the names of its pod and VM, and the response of the driver. */
  datatype Plan = Plan(
    publish: string, stage: string, nodePublish: string, podUid: string,
    podName: string, podNamespace: string, nodeName: string, vmID: string, response: Response)

  predicate Complete(plan: Plan) {
    plan.publish != "" && plan.stage != "" && plan.nodePublish != "" && plan.podUid != "" && plan.vmID != "" && plan.response.Real?
  }

  /** The spec once every call is cached and the driver has published the volume to the VM. */
  function Filled(plan: Plan): Spec
    requires plan.response.Real?
  {
    Spec(plan.podUid, plan.podName, plan.podNamespace, plan.nodeName, plan.podUid, plan.vmID, plan.response.devicePath,
         plan.publish, plan.response, plan.stage, plan.nodePublish, "", "")
  }

  lemma Cached(plan: Plan) returns (u: System, vol: Volume)
    requires Complete(plan)
    ensures Course(u) && Quiet(u, vol, []) && vol.status.NodePublishCached?
    ensures vol.spec == EMPTY_SPEC.(publishReq := plan.publish, publishRes := Fake, stageReq := plan.stage,
                                    nodePublishReq := plan.nodePublish, podUid := plan.podUid, podUidLabel := plan.podUid)
  {
    u := PublishIsCached(plan.publish, false);
    vol := Last(u);
    u := NodeCall(u, vol, [], Stage(plan.stage));
    vol := Last(u);
    u := NodeCall(u, vol, [], NodePublish(plan.nodePublish, plan.podUid));
    vol := Last(u);
  }

  function PublishEvent(plan: Plan): Event {
    ReplayPublish(plan.publish, plan.vmID, Some(plan.response))
  }

  /** The regular course of a volume up to the replayed ControllerPublishVolume. */
  lemma PublishApplied(plan: Plan) returns (u: System)
    requires Complete(plan)
    ensures Course(u) && Quiet(u, Volume(Filled(plan), ControllerPublishApplied), [PublishEvent(plan)])
  {
    var vol;
    u, vol := Cached(plan);
    u := StartedUp(u, vol, [], plan.podName, plan.podNamespace, plan.nodeName);
    u := RecordedVM(u, Last(u), [], plan.vmID);
    u := RecordedPublish(u, Last(u), [], plan.response);
  }

  /** The pod VM has replayed a call and is about to write the status, from a current copy. */
  lemma Replayed(s: System, plan: Plan, stage: bool, log: seq<Event>) returns (u: System)
    requires Complete(plan) && Course(s) && Quiet(s, Volume(Filled(plan), if stage then ControllerPublishApplied else NodeStageApplied), log)
    ensures Course(u) && !u.ended && u.tasks == map[0 := Answered(stage, |s.copies|, 0)] && Current(u, |s.copies|)
    ensures u.copies[|s.copies|].cached && u.copies[|s.copies|].vol == Last(s) && u.history == s.history
    ensures u.log == log + [if stage then ReplayStage(plan.stage, plan.response, plan.response.devicePath, true)
                            else ReplayNodePublish(plan.nodePublish, true)]
  {
    var s1 := Next(s, Deliver(|s.history| - 1));
    var s2 := Next(s1, SyncPodVM(0, |s.copies|, plan.podName, plan.podNamespace));
    u := Next(s2, CallDriver(0, true));
  }

  lemma ReplayMarked(s: System, vol: Volume, stage: bool, c: nat) returns (u: System)
    requires Course(s) && s.history != [] && Last(s) == vol && !s.ended && s.tasks == map[0 := Answered(stage, c, 0)] && Current(s, c)
    ensures Course(u) && Quiet(u, vol.(status := if stage then NodeStageApplied else NodePublishApplied), s.log)
    ensures c < |u.copies| && u.copies[c].vol.status == if stage then NodeStageApplied else NodePublishApplied
  {
    u := Next(s, MarkReplay(0, true));
  }

  /** What the first two steps of an unpublish lead to. */
  lemma {:induction false} UnpublishClears(s: System, t: nat) returns (a: System, b: System)
    requires s.history != [] && t !in s.tasks
    ensures Enabled(s, Get(t, Unpublish)) && a == Apply(s, Get(t, Unpublish))
    ensures Enabled(a, WriteSpec(t, true)) && b == Apply(a, WriteSpec(t, true))
    ensures Enabled(b, WriteStatus(t, true)) && b.tasks == s.tasks[t := Marking(Unpublish, |s.copies| + 1)]
    ensures b.history != [] && Last(b).spec == EMPTY_SPEC && b.ended
    ensures b.log == s.log + (if Last(s).status in {ControllerPublishApplied, NodeStageApplied, NodePublishApplied}
                              then [DriverUnpublish(Last(s).spec.vmID)] else [])
  {
    a := Apply(s, Get(t, Unpublish));
    b := Apply(a, WriteSpec(t, true));
  }

  lemma {:induction false} ThreeSteps(s: System, a: System, b: System, x: Step, y: Step, z: Step)
    requires Enabled(s, x) && a == Apply(s, x) && Enabled(a, y) && b == Apply(a, y) && Enabled(b, z)
    ensures Possible(s, [x, y, z]) && Run(s, [x, y, z]) == Apply(b, z)
  {
    assert Possible(Apply(b, z), []) && Run(Apply(b, z), []) == Apply(b, z);
    assert [z] == [z] + [] && [y, z] == [y] + [z] && [x, y, z] == [x] + [y, z];
    OneStep(b, z, []);
    OneStep(a, y, [z]);
    OneStep(s, x, [y, z]);
  }

  /**
   An unpublish from any state, undisturbed, leaves the object as it was created.  The driver is called, for
   the VM on record, exactly if the status says that a replayed call has been applied.
   */
  lemma {:induction false} UnpublishForgets(s: System, t: nat)
    requires s.history != [] && t !in s.tasks
    ensures var steps := [Get(t, Unpublish), WriteSpec(t, true), WriteStatus(t, true)];
            && Possible(s, steps)
            && var u := Run(s, steps);
              && u.history != [] && Last(u) == Volume(EMPTY_SPEC, NoStatus) && u.tasks == s.tasks && u.ended
              && u.log == s.log + (if Last(s).status in {ControllerPublishApplied, NodeStageApplied, NodePublishApplied}
                                   then [DriverUnpublish(Last(s).spec.vmID)] else [])
  {
    var a, b := UnpublishClears(s, t);
    ThreeSteps(s, a, b, Get(t, Unpublish), WriteSpec(t, true), WriteStatus(t, true));
    assert s.tasks[t := Marking(Unpublish, |s.copies| + 1)] - {t} == s.tasks;
  }

  /**
   The regular course of a volume, for any requests, names and driver response: there is a run, with calls in
   lifecycle order, in which the driver gets exactly the cached requests, in order, with the response it
   gave and the VM that was found, and is told to unpublish from that VM in the end.
   */
  lemma VolumesRunTheirCourse(plan: Plan)
    requires Complete(plan)
    ensures exists u :: Reached(u) && u.history != [] && Last(u) == Volume(EMPTY_SPEC, NoStatus)
              && u.log == [PublishEvent(plan), ReplayStage(plan.stage, plan.response, plan.response.devicePath, true),
                           ReplayNodePublish(plan.nodePublish, true), DriverUnpublish(plan.vmID)]
  {
    var s := PublishApplied(plan);
    var c := |s.copies|;
    var u := Replayed(s, plan, true, s.log);
    s := ReplayMarked(u, Last(u), true, c);
    c := |s.copies|;
    u := Replayed(s, plan, false, s.log);
    s := ReplayMarked(u, Last(u), false, c);
    var steps := [Get(0, Unpublish), WriteSpec(0, true), WriteStatus(0, true)];
    UnpublishForgets(s, 0);
    CourseIsReached(s);
    ReachedLater(s, steps);
  }

  const PLAN: Plan := Plan("p", "s", "n", "uid", "pod", "ns", "node", "vm", Real("context", "path"))

  /** A run, with one handler at a time, in which a status write fails without a conflict and NodePublishApplied replaces ControllerPublishApplied. */
  lemma ChainCanSkipLink()
    ensures exists steps :: Possible(START, steps) && !Chained(Run(START, steps).history)
  {
    var published := PublishApplied(PLAN);
    var s := Replayed(published, PLAN, true, published.log);
    CourseIsReached(s);
    var u := ReachedNext(s, MarkReplayFails(0));
    RetryingCanSkip(u, s.tasks[0].c, 0);
    var rest :| Possible(u, rest) && !Chained(Run(u, rest).history);
    ReachedLater(u, rest);
  }

  /** A run in which a second ControllerPublishVolume call makes the pod VM stage with the wrapper's fake response. */
  lemma StageCanCarryFakeContext()
    ensures exists steps :: Possible(START, steps) && !Genuine(Run(START, steps).log)
  {
    var s := PublishApplied(PLAN);
    CourseIsReached(s);
    var u := ReachedNext(s, Get(0, Publish("p")));
    u := ReachedNext(u, WriteSpec(0, true));
    FakedIsStagedLater(u, 1, 2);
    var rest :| Possible(u, rest) && !Genuine(Run(u, rest).log);
    ReachedLater(u, rest);
  }
}
