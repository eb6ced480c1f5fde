/**
 The replay protocol of the CSI wrapper.  Three processes (controller, worker node, pod VM) share one
 PeerpodVolume object per volume: CSI calls of the orchestrator are cached in it, and replayed later
 against the real driver as the object's status moves along a chain.

 The store is the sequence of all versions of the object; the last one is current.  Spec and status are
 written separately, each write is refused unless it was made from the current version, and a write that
 changes nothing makes no new version.  Handlers work on copies: the object of a CSI call is private to
 it, while sync handlers get a copy from an informer cache, which may be any version however old, and
 change that cached copy before they write it.  Any number of calls and handlers run at the same time,
 and any of them may stop at any point.
 */
module VolumeProtocol {
  import opened Results

  datatype Status =
    | NoStatus
    | ControllerPublishCached | NodeStageCached | NodePublishCached
    | NodeUnpublishCached | NodeUnstageCached
    | VSIRunning | VSIIDReady
    | ControllerPublishApplied | NodeStageApplied | NodePublishApplied

  /** The cached ControllerPublishVolume response: the wrapper's own, or one that the driver returned. */
  datatype Response = NoResponse | Fake | Real(context: string, devicePath: string)

  datatype Spec = Spec(
    podUid: string, podName: string, podNamespace: string, nodeName: string, podUidLabel: string,
    vmID: string, devicePath: string, publishReq: string, publishRes: Response,
    stageReq: string, nodePublishReq: string, unpublishReq: string, unstageReq: string)

  datatype Volume = Volume(spec: Spec, status: Status)

  datatype Copy = Copy(vol: Volume, version: nat, cached: bool)

  /** Driver calls, in the order in which they are made. */
  datatype Event =
    | DirectPublish
    | ReplayPublish(req: string, vmID: string, answer: Option<Response>)
    | ReplayStage(req: string, response: Response, devicePath: string, ok: bool)
    | ReplayNodePublish(req: string, ok: bool)
    | ReplayTeardown
    | DriverUnpublish(vmID: string)

  /** What a handler changes in the object: a spec edit, then a status. */
  datatype Work =
    | Publish(req: string)
    | Stage(req: string)
    | NodePublish(req: string, podUid: string)
    | NodeUnpublish(req: string)
    | NodeUnstage(req: string)
    | Unpublish
    | StartUp(podName: string, podNamespace: string, nodeName: string)
    | RecordVM
    | RecordPublish

  /** What the processes were asked or told, and which replays a pod VM has begun. */
  datatype Call =
    | Made(work: Work)                          // a CSI call, or the start of a pod VM
    | Found(nodeName: string, podName: string, podNamespace: string, vmID: string)
    | Began(podName: string, podNamespace: string, req: string)

  datatype Task =
    | Editing(work: Work, c: nat)               // about to write the spec, from copy c
    | Refetching(work: Work)                    // about to read the object again
    | Marking(work: Work, c: nat)               // about to write the status, from copy c
    | Replaying(stage: bool, c: nat, count: nat)  // about to call the driver
    | Answered(stage: bool, c: nat, count: nat)   // the driver succeeded, about to write the status

  datatype System = System(
    history: seq<Volume>, copies: seq<Copy>, tasks: map<nat, Task>, log: seq<Event>,
    published: bool, staged: bool, ended: bool, calls: seq<Call>)

  datatype Step =
    | CreateVolume
    | CreateAndPublish(t: nat, req: string, redirected: bool)
    | Get(t: nat, work: Work)
    | ListOwn(t: nat, uid: string, work: Work)
    | WriteSpec(t: nat, acknowledged: bool)
    | Refetch(t: nat)
    | WriteStatus(t: nat, acknowledged: bool)
    | Stop(t: nat)
    | Deliver(version: nat)
    | SyncNode(t: nat, c: nat, nodeName: string, vmID: string)
    | SyncController(t: nat, c: nat, response: Option<Response>)
    | SyncPodVM(t: nat, c: nat, podName: string, podNamespace: string)
    | SyncTeardown(c: nat)
    | CallDriver(t: nat, ok: bool)
    | DialFails(t: nat)
    | MarkReplay(t: nat, acknowledged: bool)
    | MarkReplayFails(t: nat)

  const EMPTY_SPEC: Spec := Spec("", "", "", "", "", "", "", "", NoResponse, "", "", "", "")

  /** The retry loops of the pod VM count from 0 to 20. */
  const MAX_COUNT: nat := 20

  function Edit(work: Work, spec: Spec): Spec {
    match work
    case Publish(req) => spec.(publishReq := req, publishRes := Fake)
    case Stage(req) => spec.(stageReq := req)
    case NodePublish(req, uid) => spec.(nodePublishReq := req, podUid := uid, podUidLabel := uid)
    case NodeUnpublish(req) => spec.(unpublishReq := req)
    case NodeUnstage(req) => spec.(unstageReq := req)
    case Unpublish => EMPTY_SPEC
    case StartUp(name, namespace, node) => spec.(podName := name, podNamespace := namespace, nodeName := node)
    case RecordVM => spec
    case RecordPublish => spec
  }

  /**
   The status that the last write of a handler carries.  NodeUnpublishVolume and NodeUnstageVolume set
   the status on the object that the spec write returned, and then send the object they had before.
   */
  function Target(work: Work, own: Status): Status {
    match work
    case Publish(_) => ControllerPublishCached
    case Stage(_) => NodeStageCached
    case NodePublish(_, _) => NodePublishCached
    case NodeUnpublish(_) => own
    case NodeUnstage(_) => own
    case Unpublish => NoStatus
    case StartUp(_, _, _) => VSIRunning
    case RecordVM => VSIIDReady
    case RecordPublish => ControllerPublishApplied
  }

  predicate Applied(status: Status) {
    status.ControllerPublishApplied? || status.NodeStageApplied? || status.NodePublishApplied?
  }

  predicate IsCall(work: Work) {
    match work
    case Publish(req) => req != ""
    case Stage(req) => req != ""
    case NodePublish(req, uid) => req != "" && uid != ""
    case NodeUnpublish(req) => req != ""
    case NodeUnstage(req) => req != ""
    case Unpublish => true
    case _ => false
  }

  // ----- the store -----

  function Last(s: System): Volume
    requires s.history != []
  {
    s.history[|s.history| - 1]
  }

  /** The versions after `vol` is written over the current version. */
  function Put(history: seq<Volume>, vol: Volume): (r: seq<Volume>)
    requires history != []
    ensures r != [] && r[|r| - 1] == vol && history <= r
  {
    if history[|history| - 1] == vol then history else history + [vol]
  }

  function Took(s: System, cached: bool, version: nat): Copy
    requires version < |s.history|
  {
    Copy(s.history[version], version, cached)
  }

  predicate Current(s: System, c: nat) {
    c < |s.copies| && s.copies[c].version + 1 == |s.history|
  }

  // ----- the steps -----

  predicate Enabled(s: System, step: Step) {
    match step
    case CreateVolume => s.history == []
    case CreateAndPublish(t, req, _) => s.history == [] && t !in s.tasks && req != ""
    case Get(t, work) => s.history != [] && t !in s.tasks && IsCall(work)
    case ListOwn(t, uid, work) =>
      s.history != [] && t !in s.tasks && work.StartUp? && uid != "" && Last(s).spec.podUidLabel == uid
    case WriteSpec(t, _) => t in s.tasks && s.tasks[t].Editing? && Current(s, s.tasks[t].c)
    case Refetch(t) => t in s.tasks && s.tasks[t].Refetching? && s.history != []
    case WriteStatus(t, _) => t in s.tasks && s.tasks[t].Marking? && Current(s, s.tasks[t].c)
    case Stop(t) => t in s.tasks
    case Deliver(version) => version < |s.history|
    case SyncNode(t, c, nodeName, vmID) =>
      && t !in s.tasks && c < |s.copies| && s.copies[c].cached
      && s.copies[c].vol.spec.nodeName == nodeName && s.copies[c].vol.status.VSIRunning? && vmID != ""
    case SyncController(t, c, response) =>
      && t !in s.tasks && c < |s.copies| && s.copies[c].cached
      && s.copies[c].vol.status.VSIIDReady? && s.copies[c].vol.spec.devicePath == ""
      && s.copies[c].vol.spec.publishReq != "" && (response.Some? ==> response.value.Real?)
    case SyncPodVM(t, c, podName, podNamespace) =>
      && t !in s.tasks && c < |s.copies| && s.copies[c].cached
      && s.copies[c].vol.spec.podName == podName && s.copies[c].vol.spec.podNamespace == podNamespace
      && ((s.copies[c].vol.status.ControllerPublishApplied? && s.copies[c].vol.spec.stageReq != "")
          || (s.copies[c].vol.status.NodeStageApplied? && s.copies[c].vol.spec.nodePublishReq != ""))
    case SyncTeardown(c) =>
      && c < |s.copies| && s.copies[c].cached
      && (s.copies[c].vol.status.NodeUnpublishCached? || s.copies[c].vol.status.NodeUnstageCached?)
    case CallDriver(t, _) => t in s.tasks && s.tasks[t].Replaying? && s.tasks[t].c < |s.copies|
    case DialFails(t) => t in s.tasks && s.tasks[t].Replaying?
    case MarkReplay(t, acknowledged) =>
      && t in s.tasks && s.tasks[t].Answered? && s.tasks[t].c < |s.copies|
      && (acknowledged ==> Current(s, s.tasks[t].c))
    case MarkReplayFails(t) => t in s.tasks && s.tasks[t].Answered? && s.tasks[t].c < |s.copies|
  }

  /** The task after one unsuccessful round of a retry loop. */
  function NextRound(tasks: map<nat, Task>, t: nat): map<nat, Task>
    requires t in tasks && (tasks[t].Replaying? || tasks[t].Answered?)
  {
    if tasks[t].count >= MAX_COUNT then tasks - {t}
    else tasks[t := Replaying(tasks[t].stage, tasks[t].c, tasks[t].count + 1)]
  }

  function AfterSpecWrite(s: System, t: nat, acknowledged: bool): System
    requires t in s.tasks && s.tasks[t].Editing? && Current(s, s.tasks[t].c)
  {
    var work, c := s.tasks[t].work, s.tasks[t].c;
    var history := Put(s.history, Volume(Edit(work, s.copies[c].vol.spec), Last(s).status));
    var returned := Copy(history[|history| - 1], |history| - 1, false);
    var s1 := s.(history := history, ended := s.ended || work.Unpublish?);
    if !acknowledged then s1.(tasks := s.tasks - {t})
    else match work
      case Stage(_) => s1.(tasks := s.tasks[t := Refetching(work)])
      case NodePublish(_, _) => s1.(tasks := s.tasks[t := Refetching(work)])
      case NodeUnpublish(_) => s1.(tasks := s.tasks[t := Marking(work, c)])
      case NodeUnstage(_) => s1.(tasks := s.tasks[t := Marking(work, c)])
      case _ => s1.(copies := s.copies + [returned], tasks := s.tasks[t := Marking(work, |s.copies|)])
  }

  function AfterStatusWrite(s: System, t: nat, acknowledged: bool): System
    requires t in s.tasks && s.tasks[t].Marking? && Current(s, s.tasks[t].c)
  {
    var work, c := s.tasks[t].work, s.tasks[t].c;
    s.(history := Put(s.history, Volume(Last(s).spec, Target(work, s.copies[c].vol.status))),
       tasks := s.tasks - {t},
       published := s.published || (acknowledged && work.Publish?),
       staged := s.staged || (acknowledged && work.Stage?))
  }

  function ReplayStatus(stage: bool): Status {
    if stage then NodeStageApplied else NodePublishApplied
  }

  /** The cached copy after a replay: its status is changed whether or not the write succeeds. */
  function Marked(s: System, t: nat): seq<Copy>
    requires t in s.tasks && s.tasks[t].Answered? && s.tasks[t].c < |s.copies|
  {
    var c := s.tasks[t].c;
    s.copies[c := s.copies[c].(vol := s.copies[c].vol.(status := ReplayStatus(s.tasks[t].stage)))]
  }

  function Apply(s: System, step: Step): System
    requires Enabled(s, step)
  {
    match step
    case CreateVolume => s.(history := [Volume(EMPTY_SPEC, NoStatus)])
    case CreateAndPublish(t, req, redirected) =>
      s.(history := [Volume(EMPTY_SPEC, NoStatus)],
         copies := s.copies + [Copy(Volume(EMPTY_SPEC, NoStatus), 0, false)],
         tasks := s.tasks[t := Editing(Publish(req), |s.copies|)],
         log := if redirected then s.log + [DirectPublish] else s.log,
         calls := s.calls + [Made(Publish(req))])
    case Get(t, work) =>
      s.(copies := s.copies + [Took(s, false, |s.history| - 1)],
         tasks := s.tasks[t := Editing(work, |s.copies|)],
         log := if work.Unpublish? && Applied(Last(s).status) then s.log + [DriverUnpublish(Last(s).spec.vmID)] else s.log,
         calls := s.calls + [Made(work)])
    case ListOwn(t, _, work) =>
      s.(copies := s.copies + [Took(s, false, |s.history| - 1)], tasks := s.tasks[t := Editing(work, |s.copies|)],
         calls := s.calls + [Made(work)])
    case WriteSpec(t, acknowledged) => AfterSpecWrite(s, t, acknowledged)
    case Refetch(t) =>
      s.(copies := s.copies + [Took(s, false, |s.history| - 1)], tasks := s.tasks[t := Marking(s.tasks[t].work, |s.copies|)])
    case WriteStatus(t, acknowledged) => AfterStatusWrite(s, t, acknowledged)
    case Stop(t) => s.(tasks := s.tasks - {t})
    case Deliver(version) => s.(copies := s.copies + [Took(s, true, version)])
    case SyncNode(t, c, nodeName, vmID) =>
      s.(copies := s.copies[c := s.copies[c].(vol := s.copies[c].vol.(spec := s.copies[c].vol.spec.(vmID := vmID)))],
         tasks := s.tasks[t := Editing(RecordVM, c)],
         calls := s.calls + [Found(nodeName, s.copies[c].vol.spec.podName, s.copies[c].vol.spec.podNamespace, vmID)])
    case SyncController(t, c, response) =>
      var log := s.log + [ReplayPublish(s.copies[c].vol.spec.publishReq, s.copies[c].vol.spec.vmID, response)];
      if response.None? then s.(log := log)
      else
        s.(copies := s.copies[c := s.copies[c].(vol := s.copies[c].vol.(spec :=
             s.copies[c].vol.spec.(publishRes := response.value, devicePath := response.value.devicePath)))],
           tasks := s.tasks[t := Editing(RecordPublish, c)], log := log)
    case SyncPodVM(t, c, podName, podNamespace) =>
      var stage, spec := s.copies[c].vol.status.ControllerPublishApplied?, s.copies[c].vol.spec;
      s.(tasks := s.tasks[t := Replaying(stage, c, 0)],
         calls := s.calls + [Began(podName, podNamespace, if stage then spec.stageReq else spec.nodePublishReq)])
    case SyncTeardown(_) => s.(log := s.log + [ReplayTeardown])
    case CallDriver(t, ok) =>
      var task := s.tasks[t];
      var spec := s.copies[task.c].vol.spec;
      var log := s.log + [
        if task.stage then ReplayStage(spec.stageReq, spec.publishRes, spec.devicePath, ok)
        else ReplayNodePublish(spec.nodePublishReq, ok)];
      if ok then s.(tasks := s.tasks[t := Answered(task.stage, task.c, task.count)], log := log)
      else s.(tasks := NextRound(s.tasks, t), log := log)
    case DialFails(t) => s.(tasks := NextRound(s.tasks, t))
    case MarkReplay(t, acknowledged) =>
      var c := s.tasks[t].c;
      s.(history := if Current(s, c) then Put(s.history, Volume(Last(s).spec, ReplayStatus(s.tasks[t].stage))) else s.history,
         copies := Marked(s, t),
         tasks := if acknowledged then s.tasks - {t} else NextRound(s.tasks, t))
    case MarkReplayFails(t) => s.(copies := Marked(s, t), tasks := NextRound(s.tasks, t))
  }

  predicate Possible(s: System, steps: seq<Step>)
    decreases |steps|
  {
    steps == [] || (Enabled(s, steps[0]) && Possible(Apply(s, steps[0]), steps[1..]))
  }

  function Run(s: System, steps: seq<Step>): System
    requires Possible(s, steps)
    decreases |steps|
  {
    if steps == [] then s else Run(Apply(s, steps[0]), steps[1..])
  }

  const START: System := System([], [], map[], [], false, false, false, [])

  lemma {:induction false} OneStep(s: System, a: Step, steps: seq<Step>)
    requires Enabled(s, a) && Possible(Apply(s, a), steps)
    ensures Possible(s, [a] + steps) && Run(s, [a] + steps) == Run(Apply(s, a), steps)
  {
    assert ([a] + steps)[1..] == steps;
  }
}
