/** What every run of the volume protocol keeps. */
module VolumeSafety {
  import opened Results
  import opened VolumeProtocol

  // ----- driver calls are replayed in order -----

  ghost predicate Published(log: seq<Event>) {
    exists e :: e in log && e.ReplayPublish? && e.answer.Some?
  }

  ghost predicate Staged(log: seq<Event>) {
    exists e :: e in log && e.ReplayStage? && e.ok
  }

  ghost predicate NodePublished(log: seq<Event>) {
    exists e :: e in log && e.ReplayNodePublish? && e.ok
  }

  /** The driver calls that a status claims to have succeeded. */
  ghost predicate Earned(log: seq<Event>, status: Status) {
    && (status.ControllerPublishApplied? ==> Published(log))
    && (status.NodeStageApplied? ==> Staged(log))
    && (status.NodePublishApplied? ==> NodePublished(log))
  }

  /** Each replayed call comes after a successful replay of the call before it. */
  ghost predicate Ordered(log: seq<Event>) {
    && (forall i | 0 <= i < |log| && log[i].ReplayStage? :: Published(log[..i]))
    && (forall i | 0 <= i < |log| && log[i].ReplayNodePublish? :: Staged(log[..i]))
  }

  ghost predicate EarnedTask(log: seq<Event>, task: Task) {
    match task
    case Editing(work, _) => work.RecordPublish? ==> Published(log)
    case Refetching(work) => work.Stage? || work.NodePublish?
    case Marking(work, _) => work.RecordPublish? ==> Published(log)
    case Replaying(stage, _, count) => count <= MAX_COUNT && if stage then Published(log) else Staged(log)
    case Answered(stage, _, count) => count <= MAX_COUNT && if stage then Staged(log) else NodePublished(log)
  }

  /** Every version and every copy, cached or private, has earned its status. */
  ghost predicate InOrder(s: System) {
    && Ordered(s.log)
    && (forall i | 0 <= i < |s.history| :: Earned(s.log, s.history[i].status))
    && (forall c | 0 <= c < |s.copies| :: Earned(s.log, s.copies[c].vol.status))
    && (forall t | t in s.tasks :: EarnedTask(s.log, s.tasks[t]))
  }

  lemma LogGrows(log: seq<Event>, e: Event)
    ensures Published(log) ==> Published(log + [e])
    ensures Staged(log) ==> Staged(log + [e])
    ensures NodePublished(log) ==> NodePublished(log + [e])
    ensures e.ReplayPublish? && e.answer.Some? ==> Published(log + [e])
    ensures e.ReplayStage? && e.ok ==> Staged(log + [e])
    ensures e.ReplayNodePublish? && e.ok ==> NodePublished(log + [e])
    ensures Ordered(log) && (e.ReplayStage? ==> Published(log)) && (e.ReplayNodePublish? ==> Staged(log)) ==> Ordered(log + [e])
  {
    var grown := log + [e];
    assert grown[|log|] == e;
    forall x | x in log ensures x in grown {}
    forall i | 0 <= i < |log| ensures grown[..i] == log[..i] && grown[i] == log[i] {}
    assert grown[..|log|] == log;
  }

  lemma StepGrowsLog(s: System, step: Step) returns (e: Option<Event>)
    requires Enabled(s, step)
    ensures Apply(s, step).log == if e.None? then s.log else s.log + [e.value]
    ensures e.Some? ==> step.CreateAndPublish? || step.Get? || step.SyncController? || step.SyncTeardown? || step.CallDriver?
    ensures e.Some? && e.value.ReplayStage? ==> step.CallDriver? && s.tasks[step.t].stage
    ensures e.Some? && e.value.ReplayNodePublish? ==> step.CallDriver? && !s.tasks[step.t].stage
    ensures step.SyncController? ==>
              var spec := s.copies[step.c].vol.spec;
              e == Some(ReplayPublish(spec.publishReq, spec.vmID, step.response))
    ensures e.Some? && e.value.ReplayPublish? ==> step.SyncController?
    ensures e.Some? && e.value.DriverUnpublish? ==> step.Get? && e.value.vmID == Last(s).spec.vmID
    ensures step.CallDriver? ==>
              var spec := s.copies[s.tasks[step.t].c].vol.spec;
              e == Some(if s.tasks[step.t].stage then ReplayStage(spec.stageReq, spec.publishRes, spec.devicePath, step.ok)
                        else ReplayNodePublish(spec.nodePublishReq, step.ok))
  {
    var log := Apply(s, step).log;
    e := if log == s.log then None else Some(log[|s.log|]);
    if |log| == |s.log| + 1 {
      assert log == s.log + [log[|s.log|]];
      e := Some(log[|s.log|]);
    }
  }

  lemma LogKeepsEarned(s: System, step: Step)
    requires InOrder(s) && Enabled(s, step)
    ensures var log := Apply(s, step).log;
            && Ordered(log)
            && (forall status | Earned(s.log, status) :: Earned(log, status))
            && (forall task | EarnedTask(s.log, task) :: EarnedTask(log, task))
            && (step.SyncController? && step.response.Some? ==> Published(log))
            && (step.CallDriver? && step.ok ==> if s.tasks[step.t].stage then Staged(log) else NodePublished(log))
  {
    var e := StepGrowsLog(s, step);
    if step.CallDriver? {
      assert EarnedTask(s.log, s.tasks[step.t]);
    }
    if e.Some? {
      LogGrows(s.log, e.value);
    }
  }

  /** The steps that may make a new version. */
  predicate Writes(step: Step) {
    step.CreateVolume? || step.CreateAndPublish? || step.WriteSpec? || step.WriteStatus? || step.MarkReplay?
  }

  lemma {:induction false} OthersKeepHistory(s: System, step: Step)
    requires Enabled(s, step) && !Writes(step)
    ensures Apply(s, step).history == s.history
  {
  }

  /** A step writes a status that the object had, that a handler earned, or that claims nothing. */
  lemma {:induction false} WritersStayEarned(s: System, step: Step)
    requires InOrder(s) && Enabled(s, step) && Writes(step)
    ensures var u := Apply(s, step);
            forall i | 0 <= i < |u.history| :: Earned(s.log, u.history[i].status)
  {
    if step.WriteStatus? || step.MarkReplay? {
      assert EarnedTask(s.log, s.tasks[step.t]);
    }
  }

  lemma {:induction false} HistoryStaysEarned(s: System, step: Step)
    requires InOrder(s) && Enabled(s, step)
    ensures var u := Apply(s, step);
            forall i | 0 <= i < |u.history| :: Earned(s.log, u.history[i].status)
  {
    if Writes(step) {
      WritersStayEarned(s, step);
    } else {
      OthersKeepHistory(s, step);
    }
  }

  lemma {:induction false} TouchedCopyStaysEarned(s: System, step: Step)
    requires InOrder(s) && Enabled(s, step) && Touched(s, step).Some?
    ensures var c := Touched(s, step).value;
            c < |Apply(s, step).copies| && Earned(s.log, Apply(s, step).copies[c].vol.status)
  {
    if step.MarkReplay? || step.MarkReplayFails? {
      assert EarnedTask(s.log, s.tasks[step.t]);
    }
  }

  lemma {:induction false} CopiesStayEarned(s: System, step: Step)
    requires InOrder(s) && Enabled(s, step)
    ensures var u := Apply(s, step);
            forall c | 0 <= c < |u.copies| :: Earned(s.log, u.copies[c].vol.status)
  {
    var u := Apply(s, step);
    CopiesEffect(s, step);
    forall c | 0 <= c < |u.copies| ensures Earned(s.log, u.copies[c].vol.status) {
      if c == |s.copies| {
        NewCopyEffect(s, step);
        HistoryStaysEarned(s, step);
      } else if Touched(s, step) == Some(c) {
        TouchedCopyStaysEarned(s, step);
      } else {
        assert Earned(s.log, s.copies[c].vol.status);
      }
    }
  }

  predicate OfTask(step: Step, t: nat) {
    !step.CreateVolume? && !step.Deliver? && !step.SyncTeardown? && step.t == t
  }

  lemma {:induction false} SpecWriterTasksEffect(s: System, t: nat, acknowledged: bool, other: nat)
    requires t in s.tasks && s.tasks[t].Editing? && Current(s, s.tasks[t].c) && other != t
    ensures var tasks := AfterSpecWrite(s, t, acknowledged).tasks;
            other in tasks ==> other in s.tasks && tasks[other] == s.tasks[other]
  {
  }

  lemma {:induction false} TasksEffect(s: System, step: Step, t: nat)
    requires Enabled(s, step) && t in Apply(s, step).tasks && !OfTask(step, t)
    ensures t in s.tasks && Apply(s, step).tasks[t] == s.tasks[t]
  {
    if step.WriteSpec? {
      SpecWriterTasksEffect(s, step.t, step.acknowledged, t);
    }
  }

  /** The steps after which a replay goes on, or has just begun. */
  predicate Replays(step: Step) {
    step.SyncPodVM? || step.CallDriver? || step.DialFails? || step.MarkReplay? || step.MarkReplayFails?
  }

  lemma {:induction false} ReplayStaysEarned(s: System, step: Step)
    requires InOrder(s) && Enabled(s, step) && Replays(step) && step.t in Apply(s, step).tasks
    ensures EarnedTask(Apply(s, step).log, Apply(s, step).tasks[step.t])
  {
    LogKeepsEarned(s, step);
    if step.SyncPodVM? {
      assert Earned(s.log, s.copies[step.c].vol.status);
    } else {
      assert EarnedTask(s.log, s.tasks[step.t]);
    }
  }

  lemma {:induction false} OwnTaskStaysEarned(s: System, step: Step, t: nat)
    requires InOrder(s) && Enabled(s, step) && !Replays(step) && OfTask(step, t) && t in Apply(s, step).tasks
    ensures EarnedTask(Apply(s, step).log, Apply(s, step).tasks[t])
  {
    LogKeepsEarned(s, step);
    if t in s.tasks {
      assert EarnedTask(s.log, s.tasks[t]);
    }
  }

  lemma {:induction false} TasksStayEarned(s: System, step: Step)
    requires InOrder(s) && Enabled(s, step)
    ensures var u := Apply(s, step);
            forall t | t in u.tasks :: EarnedTask(u.log, u.tasks[t])
  {
    var u := Apply(s, step);
    forall t | t in u.tasks ensures EarnedTask(u.log, u.tasks[t]) {
      if !OfTask(step, t) {
        TasksEffect(s, step, t);
        LogKeepsEarned(s, step);
        assert EarnedTask(s.log, s.tasks[t]);
      } else if Replays(step) {
        ReplayStaysEarned(s, step);
      } else {
        OwnTaskStaysEarned(s, step, t);
      }
    }
  }

  lemma {:induction false} StepKeepsOrder(s: System, step: Step)
    requires InOrder(s) && Enabled(s, step)
    ensures InOrder(Apply(s, step))
  {
    LogKeepsEarned(s, step);
    HistoryStaysEarned(s, step);
    CopiesStayEarned(s, step);
    TasksStayEarned(s, step);
  }

  lemma {:induction false} RunKeepsOrder(s: System, steps: seq<Step>)
    requires InOrder(s) && Possible(s, steps)
    ensures InOrder(Run(s, steps))
    decreases |steps|
  {
    if steps != [] {
      StepKeepsOrder(s, steps[0]);
      RunKeepsOrder(Apply(s, steps[0]), steps[1..]);
    }
  }

  /**
   In every run, with stale and modified cached copies, conflicts, lost answers and repeated handlers,
   each replayed NodeStageVolume follows a successful replayed ControllerPublishVolume, and each replayed
   NodePublishVolume follows a successful replayed NodeStageVolume.
   */
  lemma ReplaysAreOrdered(steps: seq<Step>)
    requires Possible(START, steps)
    ensures Ordered(Run(START, steps).log)
  {
    RunKeepsOrder(START, steps);
  }

  // ----- copies and the versions they were taken from -----

  /** The status of a cached copy: that of its version, or one that the pod VM put there after a replay. */
  predicate StatusLink(copy: Status, version: Status) {
    || copy == version
    || (version.ControllerPublishApplied? && (copy.NodeStageApplied? || copy.NodePublishApplied?))
    || (version.NodeStageApplied? && copy.NodePublishApplied?)
  }

  ghost predicate Recorded(log: seq<Event>, spec: Spec) {
    && spec.publishRes.Real? && spec.devicePath == spec.publishRes.devicePath
    && ReplayPublish(spec.publishReq, spec.vmID, Some(spec.publishRes)) in log
  }

  ghost predicate CopyLinked(history: seq<Volume>, log: seq<Event>, c: Copy) {
    && c.version < |history|
    && var h := history[c.version];
       && (!c.cached ==> c.vol == h)
       && StatusLink(c.vol.status, h.status)
       && (if h.status.VSIRunning? then c.vol.spec == h.spec.(vmID := c.vol.spec.vmID) && (c.vol.spec == h.spec || c.vol.spec.vmID != "")
           else if h.status.VSIIDReady? then
             && c.vol.spec == h.spec.(publishRes := c.vol.spec.publishRes, devicePath := c.vol.spec.devicePath)
             && (c.vol.spec == h.spec || Recorded(log, c.vol.spec))
           else c.vol.spec == h.spec)
  }

  ghost predicate EditingLinked(s: System, work: Work, c: nat) {
    && c < |s.copies| && s.copies[c].version < |s.history|
    && var h := s.history[s.copies[c].version];
       match work
       case RecordVM => s.copies[c].cached && h.status.VSIRunning? && s.copies[c].vol.spec.vmID != ""
       case RecordPublish => s.copies[c].cached && h.status.VSIIDReady? && Recorded(s.log, s.copies[c].vol.spec)
       case StartUp(_, _, _) => !s.copies[c].cached && h.spec.podUidLabel != ""
       case _ => !s.copies[c].cached && IsCall(work)
  }

  ghost predicate MarkingLinked(s: System, work: Work, c: nat) {
    && c < |s.copies| && !s.copies[c].cached
    && var vol := s.copies[c].vol;
       match work
       case RecordVM => vol.status.VSIRunning? && vol.spec.vmID != ""
       case RecordPublish => vol.status.VSIIDReady? && Recorded(s.log, vol.spec)
       case StartUp(_, _, _) => vol.spec.podUidLabel != ""
       case _ => IsCall(work)
  }

  ghost predicate TaskLinked(s: System, task: Task) {
    match task
    case Editing(work, c) => EditingLinked(s, work, c)
    case Refetching(work) => IsCall(work) && (work.Stage? || work.NodePublish?)
    case Marking(work, c) => MarkingLinked(s, work, c)
    case Replaying(stage, c, _) => ReplayLinked(s, stage, c)
    case Answered(stage, c, _) => ReplayLinked(s, stage, c)
  }

  ghost predicate ReplayLinked(s: System, stage: bool, c: nat) {
    && c < |s.copies| && s.copies[c].cached && s.copies[c].version < |s.history|
    && var status := s.history[s.copies[c].version].status;
       if stage then status.ControllerPublishApplied? else StatusLink(NodeStageApplied, status)
  }

  ghost predicate Linked(s: System) {
    && (forall c | 0 <= c < |s.copies| :: CopyLinked(s.history, s.log, s.copies[c]))
    && (forall t | t in s.tasks :: TaskLinked(s, s.tasks[t]))
  }

  lemma {:induction false} LinksSurviveGrowth(h1: seq<Volume>, h2: seq<Volume>, l1: seq<Event>, l2: seq<Event>, c: Copy)
    requires CopyLinked(h1, l1, c) && h1 <= h2 && forall e | e in l1 :: e in l2
    ensures CopyLinked(h2, l2, c) && h1[c.version] == h2[c.version]
  {
  }

  /** Versions, copies and log only grow; cached copies change only in what their handlers record. */
  ghost predicate Grown(s: System, u: System) {
    && s.history <= u.history && |s.copies| <= |u.copies|
    && (forall e | e in s.log :: e in u.log)
    && (forall c | 0 <= c < |s.copies| :: CopyGrown(s, u, c))
  }

  ghost predicate CopyGrown(s: System, u: System, c: nat)
    requires c < |s.copies| <= |u.copies|
  {
    var a, b := s.copies[c], u.copies[c];
    && b.version == a.version && b.cached == a.cached
    && (!a.cached ==> b == a)
    && (a.vol.spec.vmID != "" ==> b.vol.spec.vmID != "")
    && (a.version < |s.history| && s.history[a.version].status.VSIIDReady? && Recorded(s.log, a.vol.spec) ==> Recorded(u.log, b.vol.spec))
  }

  lemma SyncedVersion(s: System, c: nat)
    requires Linked(s) && c < |s.copies|
    ensures s.copies[c].version < |s.history|
    ensures s.copies[c].vol.status.VSIRunning? ==> s.history[s.copies[c].version].status.VSIRunning?
    ensures s.copies[c].vol.status.VSIIDReady? ==> s.history[s.copies[c].version].status.VSIIDReady?
  {
    assert CopyLinked(s.history, s.log, s.copies[c]);
  }

  // ----- which parts of the system a step touches -----

  /** The cached copy that a step modifies in place. */
  function Touched(s: System, step: Step): Option<nat>
    requires Enabled(s, step)
  {
    match step
    case SyncNode(_, c, _, _) => Some(c)
    case SyncController(_, c, response) => if response.Some? then Some(c) else None
    case MarkReplay(t, _) => Some(s.tasks[t].c)
    case MarkReplayFails(t) => Some(s.tasks[t].c)
    case _ => None
  }

  lemma {:induction false} HistoryEffect(s: System, step: Step)
    requires Enabled(s, step)
    ensures s.history <= Apply(s, step).history
  {
    if !Writes(step) {
      OthersKeepHistory(s, step);
    }
  }

  lemma {:induction false} LogEffect(s: System, step: Step)
    requires Enabled(s, step)
    ensures s.log <= Apply(s, step).log
    ensures forall e | e in s.log :: e in Apply(s, step).log
    ensures step.SyncController? ==>
              var spec := s.copies[step.c].vol.spec;
              ReplayPublish(spec.publishReq, spec.vmID, step.response) in Apply(s, step).log
  {
    var e := StepGrowsLog(s, step);
    var log := Apply(s, step).log;
    assert e.Some? ==> log[|s.log|] == e.value;
  }

  lemma {:induction false} TouchedCopiesEffect(s: System, step: Step)
    requires Enabled(s, step) && Touched(s, step).Some?
    ensures var u := Apply(s, step);
            && Touched(s, step).value < |s.copies| == |u.copies|
            && (forall c | 0 <= c < |s.copies| && Touched(s, step) != Some(c) :: u.copies[c] == s.copies[c])
  {
  }

  lemma {:induction false} SpecWriterCopiesEffect(s: System, t: nat, acknowledged: bool)
    requires t in s.tasks && s.tasks[t].Editing? && Current(s, s.tasks[t].c)
    ensures var copies := AfterSpecWrite(s, t, acknowledged).copies;
            s.copies <= copies && |copies| <= |s.copies| + 1
  {
  }

  lemma {:induction false} OtherCopiesEffect(s: System, step: Step)
    requires Enabled(s, step) && Touched(s, step).None?
    ensures s.copies <= Apply(s, step).copies && |Apply(s, step).copies| <= |s.copies| + 1
  {
    if step.WriteSpec? {
      SpecWriterCopiesEffect(s, step.t, step.acknowledged);
    }
  }

  lemma {:induction false} CopiesEffect(s: System, step: Step)
    requires Enabled(s, step)
    ensures var u := Apply(s, step);
            && |s.copies| <= |u.copies| <= |s.copies| + 1
            && (forall c | 0 <= c < |s.copies| && Touched(s, step) != Some(c) :: u.copies[c] == s.copies[c])
            && (Touched(s, step).Some? ==> Touched(s, step).value < |s.copies| == |u.copies|)
  {
    if Touched(s, step).Some? {
      TouchedCopiesEffect(s, step);
    } else {
      OtherCopiesEffect(s, step);
    }
  }

  ghost predicate TakenFrom(history: seq<Volume>, c: Copy) {
    c.version < |history| && c.vol == history[c.version]
  }

  lemma {:induction false} ReturnedCopyEffect(s: System, t: nat, acknowledged: bool)
    requires t in s.tasks && s.tasks[t].Editing? && Current(s, s.tasks[t].c)
    requires |AfterSpecWrite(s, t, acknowledged).copies| > |s.copies|
    ensures var u := AfterSpecWrite(s, t, acknowledged); TakenFrom(u.history, u.copies[|s.copies|])
  {
  }

  lemma {:induction false} NewCopyEffect(s: System, step: Step)
    requires Enabled(s, step) && |Apply(s, step).copies| > |s.copies|
    ensures var u := Apply(s, step); TakenFrom(u.history, u.copies[|s.copies|])
  {
    match step
    case WriteSpec(t, acknowledged) => ReturnedCopyEffect(s, t, acknowledged);
    case CreateAndPublish(_, _, _) =>
    case Get(_, _) =>
    case ListOwn(_, _, _) =>
    case Refetch(_) =>
    case Deliver(_) =>
    case _ =>
  }

  lemma {:induction false} TouchedCopyGrows(s: System, step: Step)
    requires Linked(s) && Enabled(s, step) && Touched(s, step).Some?
    ensures Touched(s, step).value < |s.copies| == |Apply(s, step).copies|
    ensures CopyGrown(s, Apply(s, step), Touched(s, step).value)
  {
    LogEffect(s, step);
    if step.MarkReplay? || step.MarkReplayFails? {
      assert TaskLinked(s, s.tasks[step.t]);
    } else {
      SyncedVersion(s, step.c);
    }
  }

  lemma {:induction false} StepGrows(s: System, step: Step)
    requires Linked(s) && Enabled(s, step)
    ensures Grown(s, Apply(s, step))
  {
    var u := Apply(s, step);
    HistoryEffect(s, step);
    LogEffect(s, step);
    CopiesEffect(s, step);
    forall c | 0 <= c < |s.copies| ensures CopyGrown(s, u, c) {
      if Touched(s, step) == Some(c) {
        TouchedCopyGrows(s, step);
      }
    }
  }

  lemma {:induction false} MarkedCopyLinked(s: System, step: Step)
    requires Linked(s) && Enabled(s, step) && (step.MarkReplay? || step.MarkReplayFails?)
    ensures var u := Apply(s, step); CopyLinked(u.history, u.log, u.copies[s.tasks[step.t].c])
  {
    var c := s.tasks[step.t].c;
    assert TaskLinked(s, s.tasks[step.t]);
    assert CopyLinked(s.history, s.log, s.copies[c]);
    StepGrows(s, step);
    LinksSurviveGrowth(s.history, Apply(s, step).history, s.log, s.log, s.copies[c]);
  }

  lemma {:induction false} SyncedCopyLinked(s: System, step: Step)
    requires Linked(s) && Enabled(s, step) && (step.SyncNode? || step.SyncController?)
    ensures var u := Apply(s, step); CopyLinked(u.history, u.log, u.copies[step.c])
  {
    var u := Apply(s, step);
    SyncedVersion(s, step.c);
    StepGrows(s, step);
    LinksSurviveGrowth(s.history, u.history, s.log, u.log, s.copies[step.c]);
    if step.SyncController? {
      assert u.log[|s.log|] == ReplayPublish(s.copies[step.c].vol.spec.publishReq, s.copies[step.c].vol.spec.vmID, step.response);
    }
  }

  lemma {:induction false} StepKeepsCopiesLinked(s: System, step: Step, c: nat)
    requires Linked(s) && Enabled(s, step) && c < |Apply(s, step).copies|
    ensures CopyLinked(Apply(s, step).history, Apply(s, step).log, Apply(s, step).copies[c])
  {
    var u := Apply(s, step);
    CopiesEffect(s, step);
    if c == |s.copies| {
      NewCopyEffect(s, step);
    } else if Touched(s, step) != Some(c) {
      HistoryEffect(s, step);
      LogEffect(s, step);
      LinksSurviveGrowth(s.history, u.history, s.log, u.log, s.copies[c]);
    } else if step.MarkReplay? || step.MarkReplayFails? {
      MarkedCopyLinked(s, step);
    } else {
      SyncedCopyLinked(s, step);
    }
  }

  lemma {:induction false} TaskSurvivesGrowth(s: System, u: System, task: Task)
    requires Grown(s, u) && TaskLinked(s, task)
    ensures TaskLinked(u, task)
  {
    if !task.Refetching? {
      assert CopyGrown(s, u, task.c);
    }
  }

  lemma {:induction false} EditedIsMarkable(s: System, u: System, work: Work, c: nat)
    requires Linked(s) && EditingLinked(s, work, c) && Current(s, c) && u.log == s.log
    requires |u.copies| > |s.copies| && !u.copies[|s.copies|].cached
    requires u.copies[|s.copies|].vol == Volume(Edit(work, s.copies[c].vol.spec), Last(s).status)
    ensures MarkingLinked(u, work, |s.copies|)
  {
    assert CopyLinked(s.history, s.log, s.copies[c]);
  }

  /** The object that a spec write returns is what the next write of the handler starts from. */
  lemma {:induction false} SpecWriterTaskLinked(s: System, t: nat, acknowledged: bool)
    requires Linked(s) && t in s.tasks && s.tasks[t].Editing? && Current(s, s.tasks[t].c)
    requires t in AfterSpecWrite(s, t, acknowledged).tasks
    ensures TaskLinked(AfterSpecWrite(s, t, acknowledged), AfterSpecWrite(s, t, acknowledged).tasks[t])
  {
    var u := AfterSpecWrite(s, t, acknowledged);
    assert EditingLinked(s, s.tasks[t].work, s.tasks[t].c) by { assert TaskLinked(s, s.tasks[t]); }
    if u.tasks[t].Marking? && u.tasks[t].c == |s.copies| {
      EditedIsMarkable(s, u, s.tasks[t].work, s.tasks[t].c);
    }
  }

  lemma {:induction false} FreshTaskLinked(s: System, step: Step)
    requires Linked(s) && Enabled(s, step)
    requires step.CreateAndPublish? || step.Get? || step.ListOwn? || step.SyncPodVM?
    ensures TaskLinked(Apply(s, step), Apply(s, step).tasks[step.t])
  {
    if step.SyncPodVM? {
      assert CopyLinked(s.history, s.log, s.copies[step.c]);
    }
  }

  lemma {:induction false} SyncedTaskLinked(s: System, step: Step)
    requires Linked(s) && Enabled(s, step) && (step.SyncNode? || step.SyncController?)
    requires step.t in Apply(s, step).tasks
    ensures TaskLinked(Apply(s, step), Apply(s, step).tasks[step.t])
  {
    SyncedVersion(s, step.c);
    LogEffect(s, step);
  }

  /** A replay keeps its copy and its kind from round to round. */
  lemma {:induction false} ReplayGoesOn(s: System, step: Step)
    requires Enabled(s, step) && (step.CallDriver? || step.DialFails? || step.MarkReplay? || step.MarkReplayFails?)
    requires step.t in Apply(s, step).tasks
    ensures var task, after := s.tasks[step.t], Apply(s, step).tasks[step.t];
            (after.Replaying? || after.Answered?) && after.stage == task.stage && after.c == task.c
  {
  }

  lemma {:induction false} ReplayTaskLinked(s: System, step: Step)
    requires Linked(s) && Enabled(s, step) && (step.CallDriver? || step.DialFails? || step.MarkReplay? || step.MarkReplayFails?)
    requires step.t in Apply(s, step).tasks
    ensures TaskLinked(Apply(s, step), Apply(s, step).tasks[step.t])
  {
    var u := Apply(s, step);
    assert TaskLinked(s, s.tasks[step.t]);
    ReplayGoesOn(s, step);
    StepGrows(s, step);
    TaskSurvivesGrowth(s, u, s.tasks[step.t]);
    assert ReplayLinked(u, u.tasks[step.t].stage, u.tasks[step.t].c);
  }

  lemma {:induction false} OwnTaskLinked(s: System, step: Step, t: nat)
    requires Linked(s) && Enabled(s, step) && t in Apply(s, step).tasks && OfTask(step, t)
    ensures TaskLinked(Apply(s, step), Apply(s, step).tasks[t])
  {
    match step
    case WriteSpec(_, acknowledged) => SpecWriterTaskLinked(s, t, acknowledged);
    case CreateAndPublish(_, _, _) => FreshTaskLinked(s, step);
    case Get(_, _) => FreshTaskLinked(s, step);
    case ListOwn(_, _, _) => FreshTaskLinked(s, step);
    case SyncPodVM(_, _, _, _) => FreshTaskLinked(s, step);
    case SyncNode(_, _, _, _) => SyncedTaskLinked(s, step);
    case SyncController(_, _, _) => SyncedTaskLinked(s, step);
    case Refetch(_) => assert TaskLinked(s, s.tasks[t]);
    case CallDriver(_, _) => ReplayTaskLinked(s, step);
    case DialFails(_) => ReplayTaskLinked(s, step);
    case MarkReplay(_, _) => ReplayTaskLinked(s, step);
    case MarkReplayFails(_) => ReplayTaskLinked(s, step);
    case _ =>
  }

  lemma {:induction false} StepKeepsTasksLinked(s: System, step: Step, t: nat)
    requires Linked(s) && Enabled(s, step) && t in Apply(s, step).tasks
    ensures TaskLinked(Apply(s, step), Apply(s, step).tasks[t])
  {
    if OfTask(step, t) {
      OwnTaskLinked(s, step, t);
    } else {
      TasksEffect(s, step, t);
      StepGrows(s, step);
      TaskSurvivesGrowth(s, Apply(s, step), s.tasks[t]);
    }
  }

  lemma {:induction false} StepKeepsLinked(s: System, step: Step)
    requires Linked(s) && Enabled(s, step)
    ensures Linked(Apply(s, step))
  {
    var u := Apply(s, step);
    forall c | 0 <= c < |u.copies| ensures CopyLinked(u.history, u.log, u.copies[c]) {
      StepKeepsCopiesLinked(s, step, c);
    }
    forall t | t in u.tasks ensures TaskLinked(u, u.tasks[t]) {
      StepKeepsTasksLinked(s, step, t);
    }
  }
}
