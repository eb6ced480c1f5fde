/** The status of a PeerpodVolume moves along its chain one link at a time. */
module VolumeChain {
  import opened Results
  import opened VolumeProtocol
  import opened VolumeSafety

  /** What a step that makes a new version puts into it. */
  ghost predicate Wrote(s: System, step: Step, v: Volume) {
    match step
    case CreateVolume => v == Volume(EMPTY_SPEC, NoStatus) && s.history == []
    case CreateAndPublish(_, _, _) => v == Volume(EMPTY_SPEC, NoStatus) && s.history == []
    case WriteSpec(t, _) =>
      && t in s.tasks && s.tasks[t].Editing? && Current(s, s.tasks[t].c) && s.history != []
      && v == Volume(Edit(s.tasks[t].work, s.copies[s.tasks[t].c].vol.spec), Last(s).status)
    case WriteStatus(t, _) =>
      && t in s.tasks && s.tasks[t].Marking? && Current(s, s.tasks[t].c) && s.history != []
      && v == Volume(Last(s).spec, Target(s.tasks[t].work, s.copies[s.tasks[t].c].vol.status))
    case MarkReplay(t, _) =>
      && t in s.tasks && s.tasks[t].Answered? && Current(s, s.tasks[t].c) && s.history != []
      && v == Volume(Last(s).spec, ReplayStatus(s.tasks[t].stage))
    case _ => false
  }

  lemma {:induction false} WriterMakesVersion(s: System, step: Step)
    requires Enabled(s, step) && Writes(step)
    ensures var h := Apply(s, step).history;
            h == s.history || (|h| == |s.history| + 1 && h[..|s.history|] == s.history && Wrote(s, step, h[|s.history|]))
  {
  }

  lemma {:induction false} NewVersion(s: System, step: Step)
    requires Enabled(s, step)
    ensures var h := Apply(s, step).history;
            h == s.history || (|h| == |s.history| + 1 && h[..|s.history|] == s.history && Wrote(s, step, h[|s.history|]))
  {
    if Writes(step) {
      WriterMakesVersion(s, step);
    } else {
      OthersKeepHistory(s, step);
    }
  }

  // ----- the chain -----

  predicate Follows(before: Status, after: Status) {
    || before == after
    || match after
       case VSIIDReady => before.VSIRunning?
       case ControllerPublishApplied => before.VSIIDReady?
       case NodeStageApplied => before.ControllerPublishApplied?
       case NodePublishApplied => before.NodeStageApplied?
       case NodeUnpublishCached => false
       case NodeUnstageCached => false
       case _ => true
  }

  ghost predicate Chained(history: seq<Volume>) {
    && (history != [] ==> history[0].status.NoStatus?)
    && forall i | 0 < i < |history| :: Follows(history[i - 1].status, history[i].status)
  }

  /** A copy on which the pod VM would replay NodePublishVolume before NodeStageVolume is recorded can never be written. */
  ghost predicate CopyStale(s: System, c: nat) {
    c < |s.copies| && s.copies[c].version < |s.history| && s.history[s.copies[c].version].status.ControllerPublishApplied?
    && s.copies[c].vol.status.NodeStageApplied? && s.copies[c].vol.spec.nodePublishReq != ""
    ==> s.copies[c].version + 1 < |s.history|
  }

  ghost predicate TaskStale(s: System, task: Task) {
    (task.Replaying? || task.Answered?) && !task.stage && task.c < |s.copies| && s.copies[task.c].version < |s.history| ==>
      s.history[s.copies[task.c].version].status.NodeStageApplied? || s.copies[task.c].version + 1 < |s.history|
  }

  ghost predicate InChain(s: System) {
    && Linked(s) && Chained(s.history)
    && (forall c | 0 <= c < |s.copies| :: CopyStale(s, c))
    && (forall t | t in s.tasks :: TaskStale(s, s.tasks[t]))
  }

  /**
   No write of NodeStageApplied fails for another reason than a conflict while a NodePublish request is cached.
   Failed writes of NodePublishApplied, and failed writes without that request, do not matter.
   */
  predicate ConflictsOnly(s: System, step: Step) {
    step.MarkReplayFails? && Enabled(s, step) && s.tasks[step.t].stage && s.copies[s.tasks[step.t].c].vol.spec.nodePublishReq != ""
    ==> !Current(s, s.tasks[step.t].c)
  }

  lemma {:induction false} StatusWriteFollows(s: System, step: Step, v: Volume)
    requires InChain(s) && Enabled(s, step) && Wrote(s, step, v) && s.history != []
    ensures Follows(Last(s).status, v.status)
  {
    if step.WriteStatus? || step.MarkReplay? {
      assert TaskLinked(s, s.tasks[step.t]);
      assert TaskStale(s, s.tasks[step.t]);
      assert CopyLinked(s.history, s.log, s.copies[s.tasks[step.t].c]);
    }
  }

  lemma {:induction false} StepKeepsChained(s: System, step: Step)
    requires InChain(s) && Enabled(s, step)
    ensures Chained(Apply(s, step).history)
  {
    var h := Apply(s, step).history;
    NewVersion(s, step);
    if h != s.history && s.history != [] {
      StatusWriteFollows(s, step, h[|s.history|]);
      forall i | 0 < i < |h| ensures Follows(h[i - 1].status, h[i].status) {
        assert i < |s.history| ==> h[i] == s.history[i] && h[i - 1] == s.history[i - 1];
      }
    }
  }

  lemma {:induction false} MarkedCopyStale(s: System, step: Step)
    requires InChain(s) && Enabled(s, step) && ConflictsOnly(s, step) && (step.MarkReplay? || step.MarkReplayFails?)
    ensures CopyStale(Apply(s, step), s.tasks[step.t].c)
  {
    assert TaskLinked(s, s.tasks[step.t]);
    assert TaskStale(s, s.tasks[step.t]);
  }

  /** Only replays change the status of a copy, and nothing changes its NodePublish request. */
  lemma {:induction false} SameMarks(s: System, step: Step, c: nat)
    requires Enabled(s, step) && c < |s.copies| && (Touched(s, step) != Some(c) || (!step.MarkReplay? && !step.MarkReplayFails?))
    ensures c < |Apply(s, step).copies|
    ensures var a, b := s.copies[c], Apply(s, step).copies[c];
            b.version == a.version && b.vol.status == a.vol.status && b.vol.spec.nodePublishReq == a.vol.spec.nodePublishReq
  {
    CopiesEffect(s, step);
  }

  lemma {:induction false} StepKeepsCopiesStale(s: System, step: Step, c: nat)
    requires InChain(s) && Enabled(s, step) && ConflictsOnly(s, step) && c < |Apply(s, step).copies|
    ensures CopyStale(Apply(s, step), c)
  {
    var u := Apply(s, step);
    CopiesEffect(s, step);
    HistoryEffect(s, step);
    if c == |s.copies| {
      NewCopyEffect(s, step);
    } else if Touched(s, step) == Some(c) && (step.MarkReplay? || step.MarkReplayFails?) {
      MarkedCopyStale(s, step);
    } else {
      assert CopyStale(s, c) && CopyLinked(s.history, s.log, s.copies[c]);
      SameMarks(s, step, c);
    }
  }

  predicate Replay(task: Task) {
    task.Replaying? || task.Answered?
  }

  /** A replay keeps its copy and its kind from round to round. */
  lemma {:induction false} ReplayOrigin(s: System, step: Step, t: nat)
    requires Enabled(s, step) && t in Apply(s, step).tasks && Replay(Apply(s, step).tasks[t])
    ensures var after := Apply(s, step).tasks[t];
            || (t in s.tasks && Replay(s.tasks[t]) && after.c == s.tasks[t].c && after.stage == s.tasks[t].stage)
            || (step.SyncPodVM? && step.t == t && after.c == step.c && after.stage == s.copies[step.c].vol.status.ControllerPublishApplied?)
  {
    if !OfTask(step, t) {
      TasksEffect(s, step, t);
    }
  }

  lemma {:induction false} StaleSurvivesGrowth(s: System, u: System, task: Task, after: Task)
    requires Linked(s) && Grown(s, u) && TaskLinked(s, task) && TaskStale(s, task)
    requires Replay(task) && Replay(after) && after.c == task.c && after.stage == task.stage
    ensures TaskStale(u, after)
  {
    assert CopyGrown(s, u, task.c);
  }

  lemma {:induction false} StepKeepsTasksStale(s: System, step: Step, t: nat)
    requires InChain(s) && Enabled(s, step) && t in Apply(s, step).tasks
    ensures TaskStale(Apply(s, step), Apply(s, step).tasks[t])
  {
    if Replay(Apply(s, step).tasks[t]) {
      ReplayOrigin(s, step, t);
      if t in s.tasks && Replay(s.tasks[t]) {
        StepGrows(s, step);
        StaleSurvivesGrowth(s, Apply(s, step), s.tasks[t], Apply(s, step).tasks[t]);
      } else {
        assert CopyStale(s, step.c) && CopyLinked(s.history, s.log, s.copies[step.c]);
      }
    }
  }

  lemma {:induction false} StepKeepsChain(s: System, step: Step)
    requires InChain(s) && Enabled(s, step) && ConflictsOnly(s, step)
    ensures InChain(Apply(s, step))
  {
    var u := Apply(s, step);
    StepKeepsLinked(s, step);
    StepKeepsChained(s, step);
    forall c | 0 <= c < |u.copies| ensures CopyStale(u, c) {
      StepKeepsCopiesStale(s, step, c);
    }
    forall t | t in u.tasks ensures TaskStale(u, u.tasks[t]) {
      StepKeepsTasksStale(s, step, t);
    }
  }

  ghost predicate ConflictsOnlyRun(s: System, steps: seq<Step>)
    requires Possible(s, steps)
    decreases |steps|
  {
    steps == [] || (ConflictsOnly(s, steps[0]) && ConflictsOnlyRun(Apply(s, steps[0]), steps[1..]))
  }

  lemma {:induction false} RunKeepsChain(s: System, steps: seq<Step>)
    requires InChain(s) && Possible(s, steps) && ConflictsOnlyRun(s, steps)
    ensures InChain(Run(s, steps))
    decreases |steps|
  {
    if steps != [] {
      StepKeepsChain(s, steps[0]);
      RunKeepsChain(Apply(s, steps[0]), steps[1..]);
    }
  }

  /**
   If writes of NodeStageApplied fail only by version conflict once a NodePublish request is cached, every
   version whose status is VSIIDReady, ControllerPublishApplied, NodeStageApplied or NodePublishApplied
   replaced one with the same status or with its predecessor in the chain, although handlers decide on
   cached copies.
   */
  lemma StatusFollowsChain(steps: seq<Step>)
    requires Possible(START, steps) && ConflictsOnlyRun(START, steps)
    ensures Chained(Run(START, steps).history)
  {
    RunKeepsChain(START, steps);
  }

  // ----- exactly when a link is skipped -----

  /** Some continuation, itself free of such failures, leaves the chain. */
  ghost predicate CanSkip(s: System) {
    exists rest :: Possible(s, rest) && ConflictsOnlyRun(s, rest) && !Chained(Run(s, rest).history)
  }

  lemma BrokenCanSkip(s: System)
    requires !Chained(s.history)
    ensures CanSkip(s)
  {
    assert Possible(s, []) && ConflictsOnlyRun(s, []) && Run(s, []) == s;
  }

  lemma {:induction false} CanSkipBefore(s: System, step: Step)
    requires Enabled(s, step) && ConflictsOnly(s, step) && CanSkip(Apply(s, step))
    ensures CanSkip(s)
  {
    var u := Apply(s, step);
    var rest :| Possible(u, rest) && ConflictsOnlyRun(u, rest) && !Chained(Run(u, rest).history);
    OneStep(s, step, rest);
    assert ([step] + rest)[1..] == rest;
    assert ConflictsOnlyRun(s, [step] + rest);
  }

  /** The pod VM holds a current copy that says more than its version, and no handler `t` is at work. */
  ghost predicate Ahead(s: System, c: nat) {
    && Current(s, c) && s.copies[c].cached && s.copies[c].vol.status.NodeStageApplied?
    && s.copies[c].vol.spec.nodePublishReq != "" && s.history != [] && Last(s).status.ControllerPublishApplied?
  }

  /** When the same cached copy is handed to a handler again, its status is replayed further. */
  lemma {:induction false} AheadCanSkip(s: System, c: nat, t: nat)
    requires Ahead(s, c) && t !in s.tasks
    ensures CanSkip(s)
  {
    var sync := SyncPodVM(t, c, s.copies[c].vol.spec.podName, s.copies[c].vol.spec.podNamespace);
    var s1 := Apply(s, sync);
    var call := CallDriver(t, true);
    var s2 := Apply(s1, call);
    var mark := MarkReplay(t, true);
    var s3 := Apply(s2, mark);
    var n := |s.history|;
    assert s3.history == s.history + [Volume(Last(s).spec, NodePublishApplied)];
    assert !Follows(s3.history[n - 1].status, s3.history[n].status);
    BrokenCanSkip(s3);
    CanSkipBefore(s2, mark);
    CanSkipBefore(s1, call);
    CanSkipBefore(s, sync);
  }

  /** A retry loop that is still at work on the copy may use up its rounds without reaching the driver. */
  lemma {:induction false} RetryingCanSkip(s: System, c: nat, t: nat)
    requires Ahead(s, c) && (t in s.tasks ==> s.tasks[t].Replaying? && s.tasks[t].c == c)
    ensures CanSkip(s)
    decreases if t !in s.tasks then 0 else if s.tasks[t].count < MAX_COUNT then MAX_COUNT + 1 - s.tasks[t].count else 1
  {
    if t !in s.tasks {
      AheadCanSkip(s, c, t);
    } else {
      var fails := DialFails(t);
      var u := Apply(s, fails);
      assert Ahead(u, c);
      RetryingCanSkip(u, c, t);
      CanSkipBefore(s, fails);
    }
  }

  lemma {:induction false} FailedWriteIsAhead(s: System, t: nat)
    requires Linked(s) && Enabled(s, MarkReplayFails(t)) && !ConflictsOnly(s, MarkReplayFails(t))
    ensures var u, c := Apply(s, MarkReplayFails(t)), s.tasks[t].c;
            Ahead(u, c) && (t in u.tasks ==> u.tasks[t].Replaying? && u.tasks[t].c == c)
  {
    assert TaskLinked(s, s.tasks[t]);
    assert CopyLinked(s.history, s.log, s.copies[s.tasks[t].c]);
  }

  /**
   The hypothesis is exact: at any moment of a run that obeys it, a step can make the chain skip a link if and
   only if it is a failed write of NodeStageApplied from a current copy that holds a NodePublish request.
   */
  lemma LinkIsSkippedExactly(steps: seq<Step>, step: Step)
    requires Possible(START, steps) && ConflictsOnlyRun(START, steps) && Enabled(Run(START, steps), step)
    ensures CanSkip(Apply(Run(START, steps), step)) <==> !ConflictsOnly(Run(START, steps), step)
  {
    var s := Run(START, steps);
    RunKeepsChain(START, steps);
    var u := Apply(s, step);
    if ConflictsOnly(s, step) {
      StepKeepsChain(s, step);
      forall rest | Possible(u, rest) && ConflictsOnlyRun(u, rest) ensures Chained(Run(u, rest).history) {
        RunKeepsChain(u, rest);
      }
    } else {
      FailedWriteIsAhead(s, step.t);
      RetryingCanSkip(u, s.tasks[step.t].c, step.t);
    }
  }

  // ----- reading the chain backwards -----

  /** Versions `a` up to, not including, `b` all have this status. */
  ghost predicate Holds(history: seq<Volume>, a: int, b: int, status: Status) {
    0 <= a < b <= |history| && forall i | a <= i < b :: history[i].status == status
  }

  lemma {:induction false} WalkBack(history: seq<Volume>, b: int, status: Status) returns (a: int)
    requires Chained(history) && 0 < b <= |history| && history[b - 1].status == status && !status.NoStatus?
    ensures Holds(history, a, b, status) && 0 < a && history[a - 1].status != status
    ensures Follows(history[a - 1].status, status)
    decreases b
  {
    a := b - 1;
    assert a > 0;
    if history[a - 1].status == status {
      a := WalkBack(history, a, status);
    } else {
      assert Follows(history[a - 1].status, history[a].status);
    }
  }

  /** A volume that reached NodePublishApplied went through the whole chain, one status after the other. */
  lemma AppliedVolumesWentThroughChain(steps: seq<Step>, e: int)
    requires Possible(START, steps) && ConflictsOnlyRun(START, steps)
    requires 0 < e <= |Run(START, steps).history| && Run(START, steps).history[e - 1].status.NodePublishApplied?
    ensures var h := Run(START, steps).history;
            exists a0, a1, a2, a3, a4 ::
              && Holds(h, a0, a1, VSIRunning) && Holds(h, a1, a2, VSIIDReady) && Holds(h, a2, a3, ControllerPublishApplied)
              && Holds(h, a3, a4, NodeStageApplied) && Holds(h, a4, e, NodePublishApplied)
  {
    var h := Run(START, steps).history;
    StatusFollowsChain(steps);
    var a4 := WalkBack(h, e, NodePublishApplied);
    var a3 := WalkBack(h, a4, NodeStageApplied);
    var a2 := WalkBack(h, a3, ControllerPublishApplied);
    var a1 := WalkBack(h, a2, VSIIDReady);
    var a0 := WalkBack(h, a1, VSIRunning);
  }

  // ----- the teardown half is never replayed -----

  predicate TeardownCached(status: Status) {
    status.NodeUnpublishCached? || status.NodeUnstageCached?
  }

  ghost predicate NoTeardown(s: System) {
    && Linked(s)
    && (forall i | 0 <= i < |s.history| :: !TeardownCached(s.history[i].status))
    && ReplayTeardown !in s.log
  }

  lemma CopiesHaveNoTeardown(s: System, c: nat)
    requires NoTeardown(s) && c < |s.copies|
    ensures !TeardownCached(s.copies[c].vol.status)
  {
    assert CopyLinked(s.history, s.log, s.copies[c]);
  }

  lemma {:induction false} NewVersionHasNoTeardown(s: System, step: Step, v: Volume)
    requires NoTeardown(s) && Enabled(s, step) && Wrote(s, step, v)
    ensures !TeardownCached(v.status)
  {
    if step.WriteStatus? {
      CopiesHaveNoTeardown(s, s.tasks[step.t].c);
    }
  }

  lemma {:induction false} StepReplaysNoTeardown(s: System, step: Step)
    requires NoTeardown(s) && Enabled(s, step)
    ensures ReplayTeardown !in Apply(s, step).log
  {
    if step.SyncTeardown? {
      CopiesHaveNoTeardown(s, step.c);
    }
    var e := StepGrowsLog(s, step);
  }

  lemma {:induction false} VersionHasNoTeardown(s: System, step: Step, h: seq<Volume>, i: nat)
    requires NoTeardown(s) && Enabled(s, step) && i < |h|
    requires h == s.history || (|h| == |s.history| + 1 && h[..|s.history|] == s.history && Wrote(s, step, h[|s.history|]))
    ensures !TeardownCached(h[i].status)
  {
    if i < |s.history| {
      assert h[i] == s.history[i] by { assert h[..|s.history|] == s.history; }
    } else {
      NewVersionHasNoTeardown(s, step, h[i]);
    }
  }

  lemma {:induction false} StepCachesNoTeardown(s: System, step: Step, i: nat)
    requires NoTeardown(s) && Enabled(s, step) && i < |Apply(s, step).history|
    ensures !TeardownCached(Apply(s, step).history[i].status)
  {
    NewVersion(s, step);
    VersionHasNoTeardown(s, step, Apply(s, step).history, i);
  }

  lemma {:induction false} StepKeepsNoTeardown(s: System, step: Step)
    requires NoTeardown(s) && Enabled(s, step)
    ensures NoTeardown(Apply(s, step))
  {
    var u := Apply(s, step);
    StepKeepsLinked(s, step);
    StepReplaysNoTeardown(s, step);
    forall i | 0 <= i < |u.history| ensures !TeardownCached(u.history[i].status) {
      StepCachesNoTeardown(s, step, i);
    }
  }

  lemma {:induction false} RunKeepsNoTeardown(s: System, steps: seq<Step>)
    requires NoTeardown(s) && Possible(s, steps)
    ensures NoTeardown(Run(s, steps))
    decreases |steps|
  {
    if steps != [] {
      StepKeepsNoTeardown(s, steps[0]);
      RunKeepsNoTeardown(Apply(s, steps[0]), steps[1..]);
    }
  }

  /** A copy with one of those statuses would have its call replayed. */
  lemma CachedTeardownWouldBeReplayed(s: System, c: nat)
    requires c < |s.copies| && s.copies[c].cached && s.copies[c].vol.status in {NodeUnpublishCached, NodeUnstageCached}
    ensures Enabled(s, SyncTeardown(c)) && ReplayTeardown in Apply(s, SyncTeardown(c)).log
  {
    var log := Apply(s, SyncTeardown(c)).log;
    assert |log| == |s.log| + 1 && log[|s.log|] == ReplayTeardown;
  }

  /**
   NodeUnpublishVolume and NodeUnstageVolume send the wrong object with their status, so in no run does
   any version or copy ever have the status that would make the pod VM replay them.
   */
  lemma TeardownIsNeverReplayed(steps: seq<Step>)
    requires Possible(START, steps)
    ensures var s := Run(START, steps);
            && ReplayTeardown !in s.log
            && (forall i | 0 <= i < |s.history| :: !TeardownCached(s.history[i].status))
            && (forall c | 0 <= c < |s.copies| :: !TeardownCached(s.copies[c].vol.status))
  {
    RunKeepsNoTeardown(START, steps);
    var s := Run(START, steps);
    forall c | 0 <= c < |s.copies| ensures !TeardownCached(s.copies[c].vol.status) {
      CopiesHaveNoTeardown(s, c);
    }
  }
}
