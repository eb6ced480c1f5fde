/**
 PeerPod objects tie a cloud instance to a pod: the adaptor creates one when it starts a VM and removes
 its finalizer when it has stopped the VM; the controller deletes the instance of a PeerPod that is being
 deleted, and sweeps older PeerPods of the same pod.

 Calls of StartVM and StopVM may overlap in any way, the adaptor may restart, and the controller works on
 cached copies.  Pods are identified by their UID, and neither instance IDs nor PeerPod names are reused.
 */
module PeerPods {
  import opened Results

  // ----- the API server -----

  datatype PeerPod = PeerPod(
    name: string, owner: string, instance: string, created: int, version: nat, finalizer: bool, deleting: bool)

  datatype Store = Store(objects: map<string, PeerPod>, version: nat)

  function Put(st: Store, pp: PeerPod): Store {
    Store(st.objects[pp.name := pp.(version := st.version + 1)], st.version + 1)
  }

  /** A delete request: an object with a finalizer is only marked. */
  function Delete(st: Store, name: string): Store {
    if name !in st.objects then st
    else
      var pp := st.objects[name];
      if !pp.finalizer then st.(objects := st.objects - {name})
      else if pp.deleting then st
      else Put(st, pp.(name := name, deleting := true))
  }

  /** An object that is being deleted goes with its last finalizer. */
  function DropFinalizer(st: Store, name: string): Store
    requires name in st.objects
  {
    if st.objects[name].deleting then st.(objects := st.objects - {name})
    else Put(st, st.objects[name].(name := name, finalizer := false))
  }

  // ----- the state machine -----

  datatype StartStage = Creating | Posted(name: string) | NotPosted | Mapped(name: string) | Finished

  /** A StartVM call that has created its instance. */
  datatype Start = Start(sid: string, pod: string, instance: string, stage: StartStage)

  /** A StopVM call that has deleted its instance and has yet to release the PeerPod. */
  datatype Stop = Stop(pod: string, instance: string, finished: bool)

  /** The instance is empty until StartVM has set it. */
  datatype Sandbox = Sandbox(pod: string, instance: string)

  /**
   `posted` holds every PeerPod ever created, as created; `cache` every copy that the controller has ever
   seen; `removals` the copies whose instance the controller has deleted; `early` the PeerPods that lost
   their finalizer while no delete of their instance had succeeded.
   */
  datatype System = System(
    store: Store, posted: map<string, PeerPod>,
    sandboxes: map<string, Sandbox>, podToPP: map<string, string>, starts: seq<Start>, stops: seq<Stop>,
    cache: seq<PeerPod>, removals: seq<PeerPod>,
    instances: set<string>, deleted: set<string>, early: set<string>)

  datatype Step =
    | CreateVM(sid: string, pod: string)
    | CreateInstance(sid: string, instance: string)
    | Post(k: nat, name: string, created: int, answered: bool)
    | PostFails(k: nat)
    | MapOwner(k: nat)
    | SetInstance(k: nat)
    | DeleteInstance(sid: string)           // StopVM deletes its instance successfully
    | Release(k: nat, found: bool, answered: bool)   // `found`: the pod is looked up and the patch is applied
    | RemoveSandbox(sid: string)
    | Restart                               // of the adaptor
    | Observe(name: string)                 // the cache of the controller sees an object
    | DeleteDangling(c: nat)                // the controller deletes the instance of a cached PeerPod
    | CommitRemoval(r: nat)                 // ... and tries to remove its finalizer
    | Sweep(c: nat, items: seq<nat>, ok: seq<bool>)
    | RequestDelete(name: string)           // by anyone else, such as the garbage collector

  predicate HasStart(s: System, k: nat, stage: StartStage) {
    k < |s.starts| && s.starts[k].stage == stage
  }

  predicate Enabled(s: System, step: Step) {
    match step
    case CreateVM(sid, _) => sid !in s.sandboxes
    case CreateInstance(sid, instance) => sid in s.sandboxes && instance !in s.instances && instance != ""
    case Post(k, name, _, _) => HasStart(s, k, Creating) && name !in s.posted
    case PostFails(k) => HasStart(s, k, Creating)
    case MapOwner(k) => k < |s.starts| && s.starts[k].stage.Posted?
    case SetInstance(k) => k < |s.starts| && (s.starts[k].stage.Mapped? || s.starts[k].stage.NotPosted?)
    case DeleteInstance(sid) => sid in s.sandboxes
    case Release(k, _, _) => k < |s.stops| && !s.stops[k].finished
    case RemoveSandbox(sid) => sid in s.sandboxes
    case Restart => true
    case Observe(name) => name in s.store.objects
    case DeleteDangling(c) => c < |s.cache| && s.cache[c].deleting && s.cache[c].finalizer
    case CommitRemoval(r) => r < |s.removals|
    case Sweep(c, items, ok) =>
      c < |s.cache| && !s.cache[c].deleting && |ok| == |items| && forall i | 0 <= i < |items| :: items[i] < |s.cache|
    case RequestDelete(_) => true
  }

  /** The PeerPod whose finalizer a release removes: whatever the pod is mapped to. */
  function ReleaseTarget(s: System, k: nat): Option<PeerPod>
    requires k < |s.stops|
  {
    var pod := s.stops[k].pod;
    if pod in s.podToPP && s.podToPP[pod] in s.store.objects && s.store.objects[s.podToPP[pod]].finalizer
    then Some(s.store.objects[s.podToPP[pod]]) else None
  }

  /** The PeerPod whose finalizer the controller removes: its copy, if the store still holds that version. */
  function RemovalTarget(s: System, r: nat): Option<PeerPod>
    requires r < |s.removals|
  {
    var pp := s.removals[r];
    if pp.name in s.store.objects && s.store.objects[pp.name].version == pp.version && s.store.objects[pp.name].finalizer
    then Some(s.store.objects[pp.name]) else None
  }

  /** The PeerPod that loses its finalizer in a step. */
  function Loses(s: System, step: Step): Option<PeerPod>
    requires Enabled(s, step)
  {
    match step
    case Release(k, found, _) => if found then ReleaseTarget(s, k) else None
    case CommitRemoval(r) => RemovalTarget(s, r)
    case _ => None
  }

  function WithStage(s: System, k: nat, stage: StartStage): seq<Start>
    requires k < |s.starts|
  {
    s.starts[k := s.starts[k].(stage := stage)]
  }

  /** Without an answer the adaptor takes the creation for failed. */
  function ApplyPost(s: System, k: nat, name: string, created: int, answered: bool): System
    requires Enabled(s, Post(k, name, created, answered))
  {
    var pp := PeerPod(name, s.starts[k].pod, s.starts[k].instance, created, s.store.version + 1, true, false);
    s.(store := Put(s.store, pp), posted := s.posted[name := pp], starts := WithStage(s, k, if answered then Posted(name) else NotPosted))
  }

  /** Without an answer the adaptor keeps the mapping of the pod. */
  function ApplyRelease(s: System, k: nat, found: bool, answered: bool): System
    requires Enabled(s, Release(k, found, answered))
  {
    var t := s.(stops := s.stops[k := s.stops[k].(finished := true)]);
    if !found || ReleaseTarget(s, k).None? then t
    else
      var pod := s.stops[k].pod;
      var pp := ReleaseTarget(s, k).value;
      t.(store := DropFinalizer(s.store, s.podToPP[pod]), podToPP := if answered then s.podToPP - {pod} else s.podToPP,
         early := if pp.instance in s.deleted then s.early else s.early + {s.podToPP[pod]})
  }

  function ApplyRemoval(s: System, r: nat): System
    requires Enabled(s, CommitRemoval(r))
  {
    if RemovalTarget(s, r).None? then s
    else
      var pp := RemovalTarget(s, r).value;
      s.(store := DropFinalizer(s.store, s.removals[r].name),
         early := if pp.instance in s.deleted then s.early else s.early + {s.removals[r].name})
  }

  predicate IsOld(pp: PeerPod, cur: PeerPod) {
    pp.owner == cur.owner && pp.name != cur.name && pp.created < cur.created
  }

  /** `ok[i]` says whether the delete request for the i-th item reaches the server. */
  function Swept(st: Store, items: seq<PeerPod>, cur: PeerPod, ok: seq<bool>): Store
    requires |ok| == |items|
  {
    if items == [] then st
    else
      var n := |items| - 1;
      var rest := Swept(st, items[..n], cur, ok[..n]);
      if IsOld(items[n], cur) && ok[n] then Delete(rest, items[n].name) else rest
  }

  function Listed(s: System, items: seq<nat>): seq<PeerPod>
    requires forall i | 0 <= i < |items| :: items[i] < |s.cache|
  {
    seq(|items|, i requires 0 <= i < |items| => s.cache[items[i]])
  }

  function Apply(s: System, step: Step): System
    requires Enabled(s, step)
  {
    match step
    case CreateVM(sid, pod) => s.(sandboxes := s.sandboxes[sid := Sandbox(pod, "")])
    case CreateInstance(sid, instance) =>
      s.(starts := s.starts + [Start(sid, s.sandboxes[sid].pod, instance, Creating)], instances := s.instances + {instance})
    case Post(k, name, created, answered) => ApplyPost(s, k, name, created, answered)
    case PostFails(k) => s.(starts := WithStage(s, k, NotPosted))
    case MapOwner(k) =>
      var start := s.starts[k];
      s.(podToPP := s.podToPP[start.pod := start.stage.name], starts := WithStage(s, k, Mapped(start.stage.name)))
    case SetInstance(k) =>
      var start := s.starts[k];
      var t := s.(starts := WithStage(s, k, Finished));
      if start.sid !in s.sandboxes then t
      else t.(sandboxes := s.sandboxes[start.sid := s.sandboxes[start.sid].(instance := start.instance)])
    case DeleteInstance(sid) =>
      var sandbox := s.sandboxes[sid];
      s.(deleted := s.deleted + {sandbox.instance}, stops := s.stops + [Stop(sandbox.pod, sandbox.instance, false)])
    case Release(k, found, answered) => ApplyRelease(s, k, found, answered)
    case RemoveSandbox(sid) => s.(sandboxes := s.sandboxes - {sid})
    case Restart => s.(sandboxes := map[], podToPP := map[], starts := [], stops := [])
    case Observe(name) => s.(cache := s.cache + [s.store.objects[name]])
    case DeleteDangling(c) => s.(deleted := s.deleted + {s.cache[c].instance}, removals := s.removals + [s.cache[c]])
    case CommitRemoval(r) => ApplyRemoval(s, r)
    case Sweep(c, items, ok) => s.(store := Swept(s.store, Listed(s, items), s.cache[c], ok))
    case RequestDelete(name) => s.(store := Delete(s.store, name))
  }

  const START: System := System(Store(map[], 0), map[], map[], map[], [], [], [], [], {}, {}, {})

  predicate Possible(s: System, steps: seq<Step>)
    decreases |steps|
  {
    steps == [] || (Enabled(s, steps[0]) && Possible(Apply(s, steps[0]), steps[1..]))
  }

  function Run(s: System, steps: seq<Step>): System
    requires Possible(s, steps)
    decreases |steps|
  {
    if steps == [] then s else Run(Apply(s, steps[0]), steps[1..])
  }

  // ----- what every state keeps -----

  /** A copy of a PeerPod: its identity is that of the PeerPod once created. */
  predicate Genuine(s: System, pp: PeerPod) {
    && pp.name in s.posted && pp.version <= s.store.version
    && var p := s.posted[pp.name];
      pp.owner == p.owner && pp.instance == p.instance && pp.created == p.created
  }

  predicate Inv(s: System) {
    && (forall name | name in s.store.objects :: s.store.objects[name].name == name && Genuine(s, s.store.objects[name]))
    && (forall name | name in s.posted :: s.posted[name].name == name)
    && (forall i | 0 <= i < |s.cache| :: Genuine(s, s.cache[i]))
    && (forall r | 0 <= r < |s.removals| :: Genuine(s, s.removals[r]) && s.removals[r].instance in s.deleted)
    && (forall k | 0 <= k < |s.stops| :: s.stops[k].instance in s.deleted)
  }

  /** What a change of the store alone must keep. */
  predicate StoreFollows(st: Store, u: Store) {
    && u.version >= st.version
    && (forall name | name in u.objects ::
          && name in st.objects && u.objects[name].version <= u.version && (u.objects[name].finalizer ==> st.objects[name].finalizer)
          && u.objects[name] == st.objects[name].(
               version := u.objects[name].version, deleting := u.objects[name].deleting, finalizer := u.objects[name].finalizer))
  }

  predicate Named(st: Store) {
    forall name | name in st.objects :: st.objects[name].name == name && st.objects[name].version <= st.version
  }

  lemma {:induction false} SweptFollows(st: Store, items: seq<PeerPod>, cur: PeerPod, ok: seq<bool>)
    requires |ok| == |items| && Named(st)
    ensures StoreFollows(st, Swept(st, items, cur, ok)) && Named(Swept(st, items, cur, ok))
  {
    if items != [] {
      var n := |items| - 1;
      SweptFollows(st, items[..n], cur, ok[..n]);
    }
  }

  lemma StoreStepKeepsInv(s: System, t: System)
    requires Inv(s) && StoreFollows(s.store, t.store) && Named(s.store)
    requires t == s.(store := t.store, early := t.early, podToPP := t.podToPP, stops := t.stops)
    requires forall k | 0 <= k < |t.stops| :: t.stops[k].instance in t.deleted
    ensures Inv(t)
  {
    forall name | name in t.store.objects ensures t.store.objects[name].name == name && Genuine(t, t.store.objects[name]) {
      assert Genuine(s, s.store.objects[name]);
    }
    forall i | 0 <= i < |t.cache| ensures Genuine(t, t.cache[i]) {
      assert Genuine(s, s.cache[i]);
    }
    forall r | 0 <= r < |t.removals| ensures Genuine(t, t.removals[r]) {
      assert Genuine(s, s.removals[r]);
    }
  }

  lemma SweepKeepsInv(s: System, step: Step)
    requires Inv(s) && Enabled(s, step) && (step.Sweep? || step.RequestDelete?)
    ensures Inv(Apply(s, step))
  {
    if step.Sweep? {
      SweptFollows(s.store, Listed(s, step.items), s.cache[step.c], step.ok);
    }
    StoreStepKeepsInv(s, Apply(s, step));
  }

  lemma DropFollows(st: Store, name: string)
    requires Named(st) && name in st.objects
    ensures StoreFollows(st, DropFinalizer(st, name))
  {
  }

  lemma ReleaseKeepsInv(s: System, step: Step)
    requires Inv(s) && Enabled(s, step) && (step.Release? || step.CommitRemoval?)
    ensures Inv(Apply(s, step))
  {
    if Loses(s, step).Some? {
      DropFollows(s.store, Loses(s, step).value.name);
    }
    StoreStepKeepsInv(s, Apply(s, step));
  }

  lemma {:induction false} StepKeepsInv(s: System, step: Step)
    requires Inv(s) && Enabled(s, step)
    ensures Inv(Apply(s, step))
  {
    if step.Sweep? || step.RequestDelete? {
      SweepKeepsInv(s, step);
    } else if step.Release? || step.CommitRemoval? {
      ReleaseKeepsInv(s, step);
    } else if step.Post? {
      PostKeepsInv(s, step);
    } else {
      OtherStepKeepsInv(s, step);
    }
  }

  lemma PostKeepsInv(s: System, step: Step)
    requires Inv(s) && Enabled(s, step) && step.Post?
    ensures Inv(Apply(s, step))
  {
  }

  lemma OtherStepKeepsInv(s: System, step: Step)
    requires Inv(s) && Enabled(s, step)
    requires !step.Sweep? && !step.RequestDelete? && !step.Release? && !step.CommitRemoval? && !step.Post?
    ensures Inv(Apply(s, step))
  {
    var t := Apply(s, step);
    assert t.store == s.store && t.posted == s.posted && s.deleted <= t.deleted;
    assert forall pp | Genuine(s, pp) :: Genuine(t, pp);
  }

  lemma {:induction false} RunKeepsInv(s: System, steps: seq<Step>)
    requires Inv(s) && Possible(s, steps)
    ensures Inv(Run(s, steps))
    decreases |steps|
  {
    if steps != [] {
      StepKeepsInv(s, steps[0]);
      RunKeepsInv(Apply(s, steps[0]), steps[1..]);
    }
  }

  /** The controller never removes a finalizer early: its copy names the instance that it has deleted. */
  lemma ControllerIsNeverEarly(s: System, step: Step)
    requires Inv(s) && Enabled(s, step) && !step.Release?
    ensures Apply(s, step).early == s.early
    ensures Loses(s, step).Some? ==> Loses(s, step).value.instance in s.deleted
  {
    if step.CommitRemoval? {
      assert Genuine(s, s.removals[step.r]);
      if Loses(s, step).Some? {
        assert Genuine(s, s.store.objects[s.removals[step.r].name]);
      }
    }
  }

  // ----- what an undisturbed call does -----

  predicate OthersKept(s: System, t: System, name: string) {
    t.store.objects - {name} == s.store.objects - {name} && t.early == s.early
  }

  /** The second half of StartVM, after its instance exists. */
  lemma PostAndMap(s: System, k: nat, name: string, created: int)
    requires HasStart(s, k, Creating) && name !in s.posted && s.starts[k].sid in s.sandboxes
    ensures var steps := [Post(k, name, created, true), MapOwner(k), SetInstance(k)];
            var start := s.starts[k];
            && Possible(s, steps)
            && var t := Run(s, steps);
              && t == s.(store := t.store, posted := t.posted, starts := t.starts, podToPP := s.podToPP[start.pod := name],
                         sandboxes := s.sandboxes[start.sid := s.sandboxes[start.sid].(instance := start.instance)])
              && t.store.objects ==
                 s.store.objects[name := PeerPod(name, start.pod, start.instance, created, s.store.version + 1, true, false)]
  {
    var a := Apply(s, Post(k, name, created, true));
    var b := Apply(a, MapOwner(k));
    var c := Apply(b, SetInstance(k));
    RunsOne(b, c, SetInstance(k), []);
    RunsOne(a, c, MapOwner(k), [SetInstance(k)]);
    RunsOne(s, c, Post(k, name, created, true), [MapOwner(k), SetInstance(k)]);
  }

  /** StartVM leaves a sandbox with its instance, and a PeerPod that names the pod and that instance. */
  lemma StartVMPostsPeerPod(s: System, sid: string, pod: string, instance: string, name: string, created: int)
    requires sid !in s.sandboxes && instance !in s.instances && instance != "" && name !in s.posted
    ensures var k := |s.starts|;
            var steps := [CreateVM(sid, pod), CreateInstance(sid, instance), Post(k, name, created, true), MapOwner(k), SetInstance(k)];
            && Possible(s, steps)
            && var t := Run(s, steps);
              && t.early == s.early && t.deleted == s.deleted && t.instances == s.instances + {instance}
              && t.sandboxes == s.sandboxes[sid := Sandbox(pod, instance)] && t.podToPP == s.podToPP[pod := name]
              && t.store.objects == s.store.objects[name := PeerPod(name, pod, instance, created, s.store.version + 1, true, false)]
  {
    var k := |s.starts|;
    var rest := [Post(k, name, created, true), MapOwner(k), SetInstance(k)];
    var a := Apply(s, CreateVM(sid, pod));
    var b := Apply(a, CreateInstance(sid, instance));
    PostAndMap(b, k, name, created);
    RunsOne(a, Run(b, rest), CreateInstance(sid, instance), rest);
    RunsOne(s, Run(b, rest), CreateVM(sid, pod), [CreateInstance(sid, instance)] + rest);
    assert [CreateVM(sid, pod)] + ([CreateInstance(sid, instance)] + rest)
        == [CreateVM(sid, pod), CreateInstance(sid, instance), Post(k, name, created, true), MapOwner(k), SetInstance(k)];
  }

  lemma {:induction false} RunsOne(s: System, t: System, step: Step, rest: seq<Step>)
    requires Enabled(s, step) && Possible(Apply(s, step), rest) && Run(Apply(s, step), rest) == t
    ensures Possible(s, [step] + rest) && Run(s, [step] + rest) == t
  {
    assert ([step] + rest)[1..] == rest;
  }

  /** StopVM of a sandbox whose pod is mapped to its PeerPod deletes the instance and releases that PeerPod and no other. */
  lemma StopVMReleasesPeerPod(s: System, sid: string)
    requires Inv(s) && sid in s.sandboxes && s.sandboxes[sid].pod in s.podToPP
    requires var name := s.podToPP[s.sandboxes[sid].pod];
             name in s.store.objects && s.store.objects[name].finalizer && s.store.objects[name].instance == s.sandboxes[sid].instance
    ensures var steps := [DeleteInstance(sid), Release(|s.stops|, true, true)];
            var pod, name := s.sandboxes[sid].pod, s.podToPP[s.sandboxes[sid].pod];
            && Possible(s, steps)
            && var t := Run(s, steps);
              && OthersKept(s, t, name) && t.deleted == s.deleted + {s.sandboxes[sid].instance} && t.podToPP == s.podToPP - {pod}
              && (if s.store.objects[name].deleting then name !in t.store.objects
                  else name in t.store.objects && !t.store.objects[name].finalizer)
  {
    var a := Apply(s, DeleteInstance(sid));
    var b := Apply(a, Release(|s.stops|, true, true));
    RunsOne(a, b, Release(|s.stops|, true, true), []);
    RunsOne(s, b, DeleteInstance(sid), [Release(|s.stops|, true, true)]);
  }

  /** A release that does not find its pod, or whose patch is not applied, changes no object and keeps the mapping. */
  lemma UnfoundReleaseKeepsPeerPods(s: System, k: nat, answered: bool)
    requires k < |s.stops| && !s.stops[k].finished
    ensures var t := Apply(s, Release(k, false, answered));
            t.store == s.store && t.podToPP == s.podToPP && t.early == s.early && Loses(s, Release(k, false, answered)).None?
  {
  }

  /** The controller can always clean up a PeerPod that is being deleted: its instance is deleted and the object goes. */
  lemma ReconcileCleansUp(s: System, name: string)
    requires Inv(s) && name in s.store.objects && s.store.objects[name].deleting && s.store.objects[name].finalizer
    ensures var steps := [Observe(name), DeleteDangling(|s.cache|), CommitRemoval(|s.removals|)];
            && Possible(s, steps)
            && var t := Run(s, steps);
              && t.deleted == s.deleted + {s.store.objects[name].instance}
              && name !in t.store.objects && OthersKept(s, t, name)
  {
    var a := Apply(s, Observe(name));
    var b := Apply(a, DeleteDangling(|s.cache|));
    var c := Apply(b, CommitRemoval(|s.removals|));
    RunsOne(b, c, CommitRemoval(|s.removals|), []);
    RunsOne(a, c, DeleteDangling(|s.cache|), [CommitRemoval(|s.removals|)]);
    RunsOne(s, c, Observe(name), [DeleteDangling(|s.cache|), CommitRemoval(|s.removals|)]);
  }

  /** A sandbox that is created again and stopped after a restart of the adaptor releases nothing: that is left to the controller. */
  lemma RestartForgetsOwners(s: System, sid: string, pod: string)
    ensures var steps := [Restart, CreateVM(sid, pod), DeleteInstance(sid), Release(0, true, true)];
            Possible(s, steps) && Run(s, steps).store == s.store && Run(s, steps).early == s.early
  {
    var a := Apply(s, Restart);
    var b := Apply(a, CreateVM(sid, pod));
    var c := Apply(b, DeleteInstance(sid));
    var d := Apply(c, Release(0, true, true));
    RunsOne(c, d, Release(0, true, true), []);
    RunsOne(b, d, DeleteInstance(sid), [Release(0, true, true)]);
    RunsOne(a, d, CreateVM(sid, pod), [DeleteInstance(sid), Release(0, true, true)]);
    RunsOne(s, d, Restart, [CreateVM(sid, pod), DeleteInstance(sid), Release(0, true, true)]);
  }

  // ----- copies and versions -----

  /** A copy of the version that the store holds is the object that the store holds. */
  predicate UpToDate(st: Store, pp: PeerPod) {
    pp.version <= st.version && (pp.name in st.objects && st.objects[pp.name].version == pp.version ==> st.objects[pp.name] == pp)
  }

  predicate Versioned(s: System) {
    && (forall name | name in s.store.objects :: s.store.objects[name].name == name && s.store.objects[name].version <= s.store.version)
    && (forall i | 0 <= i < |s.cache| :: UpToDate(s.store, s.cache[i]))
    && (forall r | 0 <= r < |s.removals| :: UpToDate(s.store, s.removals[r]))
  }

  /** Every change of an object gives it a version that none had before. */
  predicate Ages(st: Store, u: Store) {
    && u.version >= st.version
    && (forall name | name in u.objects ::
          && u.objects[name].name == name && u.objects[name].version <= u.version
          && ((name in st.objects && u.objects[name] == st.objects[name]) || u.objects[name].version > st.version))
  }

  lemma AgingKeepsUpToDate(st: Store, u: Store, pp: PeerPod)
    requires Ages(st, u) && UpToDate(st, pp)
    ensures UpToDate(u, pp)
  {
  }

  lemma {:induction false} SweptAges(st: Store, items: seq<PeerPod>, cur: PeerPod, ok: seq<bool>)
    requires |ok| == |items| && Named(st)
    ensures Ages(st, Swept(st, items, cur, ok))
  {
    if items != [] {
      var n := |items| - 1;
      SweptAges(st, items[..n], cur, ok[..n]);
    }
  }

  lemma {:induction false} StoreAges(s: System, step: Step)
    requires Versioned(s) && Enabled(s, step)
    ensures Ages(s.store, Apply(s, step).store)
  {
    if step.Sweep? {
      SweptAges(s.store, Listed(s, step.items), s.cache[step.c], step.ok);
    }
  }

  lemma {:induction false} StepKeepsVersioned(s: System, step: Step)
    requires Versioned(s) && Enabled(s, step)
    ensures Versioned(Apply(s, step))
  {
    var t := Apply(s, step);
    StoreAges(s, step);
    forall i | 0 <= i < |t.cache| ensures UpToDate(t.store, t.cache[i]) {
      if i < |s.cache| {
        AgingKeepsUpToDate(s.store, t.store, s.cache[i]);
      }
    }
    forall r | 0 <= r < |t.removals| ensures UpToDate(t.store, t.removals[r]) {
      if r < |s.removals| {
        AgingKeepsUpToDate(s.store, t.store, s.removals[r]);
      }
    }
  }

  lemma {:induction false} RunKeepsVersioned(s: System, steps: seq<Step>)
    requires Versioned(s) && Possible(s, steps)
    ensures Versioned(Run(s, steps))
    decreases |steps|
  {
    if steps != [] {
      StepKeepsVersioned(s, steps[0]);
      RunKeepsVersioned(Apply(s, steps[0]), steps[1..]);
    }
  }

  /**
   In every run, the controller removes the finalizer of an object exactly if the store still holds, field
   by field, the copy whose instance it has deleted, and that copy has its finalizer.
   */
  lemma RemovalNeedsUnchangedObject(steps: seq<Step>, r: nat)
    requires Possible(START, steps) && r < |Run(START, steps).removals|
    ensures var s := Run(START, steps);
            var pp := s.removals[r];
            && (Loses(s, CommitRemoval(r)) == Some(pp) <==> pp.name in s.store.objects && s.store.objects[pp.name] == pp && pp.finalizer)
            && (Loses(s, CommitRemoval(r)) != Some(pp) ==> Apply(s, CommitRemoval(r)) == s)
  {
    RunKeepsVersioned(START, steps);
    var s := Run(START, steps);
    assert UpToDate(s.store, s.removals[r]);
  }

  // ----- exactly when StopVM releases a live instance -----

  /** A PeerPod with its finalizer, of an instance of which no delete has succeeded. */
  predicate Protecting(s: System, name: string) {
    name in s.store.objects && s.store.objects[name].finalizer && s.store.objects[name].instance !in s.deleted
  }

  /** The release of this pod would strip a live instance of its finalizer. */
  predicate Exposed(s: System, pod: string) {
    pod in s.podToPP && Protecting(s, s.podToPP[pod])
  }

  predicate Stopping(s: System, pod: string) {
    exists j | 0 <= j < |s.stops| :: s.stops[j].pod == pod && !s.stops[j].finished
  }

  /**
   StopVM is about to delete another instance than the live one whose PeerPod its pod is mapped to, or
   StartVM is about to map a pod to the PeerPod of a live instance while a StopVM of that pod, which has
   deleted its instance, has yet to release.
   */
  predicate Hazard(s: System, step: Step)
    requires Enabled(s, step)
  {
    match step
    case DeleteInstance(sid) =>
      && Exposed(s, s.sandboxes[sid].pod)
      && s.store.objects[s.podToPP[s.sandboxes[sid].pod]].instance != s.sandboxes[sid].instance
    case MapOwner(k) => Stopping(s, s.starts[k].pod) && Protecting(s, s.starts[k].stage.name)
    case _ => false
  }

  predicate Harmless(s: System, steps: seq<Step>)
    requires Possible(s, steps)
    decreases |steps|
  {
    steps == [] || (!Hazard(s, steps[0]) && Harmless(Apply(s, steps[0]), steps[1..]))
  }

  /** No StopVM under way can strip a live instance. */
  predicate Guarded(s: System) {
    && (forall j | 0 <= j < |s.stops| && !s.stops[j].finished :: !Exposed(s, s.stops[j].pod))
    && (forall k | 0 <= k < |s.starts| && s.starts[k].stage.Posted? :: s.starts[k].stage.name in s.posted)
    && (forall pod | pod in s.podToPP :: s.podToPP[pod] in s.posted)
  }

  /** `t` maps the pod to the same PeerPod, which has lost no protection. */
  predicate KeepsMapping(s: System, t: System, pod: string) {
    && s.deleted <= t.deleted
    && (pod in t.podToPP && t.podToPP[pod] in t.store.objects && t.store.objects[t.podToPP[pod]].finalizer ==>
          && pod in s.podToPP && s.podToPP[pod] == t.podToPP[pod] && t.podToPP[pod] in s.store.objects
          && s.store.objects[t.podToPP[pod]].finalizer
          && s.store.objects[t.podToPP[pod]].instance == t.store.objects[t.podToPP[pod]].instance)
  }

  /** Steps other than the mapping of a start on this pod leave its mapping as it was, or remove it. */
  lemma StoreStepKeepsMapping(s: System, step: Step, pod: string)
    requires Inv(s) && Guarded(s) && Enabled(s, step)
    requires step.Sweep? || step.RequestDelete? || step.Release? || step.CommitRemoval?
    ensures KeepsMapping(s, Apply(s, step), pod)
  {
    if step.Sweep? {
      SweptFollows(s.store, Listed(s, step.items), s.cache[step.c], step.ok);
    } else if Loses(s, step).Some? {
      DropFollows(s.store, Loses(s, step).value.name);
    }
  }

  lemma StepKeepsMapping(s: System, step: Step, pod: string)
    requires Inv(s) && Guarded(s) && Enabled(s, step) && (step.MapOwner? ==> s.starts[step.k].pod != pod)
    ensures KeepsMapping(s, Apply(s, step), pod)
  {
    if step.Sweep? || step.RequestDelete? || step.Release? || step.CommitRemoval? {
      StoreStepKeepsMapping(s, step, pod);
    }
  }

  lemma StepKeepsNames(s: System, step: Step)
    requires Guarded(s) && Enabled(s, step)
    ensures var t := Apply(s, step);
            && (forall k | 0 <= k < |t.starts| && t.starts[k].stage.Posted? :: t.starts[k].stage.name in t.posted)
            && (forall pod | pod in t.podToPP :: t.podToPP[pod] in t.posted)
  {
    assert forall name | name in s.posted :: name in Apply(s, step).posted;
  }

  lemma {:induction false} StopsAfter(s: System, step: Step, j: nat)
    requires Enabled(s, step) && j < |Apply(s, step).stops| && !Apply(s, step).stops[j].finished
    ensures || (j < |s.stops| && s.stops[j] == Apply(s, step).stops[j])
            || (step.DeleteInstance? && j == |s.stops| && Apply(s, step).stops[j] == Stop(s.sandboxes[step.sid].pod, s.sandboxes[step.sid].instance, false))
  {
  }

  lemma {:induction false} StopStaysGuarded(s: System, step: Step, j: nat)
    requires Inv(s) && Guarded(s) && Enabled(s, step) && !Hazard(s, step)
    requires j < |Apply(s, step).stops| && !Apply(s, step).stops[j].finished
    ensures !Exposed(Apply(s, step), Apply(s, step).stops[j].pod)
  {
    var pod := Apply(s, step).stops[j].pod;
    StopsAfter(s, step, j);
    if step.MapOwner? && s.starts[step.k].pod == pod {
      assert Stopping(s, pod);
    } else {
      StepKeepsMapping(s, step, pod);
    }
  }

  lemma StepKeepsGuarded(s: System, step: Step)
    requires Inv(s) && Guarded(s) && Enabled(s, step) && !Hazard(s, step)
    ensures Guarded(Apply(s, step))
  {
    var t := Apply(s, step);
    StepKeepsNames(s, step);
    forall j | 0 <= j < |t.stops| && !t.stops[j].finished ensures !Exposed(t, t.stops[j].pod) {
      StopStaysGuarded(s, step, j);
    }
  }

  lemma GuardedStepIsNotEarly(s: System, step: Step)
    requires Inv(s) && Guarded(s) && Enabled(s, step)
    ensures Apply(s, step).early == s.early
  {
    if step.Release? {
      assert !Exposed(s, s.stops[step.k].pod);
    } else {
      ControllerIsNeverEarly(s, step);
    }
  }

  lemma {:induction false} HarmlessRunKeeps(s: System, steps: seq<Step>)
    requires Inv(s) && Guarded(s) && Possible(s, steps) && Harmless(s, steps)
    ensures Inv(Run(s, steps)) && Guarded(Run(s, steps)) && Run(s, steps).early == s.early
    decreases |steps|
  {
    if steps != [] {
      GuardedStepIsNotEarly(s, steps[0]);
      StepKeepsInv(s, steps[0]);
      StepKeepsGuarded(s, steps[0]);
      HarmlessRunKeeps(Apply(s, steps[0]), steps[1..]);
    }
  }

  /**
   In every run without a hazard, every finalizer goes only after a successful delete of the instance: however
   calls overlap, and however restarts, failures, lost answers and the controller interleave.
   */
  lemma FinalizersOutliveInstances(steps: seq<Step>)
    requires Possible(START, steps) && Harmless(START, steps)
    ensures Run(START, steps).early == {}
  {
    HarmlessRunKeeps(START, steps);
  }

  /** Some continuation without a hazard strips a live instance. */
  ghost predicate CanGoWrong(s: System) {
    exists rest :: Possible(s, rest) && Harmless(s, rest) && Run(s, rest).early != {}
  }

  lemma ExposedGoesWrong(s: System, j: nat)
    requires Inv(s) && j < |s.stops| && !s.stops[j].finished && Exposed(s, s.stops[j].pod)
    ensures CanGoWrong(s)
  {
    var release := Release(j, true, true);
    var rest := [release];
    assert rest[1..] == [];
    var t := Apply(s, release);
    assert s.podToPP[s.stops[j].pod] in t.early;
    assert Possible(t, []) && Harmless(t, []) && Run(t, []) == t;
    assert Run(s, rest) == Run(t, rest[1..]);
  }

  lemma HazardGoesWrong(s: System, step: Step)
    requires Inv(s) && Enabled(s, step) && Hazard(s, step)
    ensures CanGoWrong(Apply(s, step))
  {
    StepKeepsInv(s, step);
    if step.DeleteInstance? {
      ExposedGoesWrong(Apply(s, step), |s.stops|);
    } else {
      var j :| 0 <= j < |s.stops| && s.stops[j].pod == s.starts[step.k].pod && !s.stops[j].finished;
      ExposedGoesWrong(Apply(s, step), j);
    }
  }

  /**
   The condition is exact, and can be checked before the step: at any moment of a run without a hazard, a
   step can lead to an early release, with no hazard after it, if and only if it is a hazard.
   */
  lemma StepIsSafeExactly(steps: seq<Step>, step: Step)
    requires Possible(START, steps) && Harmless(START, steps) && Enabled(Run(START, steps), step)
    ensures CanGoWrong(Apply(Run(START, steps), step)) <==> Hazard(Run(START, steps), step)
  {
    var s := Run(START, steps);
    HarmlessRunKeeps(START, steps);
    if Hazard(s, step) {
      HazardGoesWrong(s, step);
    } else {
      var u := Apply(s, step);
      StepKeepsInv(s, step);
      StepKeepsGuarded(s, step);
      GuardedStepIsNotEarly(s, step);
      forall rest | Possible(u, rest) && Harmless(u, rest) ensures Run(u, rest).early == {} {
        HarmlessRunKeeps(u, rest);
      }
    }
  }

  // ----- hazards arise from sequential calls on one sandbox at a time -----

  predicate Open(start: Start, pod: string) {
    start.pod == pod && start.stage != Finished
  }

  /** No StartVM or StopVM call is under way for the pod. */
  predicate Quiet(s: System, pod: string) {
    (forall k | 0 <= k < |s.starts| :: !Open(s.starts[k], pod)) && !Stopping(s, pod)
  }

  /** Calls on a pod do not overlap, a pod has at most one sandbox, and each sandbox is started once. */
  predicate Sequential(s: System, step: Step)
    requires Enabled(s, step)
  {
    match step
    case CreateVM(_, pod) => Quiet(s, pod) && forall sid | sid in s.sandboxes :: s.sandboxes[sid].pod != pod
    case CreateInstance(sid, _) => Quiet(s, s.sandboxes[sid].pod) && s.sandboxes[sid].instance == ""
    case DeleteInstance(sid) => Quiet(s, s.sandboxes[sid].pod)
    case RemoveSandbox(sid) => Quiet(s, s.sandboxes[sid].pod)
    case _ => true
  }

  predicate AllSequential(s: System, steps: seq<Step>)
    requires Possible(s, steps)
    decreases |steps|
  {
    steps == [] || (Sequential(s, steps[0]) && AllSequential(Apply(s, steps[0]), steps[1..]))
  }

  predicate ReachedBy(s: System, steps: seq<Step>, t: System) {
    Possible(s, steps) && AllSequential(s, steps) && Run(s, steps) == t
  }

  /** Some run of sequential calls ends in this state. */
  ghost predicate Reached(t: System) {
    exists steps :: ReachedBy(START, steps, t)
  }

  lemma {:induction false} OneMore(s: System, steps: seq<Step>, t: System, step: Step)
    requires ReachedBy(s, steps, t) && Enabled(t, step) && Sequential(t, step)
    ensures ReachedBy(s, steps + [step], Apply(t, step))
    decreases |steps|
  {
    if steps == [] {
      assert ([] + [step])[1..] == [];
    } else {
      OneMore(Apply(s, steps[0]), steps[1..], t, step);
      assert (steps + [step])[1..] == steps[1..] + [step];
    }
  }

  lemma ReachedNext(t: System, step: Step) returns (u: System)
    requires Reached(t) && Enabled(t, step) && Sequential(t, step)
    ensures Reached(u) && u == Apply(t, step)
  {
    var steps :| ReachedBy(START, steps, t);
    u := Apply(t, step);
    OneMore(START, steps, t, step);
  }

  /** A StopVM whose delete fails leaves its pod mapped to the PeerPod of a live instance. */
  predicate Leftover(s: System) {
    && s.sandboxes == map[] && s.podToPP == map["pod" := "pp"] && s.stops == [] && s.deleted == {} && s.early == {}
    && s.instances == {"i"} && |s.starts| == 1 && s.starts[0].stage == Finished
    && "pp" in s.store.objects && s.store.objects["pp"].instance == "i" && s.store.objects["pp"].finalizer
  }

  lemma LeftoverIsReached() returns (s: System)
    ensures Reached(s) && Leftover(s)
  {
    assert ReachedBy(START, [], START);
    s := ReachedNext(START, CreateVM("a", "pod"));
    s := ReachedNext(s, CreateInstance("a", "i"));
    s := ReachedNext(s, Post(0, "pp", 0, true));
    s := ReachedNext(s, MapOwner(0));
    s := ReachedNext(s, SetInstance(0));
    s := ReachedNext(s, RemoveSandbox("a"));
  }

  /** ... and a second sandbox of the pod, whose PeerPod could not be created, has been started. */
  predicate Unowned(s: System) {
    && s.sandboxes == map["b" := Sandbox("pod", "j")] && s.podToPP == map["pod" := "pp"] && s.stops == []
    && s.deleted == {} && s.early == {} && "i" in s.instances
    && (forall k | 0 <= k < |s.starts| :: s.starts[k].stage == Finished)
    && "pp" in s.store.objects && s.store.objects["pp"].instance == "i" && s.store.objects["pp"].finalizer
  }

  lemma UnownedIsReached() returns (s: System)
    ensures Reached(s) && Unowned(s)
  {
    s := SecondStartIsReached();
    s := ReachedNext(s, PostFails(1));
    s := ReachedNext(s, SetInstance(1));
  }

  lemma SecondStartIsReached() returns (s: System)
    ensures Reached(s) && s.sandboxes == map["b" := Sandbox("pod", "")]
    ensures |s.starts| == 2 && s.starts[0].stage == Finished && s.starts[1] == Start("b", "pod", "j", Creating)
    ensures Leftover(s.(sandboxes := map[], instances := {"i"}, starts := s.starts[..1])) && "i" in s.instances
  {
    s := LeftoverIsReached();
    s := ReachedNext(s, CreateVM("b", "pod"));
    s := ReachedNext(s, CreateInstance("b", "j"));
  }

  /** With sequential calls on one sandbox at a time, a failed creation of a PeerPod lets a live instance lose its finalizer. */
  lemma FailedPostReleasesLiveInstance() returns (t: System)
    ensures Reached(t) && t.early == {"pp"} && "i" in t.instances && "i" !in t.deleted
  {
    t := UnownedIsReached();
    t := ReachedNext(t, DeleteInstance("b"));
    t := ReachedNext(t, Release(0, true, true));
  }

  /** So does a provider whose delete succeeds for the empty instance of a sandbox that was never started. */
  lemma UnstartedStopReleasesLiveInstance() returns (t: System)
    ensures Reached(t) && t.early == {"pp"} && "i" in t.instances && "i" !in t.deleted
  {
    t := LeftoverIsReached();
    t := ReachedNext(t, CreateVM("b", "pod"));
    t := ReachedNext(t, DeleteInstance("b"));
    t := ReachedNext(t, Release(0, true, true));
  }

  // ----- the sweep -----

  /**
   The sweep asks for the delete of this PeerPod: it has listed it with the owner of the current one,
   another name and a strictly earlier creation.
   */
  predicate Hit(items: seq<PeerPod>, cur: PeerPod, ok: seq<bool>, name: string)
    requires |ok| == |items|
  {
    exists i | 0 <= i < |items| ::
      items[i].name == name && name != cur.name && items[i].owner == cur.owner && items[i].created < cur.created && ok[i]
  }

  /** What the sweep does to one PeerPod: it is marked, or goes at once without a finalizer, exactly if it is hit. */
  predicate SweptRight(st: Store, u: Store, hit: bool, name: string)
    requires name in st.objects
  {
    if !hit then name in u.objects && u.objects[name] == st.objects[name]
    else if st.objects[name].finalizer then name in u.objects && u.objects[name].deleting && u.objects[name].finalizer
    else name !in u.objects
  }

  lemma {:induction false} SweepIsExact(st: Store, items: seq<PeerPod>, cur: PeerPod, ok: seq<bool>, name: string)
    requires |ok| == |items| && Named(st) && name in st.objects
    ensures SweptRight(st, Swept(st, items, cur, ok), Hit(items, cur, ok, name), name)
  {
    if items != [] {
      var n := |items| - 1;
      SweepIsExact(st, items[..n], cur, ok[..n], name);
      SweptFollows(st, items[..n], cur, ok[..n]);
      assert Hit(items[..n], cur, ok[..n], name) ==> Hit(items, cur, ok, name);
      if Hit(items, cur, ok, name) && !(items[n].name == name && IsOld(items[n], cur) && ok[n]) {
        var i :| && 0 <= i < |items| && items[i].name == name && name != cur.name
                 && items[i].owner == cur.owner && items[i].created < cur.created && ok[i];
        assert items[..n][i] == items[i] && ok[..n][i];
      }
    }
  }

  /** No PeerPod created so far for the same owner is newer. */
  predicate Newest(s: System, name: string)
    requires name in s.posted
  {
    forall other | other in s.posted && s.posted[other].owner == s.posted[name].owner :: s.posted[other].created <= s.posted[name].created
  }

  /** In every run, whatever copies it works on, a sweep leaves the newest PeerPod of every owner as it is. */
  lemma SweepSparesNewest(steps: seq<Step>, step: Step, name: string)
    requires Possible(START, steps) && step.Sweep? && Enabled(Run(START, steps), step)
    requires var s := Run(START, steps);
             name in s.store.objects && name in s.posted && Newest(s, name)
    ensures var s := Run(START, steps);
            name in Apply(s, step).store.objects && Apply(s, step).store.objects[name] == s.store.objects[name]
  {
    RunKeepsInv(START, steps);
    var s := Run(START, steps);
    var items, cur := Listed(s, step.items), s.cache[step.c];
    SweepIsExact(s.store, items, cur, step.ok, name);
    assert Genuine(s, cur);
    forall i | 0 <= i < |items| ensures Genuine(s, items[i]) {
      assert items[i] == s.cache[step.items[i]];
    }
  }

  /** An error-free sweep marks, or removes, every strictly older sibling that it has listed. */
  lemma SweepMarksOlderSiblings(st: Store, items: seq<PeerPod>, cur: PeerPod, ok: seq<bool>, i: nat)
    requires |ok| == |items| && Named(st) && (forall k | 0 <= k < |ok| :: ok[k])
    requires i < |items| && items[i].owner == cur.owner && items[i].name != cur.name && items[i].created < cur.created
    ensures var u := Swept(st, items, cur, ok);
            items[i].name in u.objects ==> items[i].name in st.objects && u.objects[items[i].name].deleting
  {
    SweptFollows(st, items, cur, ok);
    if items[i].name in st.objects {
      SweepIsExact(st, items, cur, ok, items[i].name);
      assert Hit(items, cur, ok, items[i].name);
    }
  }

  /** The sweep has listed a copy of this PeerPod and its delete request arrives. */
  predicate Listing(s: System, items: seq<nat>, ok: seq<bool>, name: string)
    requires |ok| == |items| && forall i | 0 <= i < |items| :: items[i] < |s.cache|
  {
    exists i | 0 <= i < |items| :: s.cache[items[i]].name == name && ok[i]
  }

  lemma HitsAsCreated(s: System, step: Step, name: string)
    requires Inv(s) && step.Sweep? && Enabled(s, step) && name in s.posted
    ensures var cur := s.cache[step.c];
            && cur.name in s.posted
            && (Hit(Listed(s, step.items), cur, step.ok, name) <==>
                  && Listing(s, step.items, step.ok, name) && name != cur.name
                  && s.posted[name].owner == s.posted[cur.name].owner && s.posted[name].created < s.posted[cur.name].created)
  {
    assert Genuine(s, s.cache[step.c]);
    var items := Listed(s, step.items);
    forall i | 0 <= i < |items| ensures items[i] == s.cache[step.items[i]] && Genuine(s, items[i]) {}
    if Listing(s, step.items, step.ok, name) {
      var i :| 0 <= i < |items| && s.cache[step.items[i]].name == name && step.ok[i];
      assert items[i].name == name;
    }
  }

  /**
   In every run, however stale the copies it works on: a sweep deletes a PeerPod exactly if it has listed
   it, its request arrives, and the two PeerPods, as created, have one owner, different names and the
   swept one an earlier creation.
   */
  lemma SweepHitsOlderSiblingsExactly(steps: seq<Step>, step: Step, name: string)
    requires Possible(START, steps) && step.Sweep? && Enabled(Run(START, steps), step) && name in Run(START, steps).store.objects
    ensures var s := Run(START, steps);
            var cur := s.cache[step.c].name;
            && name in s.posted && cur in s.posted
            && SweptRight(s.store, Apply(s, step).store,
                          && Listing(s, step.items, step.ok, name) && name != cur
                          && s.posted[name].owner == s.posted[cur].owner && s.posted[name].created < s.posted[cur].created, name)
  {
    RunKeepsInv(START, steps);
    var s := Run(START, steps);
    assert Genuine(s, s.store.objects[name]);
    SweepIsExact(s.store, Listed(s, step.items), s.cache[step.c], step.ok, name);
    HitsAsCreated(s, step, name);
  }

  class ApiServer {
    var store: Store

    method DeleteObject(name: string)
      modifies this
      ensures store == Delete(old(store), name)
    {
      store := Delete(store, name);
    }
  }

  /** The loop of the controller; a failed delete is logged and the sweep goes on. */
  method SweepOld(api: ApiServer, items: seq<PeerPod>, cur: PeerPod, ok: seq<bool>)
    requires |ok| == |items|
    modifies api
    ensures api.store == Swept(old(api.store), items, cur, ok)
    ensures Named(old(api.store)) ==>
              forall name | name in old(api.store).objects :: SweptRight(old(api.store), api.store, Hit(items, cur, ok, name), name)
  {
    for i := 0 to |items|
      invariant api.store == Swept(old(api.store), items[..i], cur, ok[..i])
    {
      assert items[..i + 1][..i] == items[..i] && ok[..i + 1][..i] == ok[..i];
      if IsOld(items[i], cur) && ok[i] {
        api.DeleteObject(items[i].name);
      }
    }
    assert items[..|items|] == items && ok[..|items|] == ok;
    if Named(old(api.store)) {
      forall name | name in old(api.store).objects
        ensures SweptRight(old(api.store), api.store, Hit(items, cur, ok, name), name)
      {
        SweepIsExact(old(api.store), items, cur, ok, name);
      }
    }
  }
}
