/**
 Any number of pool managers (one per cloud-api-adaptor process) sharing one ConfigMap.  Every
 API call, and every local computation that follows a read, is one atomic step; managers
 interleave freely, calls fail at any point, and a write may land although its caller sees an
 error.

 The store keeps the resource version of the ConfigMap.  A manager reads the state, computes a new
 one from that snapshot, fetches the ConfigMap again, and writes the computed state if the version
 fetched the second time is still current; on a version conflict it fetches and writes again,
 without recomputing.  The version of the snapshot itself is recorded here only to state hypotheses:
 the program drops it.
 */
module PoolProtocol {
  import opened Results
  import opened PoolStates

  /** `data` is `None` when the ConfigMap exists without the allocation-state key. */
  datatype ConfigMap = ConfigMap(data: Option<State>, rv: nat)

  datatype Op = Alloc(id: string, pod: string) | Dealloc(id: string) | Recover

  /** What a pending write was computed from. */
  datatype Basis = ReadFailed | Snapshot(rv: Option<nat>, state: State)

  datatype Manager =
    | Idle
    | Called(op: Op)
    | Repairing
    | Computed(op: Op, next: State, basis: Basis)
    | Fetched(op: Op, next: State, basis: Basis, version: Option<nat>)

  /** A write request that may still be on its way although the caller of manager `m` has given up. */
  datatype Late = Late(m: nat, put: Manager)

  /** `held` maps each allocation ID to the address its caller was given and still uses. */
  datatype System = System(store: Option<ConfigMap>, managers: map<nat, Manager>, held: map<string, string>, late: seq<Late>)

  datatype Step =
    | Call(m: nat, op: Op)
    | ReadFails(m: nat, now: int)
    | Read(m: nat, seed: nat, node: string, now: int)
    | Fetch(m: nat)
    | Commit(m: nat, acknowledged: bool)
    | Conflict(m: nat)
    | GiveUp(m: nat)
    | Land(m: nat, k: nat)

  function Version(store: Option<ConfigMap>): Option<nat> {
    if store.None? then None else Some(store.value.rv)
  }

  /** What a read of the state yields. */
  function Current(pool: seq<string>, store: Option<ConfigMap>, now: int): State {
    if store.Some? && store.value.data.Some? then store.value.data.value else Empty(pool, now)
  }

  function StoredLeases(store: Option<ConfigMap>): map<string, string> {
    if store.Some? && store.value.data.Some? then Leases(store.value.data.value) else map[]
  }

  /** A write gives the object a new version unless it changes nothing. */
  function Write(store: Option<ConfigMap>, next: State): Option<ConfigMap> {
    if store.None? then Some(ConfigMap(Some(next), 1))
    else if store.value.data == Some(next) then store
    else Some(ConfigMap(Some(next), store.value.rv + 1))
  }

  /** A write is noticed by others, as a new version, exactly if it changes the stored state. */
  lemma WriteIsNoticedExactly(store: Option<ConfigMap>, next: State)
    ensures Version(Write(store, next)) != Version(store) <==> store.None? || store.value.data != Some(next)
    ensures Write(Write(store, next), next) == Write(store, next)
  {
  }

  predicate Enabled(s: System, step: Step) {
    && step.m in s.managers
    && var mgr := s.managers[step.m];
       match step
       case Call(_, _) => mgr.Idle?
       case ReadFails(_, _) => mgr.Called? || mgr.Repairing?
       case Read(_, _, _, _) => mgr.Called? || mgr.Repairing?
       case Fetch(_) => mgr.Computed?
       case Commit(_, _) => mgr.Fetched? && mgr.version == Version(s.store)
       case Conflict(_) => mgr.Fetched? && mgr.version != Version(s.store)
       case GiveUp(_) => !mgr.Idle?
       case Land(_, k) => k < |s.late| && s.late[k].m == step.m && s.late[k].put.Fetched? && s.late[k].put.version == Version(s.store)
  }

  /** The manager after a successful read, and the address it returns if it is done. */
  function AfterRead(pool: seq<string>, store: Option<ConfigMap>, mgr: Manager, step: Step): (Manager, Option<string>)
    requires step.Read? && (mgr.Called? || mgr.Repairing?)
  {
    var cur := Current(pool, store, step.now);
    var basis := Snapshot(Version(store), cur);
    if mgr.Repairing? then (Computed(Recover, Repair(pool, cur, step.now), basis), None)
    else match mgr.op
      case Recover => (Repairing, None)
      case Alloc(id, pod) =>
        if id in cur.allocations then (Idle, Some(cur.allocations[id].ip))
        else if cur.available == [] then (Idle, None)
        else (Computed(mgr.op, Allocate(cur, id, pod, step.node, step.seed, step.now), basis), None)
      case Dealloc(id) =>
        if id !in cur.allocations then (Idle, None)
        else (Computed(mgr.op, Deallocate(cur, id, step.now), basis), None)
  }

  function Apply(pool: seq<string>, s: System, step: Step): System
    requires Enabled(s, step)
  {
    var mgr := s.managers[step.m];
    match step
    case Call(m, op) =>
      // a caller that asks for deallocation has stopped using the machine
      s.(managers := s.managers[m := Called(op)], held := if op.Dealloc? then s.held - {op.id} else s.held)
    case ReadFails(m, now) =>
      s.(managers := s.managers[m :=
        if mgr.Called? && mgr.op.Recover? then Computed(Recover, Empty(pool, now), ReadFailed) else Idle])
    case Read(m, _, _, _) =>
      var (mgr', ip) := AfterRead(pool, s.store, mgr, step);
      s.(managers := s.managers[m := mgr'],
         held := if ip.Some? && mgr.Called? && mgr.op.Alloc? then s.held[mgr.op.id := ip.value] else s.held)
    case Fetch(m) =>
      s.(managers := s.managers[m := Fetched(mgr.op, mgr.next, mgr.basis, Version(s.store))])
    case Commit(m, acknowledged) =>
      s.(store := Write(s.store, mgr.next), managers := s.managers[m := Idle],
         held := if acknowledged && mgr.op.Alloc? && mgr.op.id in mgr.next.allocations
         then s.held[mgr.op.id := mgr.next.allocations[mgr.op.id].ip] else s.held)
    case Conflict(m) =>
      // a lost race to create the ConfigMap is not a version conflict and is not retried
      s.(managers := s.managers[m :=
        if mgr.version.None? then Idle else Computed(mgr.op, mgr.next, mgr.basis)])
    case GiveUp(m) =>
      s.(managers := s.managers[m := Idle], late := if mgr.Fetched? then s.late + [Late(m, mgr)] else s.late)
    case Land(_, k) => s.(store := Write(s.store, s.late[k].put.next))
  }

  predicate Writes(step: Step) {
    step.Commit? || step.Land?
  }

  /** The pending write that a step performs. */
  function Written(s: System, step: Step): Manager
    requires Enabled(s, step) && Writes(step)
  {
    if step.Commit? then s.managers[step.m] else s.late[step.k].put
  }

  predicate Possible(pool: seq<string>, s: System, steps: seq<Step>)
    decreases |steps|
  {
    steps == [] || (Enabled(s, steps[0]) && Possible(pool, Apply(pool, s, steps[0]), steps[1..]))
  }

  function Run(pool: seq<string>, s: System, steps: seq<Step>): System
    requires Possible(pool, s, steps)
    decreases |steps|
  {
    if steps == [] then s else Run(pool, Apply(pool, s, steps[0]), steps[1..])
  }

  // ----- every value ever stored partitions the pool -----

  ghost predicate StorePartitions(pool: seq<string>, store: Option<ConfigMap>) {
    store.Some? && store.value.data.Some? ==> Partition(pool, store.value.data.value)
  }

  ghost predicate PendingPartitions(pool: seq<string>, mgr: Manager) {
    mgr.Computed? || mgr.Fetched? ==> Partition(pool, mgr.next)
  }

  ghost predicate Sound(pool: seq<string>, s: System) {
    && StorePartitions(pool, s.store)
    && (forall m | m in s.managers :: PendingPartitions(pool, s.managers[m]))
    && (forall k | 0 <= k < |s.late| :: PendingPartitions(pool, s.late[k].put))
  }

  /** Whatever the ConfigMap may hold when the first manager starts. */
  ghost predicate Initial(pool: seq<string>, s: System) {
    && StorePartitions(pool, s.store)
    && (forall m | m in s.managers :: s.managers[m].Idle?) && s.late == []
    && (forall id | id in s.held :: id in StoredLeases(s.store) && StoredLeases(s.store)[id] == s.held[id])
  }

  lemma ReadKeepsPartition(pool: seq<string>, s: System, step: Step)
    requires NoDuplicates(pool) && StorePartitions(pool, s.store) && step.Read? && Enabled(s, step)
    ensures PendingPartitions(pool, AfterRead(pool, s.store, s.managers[step.m], step).0)
  {
    var mgr := s.managers[step.m];
    var cur := Current(pool, s.store, step.now);
    EmptyIsPartition(pool, step.now);
    if mgr.Repairing? {
      RepairKeepsPartition(pool, cur, step.now);
    } else if mgr.op.Alloc? && mgr.op.id !in cur.allocations && cur.available != [] {
      AllocateKeepsPartition(pool, cur, mgr.op.id, mgr.op.pod, step.node, step.seed, step.now);
    } else if mgr.op.Dealloc? && mgr.op.id in cur.allocations {
      DeallocateKeepsPartition(pool, cur, mgr.op.id, step.now);
    }
  }

  lemma StepKeepsSound(pool: seq<string>, s: System, step: Step)
    requires NoDuplicates(pool) && Sound(pool, s) && Enabled(s, step)
    ensures Sound(pool, Apply(pool, s, step))
  {
    var mgr := s.managers[step.m];
    assert PendingPartitions(pool, mgr);
    if step.Land? {
      assert PendingPartitions(pool, s.late[step.k].put);
    }
    if step.Read? {
      ReadKeepsPartition(pool, s, step);
    } else if step.ReadFails? {
      EmptyIsPartition(pool, step.now);
    }
  }

  /**
   For every number of managers and every interleaving of calls, failures, conflicts, retries, recoveries and
   late writes, the stored value is an exact partition of the pool, and its total is the pool size.
   */
  lemma {:induction false} StoredValuePartitionsPool(pool: seq<string>, s: System, steps: seq<Step>)
    requires NoDuplicates(pool) && Sound(pool, s) && Possible(pool, s, steps)
    ensures Sound(pool, Run(pool, s, steps))
    ensures var store := Run(pool, s, steps).store;
            store.Some? && store.value.data.Some? ==>
              && Partition(pool, store.value.data.value)
              && |store.value.data.value.available| + |store.value.data.value.allocations| == |pool|
    decreases |steps|
  {
    if steps != [] {
      StepKeepsSound(pool, s, steps[0]);
      StoredValuePartitionsPool(pool, Apply(pool, s, steps[0]), steps[1..]);
    } else if s.store.Some? && s.store.value.data.Some? {
      PartitionCount(pool, s.store.value.data.value);
    }
  }

  // ----- calls, snapshots and addresses in use -----

  predicate Busy(mgr: Manager, id: string) {
    !mgr.Idle? && !mgr.Repairing? && !mgr.op.Recover? && mgr.op.id == id
  }

  /** Calls for one allocation ID do not overlap, and no write lands after its caller has given up. */
  ghost predicate Sequenced(s: System, step: Step)
    requires Enabled(s, step)
  {
    && !step.Land?
    && (step.Call? && !step.op.Recover? ==> forall m | m in s.managers :: !Busy(s.managers[m], step.op.id))
  }

  ghost predicate SequencedRun(pool: seq<string>, s: System, steps: seq<Step>)
    requires Possible(pool, s, steps)
    decreases |steps|
  {
    steps == [] || (Sequenced(s, steps[0]) && SequencedRun(pool, Apply(pool, s, steps[0]), steps[1..]))
  }

  /** Every lease of `a` is a lease of `b`. */
  ghost predicate Within(a: map<string, string>, b: map<string, string>) {
    forall id | id in a :: id in b && b[id] == a[id]
  }

  /** The leases that a pending write knows of; none after a failed read. */
  function BasisLeases(basis: Basis): map<string, string> {
    match basis
    case ReadFailed => map[]
    case Snapshot(_, state) => Leases(state)
  }

  function OwnIDs(op: Op): set<string> {
    if op.Recover? then {} else {op.id}
  }

  /**
   What a write must find.  The snapshot behind it shows every address in use but that of its own ID.  A
   release finds its ID not in use.  An allocation whose caller does not learn of it, and whose ID has come
   into use by another call, writes the address already in use.
   */
  ghost predicate SparesHeld(s: System, step: Step)
    requires Enabled(s, step)
  {
    Writes(step) ==>
      var put := Written(s, step);
      && Within(s.held - OwnIDs(put.op), BasisLeases(put.basis))
      && (put.op.Dealloc? ==> put.op.id !in s.held)
      && (put.op.Alloc? && put.op.id in s.held && !(step.Commit? && step.acknowledged) ==>
            put.op.id in put.next.allocations && put.next.allocations[put.op.id].ip == s.held[put.op.id])
  }

  ghost predicate AllSpareHeld(pool: seq<string>, s: System, steps: seq<Step>)
    requires Possible(pool, s, steps)
    decreases |steps|
  {
    steps == [] || (SparesHeld(s, steps[0]) && AllSpareHeld(pool, Apply(pool, s, steps[0]), steps[1..]))
  }

  /** The snapshot behind a committed write shows every address in use. */
  ghost predicate ShowsHeld(s: System, step: Step)
    requires Enabled(s, step)
  {
    step.Commit? ==> Within(s.held, BasisLeases(s.managers[step.m].basis))
  }

  ghost predicate AllShowHeld(pool: seq<string>, s: System, steps: seq<Step>)
    requires Possible(pool, s, steps)
    decreases |steps|
  {
    steps == [] || (ShowsHeld(s, steps[0]) && AllShowHeld(pool, Apply(pool, s, steps[0]), steps[1..]))
  }

  /** Every address in use is one that the ConfigMap leases to its user. */
  ghost predicate HeldAreStored(s: System) {
    Within(s.held, StoredLeases(s.store))
  }

  /** ... at every point of the run. */
  ghost predicate StaysLeased(pool: seq<string>, s: System, steps: seq<Step>)
    requires Possible(pool, s, steps)
    decreases |steps|
  {
    HeldAreStored(s) && (steps == [] || StaysLeased(pool, Apply(pool, s, steps[0]), steps[1..]))
  }

  /** No foreign write landed between the snapshot behind a write and that write. */
  predicate Fresh(s: System, step: Step)
    requires Enabled(s, step)
  {
    Writes(step) ==>
      var basis := Written(s, step).basis;
      if basis.Snapshot? then basis.rv == Version(s.store) else StoredLeases(s.store) == map[]
  }

  ghost predicate FreshRun(pool: seq<string>, s: System, steps: seq<Step>)
    requires Possible(pool, s, steps)
    decreases |steps|
  {
    steps == [] || (Fresh(s, steps[0]) && FreshRun(pool, Apply(pool, s, steps[0]), steps[1..]))
  }

  /** The abstract lease map that the ConfigMap implements: grant a free address, or release one. */
  ghost predicate LeaseStep(pool: seq<string>, before: map<string, string>, after: map<string, string>) {
    || after == before
    || (exists id, ip :: id !in before && ip in pool && ip !in before.Values && after == before[id := ip])
    || (exists id :: id in before && after == before - {id})
  }

  predicate NotAfter(a: Option<nat>, b: Option<nat>) {
    a.Some? ==> b.Some? && a.value <= b.value
  }

  /** How the leases of a pending write differ from those of its snapshot. */
  ghost predicate Derived(pool: seq<string>, op: Op, snap: map<string, string>, next: map<string, string>) {
    match op
    case Alloc(id, _) => id !in snap && id in next && next == snap[id := next[id]] && next[id] in pool && next[id] !in snap.Values
    case Dealloc(id) => id in snap && next == snap - {id}
    case Recover => next == snap
  }

  ghost predicate Grounded(pool: seq<string>, store: Option<ConfigMap>, mgr: Manager) {
    mgr.Computed? || mgr.Fetched? ==>
      match mgr.basis
      case ReadFailed => mgr.op.Recover? && Leases(mgr.next) == map[]
      case Snapshot(rv, snap) =>
        && Derived(pool, mgr.op, Leases(snap), Leases(mgr.next))
        && NotAfter(rv, Version(store))
        && (rv == Version(store) ==> Leases(snap) == StoredLeases(store))
  }

  /** Holds in every run: equal versions mean equal leases, and pending writes derive from their snapshots. */
  ghost predicate Tracked(pool: seq<string>, s: System) {
    && Sound(pool, s)
    && (forall m | m in s.managers :: Grounded(pool, s.store, s.managers[m]))
    && (forall k | 0 <= k < |s.late| :: Grounded(pool, s.store, s.late[k].put))
  }

  lemma ReadIsGrounded(pool: seq<string>, s: System, step: Step)
    requires NoDuplicates(pool) && StorePartitions(pool, s.store) && step.Read? && Enabled(s, step)
    ensures Grounded(pool, s.store, AfterRead(pool, s.store, s.managers[step.m], step).0)
  {
    var mgr := s.managers[step.m];
    var cur := Current(pool, s.store, step.now);
    EmptyIsPartition(pool, step.now);
    assert Leases(cur) == StoredLeases(s.store);
    if mgr.Repairing? {
      assert Leases(Repair(pool, cur, step.now)) == Leases(cur);
    } else if mgr.op.Alloc? && mgr.op.id !in cur.allocations && cur.available != [] {
      var i := SelectIndex(|cur.available|, step.seed);
      LeasesOfAllocate(cur, mgr.op.id, mgr.op.pod, step.node, step.seed, step.now);
      assert cur.available[i] in cur.available;
      forall id | id in Leases(cur) ensures Leases(cur)[id] != cur.available[i] {}
    } else if mgr.op.Dealloc? && mgr.op.id in cur.allocations {
      DeallocateKeepsPartition(pool, cur, mgr.op.id, step.now);
    }
  }

  /** A write leaves every other manager's snapshot either current or behind. */
  lemma WriteKeepsGrounded(pool: seq<string>, store: Option<ConfigMap>, next: State, mgr: Manager)
    requires Grounded(pool, store, mgr)
    ensures Grounded(pool, Write(store, next), mgr)
  {
  }

  lemma StepKeepsTracked(pool: seq<string>, s: System, step: Step)
    requires NoDuplicates(pool) && Tracked(pool, s) && Enabled(s, step)
    ensures Tracked(pool, Apply(pool, s, step))
  {
    var mgr := s.managers[step.m];
    var t := Apply(pool, s, step);
    StepKeepsSound(pool, s, step);
    assert Grounded(pool, s.store, mgr);
    if step.Read? {
      ReadIsGrounded(pool, s, step);
    } else if step.ReadFails? {
      assert Leases(Empty(pool, step.now)) == map[];
    }
    forall m | m in t.managers ensures Grounded(pool, t.store, t.managers[m]) {
      if Writes(step) && !(step.Commit? && m == step.m) {
        WriteKeepsGrounded(pool, s.store, Written(s, step).next, s.managers[m]);
      }
    }
    forall k | 0 <= k < |t.late| ensures Grounded(pool, t.store, t.late[k].put) {
      if Writes(step) {
        WriteKeepsGrounded(pool, s.store, Written(s, step).next, s.late[k].put);
      }
    }
  }

  lemma {:induction false} RunKeepsTracked(pool: seq<string>, s: System, steps: seq<Step>)
    requires NoDuplicates(pool) && Tracked(pool, s) && Possible(pool, s, steps)
    ensures Tracked(pool, Run(pool, s, steps))
    decreases |steps|
  {
    if steps != [] {
      StepKeepsTracked(pool, s, steps[0]);
      RunKeepsTracked(pool, Apply(pool, s, steps[0]), steps[1..]);
    }
  }

  // ----- exactly when every address in use stays leased -----

  /** Apart from the own ID, a pending write has the leases it was computed from. */
  lemma PendingKeepsOthers(pool: seq<string>, store: Option<ConfigMap>, put: Manager, id: string)
    requires put.Fetched? && Grounded(pool, store, put) && id !in OwnIDs(put.op)
    ensures id in Leases(put.next) <==> id in BasisLeases(put.basis)
    ensures id in BasisLeases(put.basis) ==> Leases(put.next)[id] == BasisLeases(put.basis)[id]
  {
  }

  lemma {:induction false} OthersWithinExactly(pool: seq<string>, store: Option<ConfigMap>, put: Manager, held: map<string, string>)
    requires put.Fetched? && Grounded(pool, store, put)
    ensures Within(held - OwnIDs(put.op), Leases(put.next)) <==> Within(held - OwnIDs(put.op), BasisLeases(put.basis))
  {
    forall id | id in held - OwnIDs(put.op)
      ensures id in Leases(put.next) <==> id in BasisLeases(put.basis)
      ensures id in BasisLeases(put.basis) ==> Leases(put.next)[id] == BasisLeases(put.basis)[id]
    {
      PendingKeepsOthers(pool, store, put, id);
    }
  }

  /** Addresses in use are leased if those of others are, and the own ID's is if it is in use. */
  lemma {:induction false} WithinByOwner(held: map<string, string>, leases: map<string, string>, own: set<string>)
    ensures Within(held, leases) <==>
            Within(held - own, leases) && forall id | id in own && id in held :: id in leases && leases[id] == held[id]
  {
    if Within(held - own, leases) && forall id | id in own && id in held :: id in leases && leases[id] == held[id] {
      forall id | id in held ensures id in leases && leases[id] == held[id] {
        assert id !in own ==> id in held - own;
      }
    }
    if Within(held, leases) {
      forall id | id in held - own ensures id in leases && leases[id] == (held - own)[id] {
        assert id in held;
      }
    }
  }

  /** What becomes of the address of the ID that a write is about. */
  lemma {:induction false} OwnAddressAfter(pool: seq<string>, s: System, step: Step)
    requires Tracked(pool, s) && Enabled(s, step) && Writes(step)
    ensures var put, t := Written(s, step), Apply(pool, s, step);
            && StoredLeases(t.store) == Leases(put.next)
            && t.held - OwnIDs(put.op) == s.held - OwnIDs(put.op)
            && ((forall id | id in OwnIDs(put.op) && id in t.held :: id in Leases(put.next) && Leases(put.next)[id] == t.held[id]) <==>
                && (put.op.Dealloc? ==> put.op.id !in s.held)
                && (put.op.Alloc? && put.op.id in s.held && !(step.Commit? && step.acknowledged) ==>
                      put.op.id in put.next.allocations && put.next.allocations[put.op.id].ip == s.held[put.op.id]))
  {
    var put := Written(s, step);
    assert Grounded(pool, s.store, put);
  }

  /** A write keeps every address in use leased exactly when it spares them: for every call, overlapping or late. */
  lemma WriteKeepsHeldExactly(pool: seq<string>, s: System, step: Step)
    requires Tracked(pool, s) && Enabled(s, step) && Writes(step)
    ensures HeldAreStored(Apply(pool, s, step)) <==> SparesHeld(s, step)
  {
    var put, t := Written(s, step), Apply(pool, s, step);
    assert Grounded(pool, s.store, put);
    OwnAddressAfter(pool, s, step);
    WithinByOwner(t.held, Leases(put.next), OwnIDs(put.op));
    OthersWithinExactly(pool, s.store, put, s.held);
  }

  /** Apart from writes, only answers to allocations change what is in use, and they answer with the stored lease. */
  lemma OtherStepKeepsHeld(pool: seq<string>, s: System, step: Step)
    requires HeldAreStored(s) && Enabled(s, step) && !Writes(step)
    ensures Apply(pool, s, step).store == s.store && HeldAreStored(Apply(pool, s, step))
  {
    if step.Read? {
      assert Leases(Current(pool, s.store, step.now)) == StoredLeases(s.store);
    }
  }

  lemma {:induction false} RunStaysLeasedExactly(pool: seq<string>, s: System, steps: seq<Step>)
    requires NoDuplicates(pool) && Tracked(pool, s) && HeldAreStored(s) && Possible(pool, s, steps)
    ensures StaysLeased(pool, s, steps) <==> AllSpareHeld(pool, s, steps)
    ensures AllSpareHeld(pool, s, steps) ==> HeldAreStored(Run(pool, s, steps))
    decreases |steps|
  {
    if steps != [] {
      StepKeepsTracked(pool, s, steps[0]);
      if Writes(steps[0]) {
        WriteKeepsHeldExactly(pool, s, steps[0]);
      } else {
        OtherStepKeepsHeld(pool, s, steps[0]);
      }
      if SparesHeld(s, steps[0]) {
        RunStaysLeasedExactly(pool, Apply(pool, s, steps[0]), steps[1..]);
      }
    }
  }

  /**
   For any number of managers and any calls, overlapping or not, with conflicts, retries, recoveries, lost
   answers and late writes: every address in use stays leased to its user, at every point of the run, if and
   only if every write spares the addresses then in use.
   */
  lemma UseStaysLeasedExactly(pool: seq<string>, s: System, steps: seq<Step>)
    requires NoDuplicates(pool) && Initial(pool, s) && Possible(pool, s, steps)
    ensures StaysLeased(pool, s, steps) <==> AllSpareHeld(pool, s, steps)
  {
    RunStaysLeasedExactly(pool, s, steps);
  }

  /** Then no address is in use by two allocation IDs. */
  lemma NoAddressHeldTwice(pool: seq<string>, s: System, steps: seq<Step>)
    requires NoDuplicates(pool) && Initial(pool, s) && Possible(pool, s, steps) && AllSpareHeld(pool, s, steps)
    ensures var t := Run(pool, s, steps);
            HeldAreStored(t) && Injective(t.held)
  {
    RunStaysLeasedExactly(pool, s, steps);
    RunKeepsTracked(pool, s, steps);
  }

  /** ... and asking again for an ID in use returns the address it already has. */
  lemma ReallocationReturnsSameAddress(pool: seq<string>, s: System, steps: seq<Step>, step: Step)
    requires NoDuplicates(pool) && Initial(pool, s) && Possible(pool, s, steps) && AllSpareHeld(pool, s, steps)
    requires var t := Run(pool, s, steps);
             && Enabled(t, step) && step.Read? && t.managers[step.m].Called?
             && t.managers[step.m].op.Alloc? && t.managers[step.m].op.id in t.held
    ensures var t := Run(pool, s, steps);
            && AfterRead(pool, t.store, t.managers[step.m], step) == (Idle, Some(t.held[t.managers[step.m].op.id]))
            && Apply(pool, t, step).held == t.held
  {
    NoAddressHeldTwice(pool, s, steps);
  }

  // ----- sequenced calls -----

  /** The manager is about to release, or to store, a lease of this ID. */
  predicate Pending(mgr: Manager, id: string) {
    Busy(mgr, id) && (mgr.op.Dealloc? || mgr.Computed? || mgr.Fetched?)
  }

  /** What sequenced calls keep as long as every address in use is leased: nobody uses an ID with a pending write. */
  ghost predicate Settled(pool: seq<string>, s: System) {
    && Tracked(pool, s) && HeldAreStored(s)
    && (forall m, n, id | m in s.managers && n in s.managers && Busy(s.managers[m], id) && Busy(s.managers[n], id) :: m == n)
    && (forall m, id | m in s.managers && Pending(s.managers[m], id) :: id !in s.held)
  }

  lemma InitialIsSettled(pool: seq<string>, s: System)
    requires Initial(pool, s)
    ensures Settled(pool, s)
  {
  }

  /** Then a commit spares the addresses in use exactly when its snapshot shows them all. */
  lemma SettledSparesExactly(pool: seq<string>, s: System, step: Step)
    requires Settled(pool, s) && Enabled(s, step) && Sequenced(s, step)
    ensures SparesHeld(s, step) <==> ShowsHeld(s, step)
  {
    if step.Commit? {
      var put := s.managers[step.m];
      assert !put.op.Recover? ==> Pending(put, put.op.id);
      assert s.held - OwnIDs(put.op) == s.held;
    }
  }

  lemma {:induction false} BusyAfter(pool: seq<string>, s: System, step: Step, m: nat, id: string)
    requires Enabled(s, step) && m in s.managers && Busy(Apply(pool, s, step).managers[m], id)
    ensures Busy(s.managers[m], id) || (step == Call(m, step.op) && !step.op.Recover? && step.op.id == id)
  {
  }

  lemma StepKeepsBusyApart(pool: seq<string>, s: System, step: Step)
    requires Settled(pool, s) && Enabled(s, step) && Sequenced(s, step)
    ensures var t := Apply(pool, s, step);
            forall m, n, id | m in t.managers && n in t.managers && Busy(t.managers[m], id) && Busy(t.managers[n], id) :: m == n
  {
    var t := Apply(pool, s, step);
    assert t.managers.Keys == s.managers.Keys;
    forall m, n, id | m in t.managers && n in t.managers && Busy(t.managers[m], id) && Busy(t.managers[n], id) ensures m == n {
      BusyAfter(pool, s, step, m, id);
      BusyAfter(pool, s, step, n, id);
    }
  }

  /** A pending write was pending before, is a release just called, or has just been computed for an unleased ID. */
  lemma {:induction false} PendingAfter(pool: seq<string>, s: System, step: Step, m: nat, id: string)
    requires Enabled(s, step) && m in s.managers && Pending(Apply(pool, s, step).managers[m], id)
    ensures || (Pending(s.managers[m], id) && !(step.Commit? && step.m == m))
            || (step.Call? && step.m == m && step.op == Dealloc(id))
            || (step.Read? && step.m == m && Busy(s.managers[m], id) && id !in StoredLeases(s.store))
  {
    if step.Read? && step.m == m {
      assert Leases(Current(pool, s.store, step.now)) == StoredLeases(s.store);
    }
  }

  /** An ID comes into use only when its own call returns. */
  lemma {:induction false} HeldAfter(pool: seq<string>, s: System, step: Step, id: string)
    requires Enabled(s, step) && id in Apply(pool, s, step).held && id !in s.held
    ensures (step.Read? || step.Commit?) && Busy(s.managers[step.m], id) && Apply(pool, s, step).managers[step.m].Idle?
  {
  }

  lemma StepKeepsPendingUnused(pool: seq<string>, s: System, step: Step, m: nat, id: string)
    requires Settled(pool, s) && Enabled(s, step) && m in s.managers && Pending(Apply(pool, s, step).managers[m], id)
    ensures id !in Apply(pool, s, step).held
  {
    PendingAfter(pool, s, step, m, id);
    if id in Apply(pool, s, step).held && id !in s.held {
      HeldAfter(pool, s, step, id);
    }
  }

  /** One step of sequenced calls keeps every address in use leased exactly when it shows them, and then stays settled. */
  lemma StepKeepsSettledExactly(pool: seq<string>, s: System, step: Step)
    requires NoDuplicates(pool) && Settled(pool, s) && Enabled(s, step) && Sequenced(s, step)
    ensures HeldAreStored(Apply(pool, s, step)) <==> ShowsHeld(s, step)
    ensures ShowsHeld(s, step) ==> Settled(pool, Apply(pool, s, step))
  {
    var t := Apply(pool, s, step);
    SettledSparesExactly(pool, s, step);
    if step.Commit? {
      WriteKeepsHeldExactly(pool, s, step);
    } else {
      OtherStepKeepsHeld(pool, s, step);
    }
    StepKeepsTracked(pool, s, step);
    StepKeepsBusyApart(pool, s, step);
    forall m, id | m in t.managers && Pending(t.managers[m], id) ensures id !in t.held {
      StepKeepsPendingUnused(pool, s, step, m, id);
    }
  }

  lemma {:induction false} SettledRunStaysLeasedExactly(pool: seq<string>, s: System, steps: seq<Step>)
    requires NoDuplicates(pool) && Settled(pool, s) && Possible(pool, s, steps) && SequencedRun(pool, s, steps)
    ensures StaysLeased(pool, s, steps) <==> AllShowHeld(pool, s, steps)
    ensures AllShowHeld(pool, s, steps) ==> Settled(pool, Run(pool, s, steps))
    decreases |steps|
  {
    if steps != [] {
      var t := Apply(pool, s, steps[0]);
      StepKeepsSettledExactly(pool, s, steps[0]);
      if ShowsHeld(s, steps[0]) {
        SettledRunStaysLeasedExactly(pool, t, steps[1..]);
      }
    }
  }

  /**
   For any number of managers whose calls for one ID do not overlap: every address in use stays leased to
   its user, at every point of the run, if and only if at every commit the snapshot behind it shows every
   address then in use (after a failed read: if none is in use).
   */
  lemma AddressesStayLeasedExactly(pool: seq<string>, s: System, steps: seq<Step>)
    requires NoDuplicates(pool) && Initial(pool, s) && Possible(pool, s, steps) && SequencedRun(pool, s, steps)
    ensures StaysLeased(pool, s, steps) <==> AllShowHeld(pool, s, steps)
  {
    InitialIsSettled(pool, s);
    SettledRunStaysLeasedExactly(pool, s, steps);
  }

  // ----- fresh commits refine the lease map -----

  /** A fresh write grants its own lease, releases its own lease, or changes no lease. */
  lemma FreshCommitIsLeaseStep(pool: seq<string>, s: System, step: Step)
    requires Tracked(pool, s) && Enabled(s, step) && Fresh(s, step) && Writes(step)
    ensures var mgr := Written(s, step);
            var after := StoredLeases(Apply(pool, s, step).store);
            && after == Leases(mgr.next)
            && Derived(pool, mgr.op, StoredLeases(s.store), after)
            && LeaseStep(pool, StoredLeases(s.store), after)
  {
    var mgr := Written(s, step);
    assert Grounded(pool, s.store, mgr);
  }

  /** While every address in use is leased, a fresh snapshot shows them all. */
  lemma FreshShowsHeld(pool: seq<string>, s: System, step: Step)
    requires Tracked(pool, s) && HeldAreStored(s) && Enabled(s, step) && Fresh(s, step)
    ensures ShowsHeld(s, step)
  {
    if step.Commit? {
      assert Grounded(pool, s.store, s.managers[step.m]);
    }
  }

  /** One step with a fresh snapshot is one step, or none, of the abstract lease map. */
  lemma FreshStepRefinesLeaseMap(pool: seq<string>, s: System, step: Step)
    requires NoDuplicates(pool) && Settled(pool, s) && Enabled(s, step) && Fresh(s, step) && Sequenced(s, step)
    ensures Settled(pool, Apply(pool, s, step))
    ensures LeaseStep(pool, StoredLeases(s.store), StoredLeases(Apply(pool, s, step).store))
  {
    FreshShowsHeld(pool, s, step);
    StepKeepsSettledExactly(pool, s, step);
    if step.Commit? {
      FreshCommitIsLeaseStep(pool, s, step);
    } else {
      OtherStepKeepsHeld(pool, s, step);
    }
  }

  /** Runs without a foreign write between snapshot and commit are among those that keep every address leased. */
  lemma {:induction false} FreshRunShowsHeld(pool: seq<string>, s: System, steps: seq<Step>)
    requires NoDuplicates(pool) && Settled(pool, s) && Possible(pool, s, steps)
    requires SequencedRun(pool, s, steps) && FreshRun(pool, s, steps)
    ensures AllShowHeld(pool, s, steps)
    decreases |steps|
  {
    if steps != [] {
      FreshShowsHeld(pool, s, steps[0]);
      StepKeepsSettledExactly(pool, s, steps[0]);
      FreshRunShowsHeld(pool, Apply(pool, s, steps[0]), steps[1..]);
    }
  }

  // ----- one manager -----

  /** A recovery whose read failed finds no address in use when it overwrites the state. */
  predicate ForgetsNobody(s: System, step: Step)
    requires Enabled(s, step)
  {
    step.Commit? && s.managers[step.m].basis.ReadFailed? ==> s.held == map[]
  }

  predicate NeverForgets(pool: seq<string>, s: System, steps: seq<Step>)
    requires Possible(pool, s, steps)
    decreases |steps|
  {
    steps == [] || (ForgetsNobody(s, steps[0]) && NeverForgets(pool, Apply(pool, s, steps[0]), steps[1..]))
  }

  predicate NoneLate(steps: seq<Step>) {
    forall i | 0 <= i < |steps| :: !steps[i].Land?
  }

  /** With one manager its snapshot is always the current version: its lock serialises all writes. */
  ghost predicate Alone(s: System, m: nat) {
    && s.managers.Keys == {m}
    && var mgr := s.managers[m];
       (mgr.Computed? || mgr.Fetched?) && mgr.basis.Snapshot? ==> mgr.basis.rv == Version(s.store)
  }

  lemma AloneStaysAlone(pool: seq<string>, s: System, m: nat, step: Step)
    requires Alone(s, m) && Enabled(s, step) && !step.Land?
    ensures Alone(Apply(pool, s, step), m) && Sequenced(s, step)
  {
    assert step.m == m;
    assert Apply(pool, s, step).managers.Keys == {m};
  }

  lemma LoneSnapshotShowsExactly(pool: seq<string>, s: System, m: nat, step: Step)
    requires Alone(s, m) && Settled(pool, s) && Enabled(s, step) && !step.Land?
    ensures ShowsHeld(s, step) <==> ForgetsNobody(s, step)
  {
    assert step.m == m;
    if step.Commit? {
      assert Grounded(pool, s.store, s.managers[m]);
      assert s.managers[m].basis.ReadFailed? && Within(s.held, map[]) ==> s.held == map[];
    }
  }

  lemma {:induction false} LoneRunStaysLeasedExactly(pool: seq<string>, s: System, m: nat, steps: seq<Step>)
    requires NoDuplicates(pool) && Alone(s, m) && Settled(pool, s) && Possible(pool, s, steps) && NoneLate(steps)
    ensures StaysLeased(pool, s, steps) <==> NeverForgets(pool, s, steps)
    ensures NeverForgets(pool, s, steps) ==> Settled(pool, Run(pool, s, steps))
    decreases |steps|
  {
    if steps != [] {
      AloneStaysAlone(pool, s, m, steps[0]);
      LoneSnapshotShowsExactly(pool, s, m, steps[0]);
      StepKeepsSettledExactly(pool, s, steps[0]);
      if ShowsHeld(s, steps[0]) {
        LoneRunStaysLeasedExactly(pool, Apply(pool, s, steps[0]), m, steps[1..]);
      }
    }
  }

  /**
   For a single manager none of whose writes lands after its caller has given up, without any hypothesis on
   interleavings: every address in use stays leased to its user if and only if no recovery after a failed
   read overwrites the state while an address is in use.
   */
  lemma OneManagerStaysLeasedExactly(pool: seq<string>, s: System, m: nat, steps: seq<Step>)
    requires NoDuplicates(pool) && Initial(pool, s) && s.managers.Keys == {m} && Possible(pool, s, steps) && NoneLate(steps)
    ensures StaysLeased(pool, s, steps) <==> NeverForgets(pool, s, steps)
  {
    InitialIsSettled(pool, s);
    LoneRunStaysLeasedExactly(pool, s, m, steps);
  }

  /** Then no address is in use by two allocation IDs. */
  lemma OneManagerIsExclusive(pool: seq<string>, s: System, m: nat, steps: seq<Step>)
    requires NoDuplicates(pool) && Initial(pool, s) && s.managers.Keys == {m}
    requires Possible(pool, s, steps) && NoneLate(steps) && NeverForgets(pool, s, steps)
    ensures var t := Run(pool, s, steps);
            HeldAreStored(t) && Injective(t.held)
  {
    InitialIsSettled(pool, s);
    LoneRunStaysLeasedExactly(pool, s, m, steps);
  }

  // ----- other leases -----

  /** All leases of `before`, other than those of `own`, are leases of `after`. */
  ghost predicate KeepsOthers(before: map<string, string>, after: map<string, string>, own: set<string>) {
    Within(before - own, after)
  }

  /**
   In every run whatever, a write drops or moves somebody else's lease, in use or not, exactly when what
   it was computed from does not show that lease.
   */
  lemma WriteKeepsOtherLeasesExactly(pool: seq<string>, s: System, steps: seq<Step>, step: Step)
    requires NoDuplicates(pool) && Initial(pool, s) && Possible(pool, s, steps)
    requires Enabled(Run(pool, s, steps), step) && Writes(step)
    ensures var t := Run(pool, s, steps);
            var put := Written(t, step);
            KeepsOthers(StoredLeases(t.store), StoredLeases(Apply(pool, t, step).store), OwnIDs(put.op))
            <==> KeepsOthers(StoredLeases(t.store), BasisLeases(put.basis), OwnIDs(put.op))
  {
    RunKeepsTracked(pool, s, steps);
    var t := Run(pool, s, steps);
    assert Grounded(pool, t.store, Written(t, step));
    OwnAddressAfter(pool, t, step);
    OthersWithinExactly(pool, t.store, Written(t, step), StoredLeases(t.store));
  }
}
