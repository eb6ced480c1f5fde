/**
 The ConfigMap-based pool manager and the BYOM provider on top of it, as the code runs them: state
 read into a local object, changed in place, and written back by a get-modify-update loop that is
 repeated on version conflicts.  Everything outside the process (API failures, writes of other
 managers that land during an update, VM readiness, node name, clock) comes in as a parameter.
 */
module PoolManager {
  import opened Results
  import opened Addresses
  import opened PoolStates
  import opened PoolProtocol
  import PoolFlag

  datatype Error =
    | EmptyPoolIPs | InvalidIPAddress(text: string)
    | RetrievingPoolState | InvalidAllocatedIP(text: string) | NoAvailableIPs | NodeNameDetection
    | NotUpdated(reason: UpdateError)
    | ConfigFailed | SendFailed(addr: Addr) | InvalidInstanceID(text: string)

  datatype UpdateError = GetFailed | AlreadyExists | PutFailed | ConflictsExhausted

  /** `seed` is the first four bytes, big-endian, of the MD5 of an allocation ID. */
  datatype Config = Config(pool: seq<string>, codec: Codec, seed: string -> nat, skipReadiness: bool)

  /** The answer to a write: a lost one reaches the caller as an error although the write has landed. */
  datatype Answer = Acknowledged | Refused | Lost

  /** One round of the update loop; `foreign` is written by somebody else between its get and its put. */
  datatype Attempt = Attempt(getOK: bool, foreign: Option<State>, put: Answer)

  /** `earlier` and `meanwhile` are written by somebody else just before and just after the state is read. */
  datatype Env = Env(
    readOK: bool, vmReady: bool, nodeName: Option<string>, now: int,
    earlier: Option<State>, meanwhile: Option<State>, attempts: seq<Attempt>)

  /** The retry helper of the Kubernetes client library runs its function at most four times. */
  const MAX_ATTEMPTS: nat := 4

  /** The shared API server, seen through the one ConfigMap. */
  class ApiServer {
    var cm: Option<ConfigMap>

    constructor (cm: Option<ConfigMap>)
      ensures this.cm == cm
    {
      this.cm := cm;
    }
  }

  /** The local copy of the allocation state that an operation changes in place. */
  class AllocationState {
    var allocations: map<string, IPAllocation>
    var available: seq<string>
    var lastUpdated: int
    var version: int

    constructor (s: State)
      ensures Value() == s
    {
      allocations, available, lastUpdated, version := s.allocations, s.available, s.lastUpdated, s.version;
    }

    function Value(): State
      reads this
    {
      State(allocations, available, lastUpdated, version)
    }
  }

  // ----- specification of the update loop -----

  function AttemptAt(attempts: seq<Attempt>, k: nat): Attempt {
    if k < |attempts| then attempts[k] else Attempt(true, None, Acknowledged)
  }

  function AfterForeign(store: Option<ConfigMap>, foreign: Option<State>): Option<ConfigMap> {
    if foreign.Some? then Write(store, foreign.value) else store
  }

  /** The ConfigMap and the outcome after rounds `k`, `k + 1`, ... of writing `next`. */
  function UpdateRun(store: Option<ConfigMap>, next: State, attempts: seq<Attempt>, k: nat)
    : (Option<ConfigMap>, Option<UpdateError>)
    requires k <= MAX_ATTEMPTS
    decreases MAX_ATTEMPTS - k
  {
    var a := AttemptAt(attempts, k);
    var found := AfterForeign(store, a.foreign);
    if k == MAX_ATTEMPTS then (store, Some(ConflictsExhausted))
    else if !a.getOK then (store, Some(GetFailed))
    else if store.None? && found.Some? then (found, Some(AlreadyExists))
    else if Version(found) != Version(store) then UpdateRun(found, next, attempts, k + 1)
    else match a.put
      case Acknowledged => (Write(found, next), None)
      case Lost => (Write(found, next), Some(PutFailed))
      case Refused => (found, Some(PutFailed))
  }

  ghost predicate Partitions(pool: seq<string>, foreign: Option<State>) {
    foreign.Some? ==> Partition(pool, foreign.value)
  }

  ghost predicate ForeignPartitions(pool: seq<string>, attempts: seq<Attempt>) {
    forall k :: Partitions(pool, AttemptAt(attempts, k).foreign)
  }

  /** No other manager writes during the update. */
  ghost predicate Undisturbed(attempts: seq<Attempt>) {
    forall k :: AttemptAt(attempts, k).foreign.None?
  }

  /**
   Success means that exactly `next` is stored; failure means that the stored state is the one that was
   there before, one that somebody else wrote, or exactly `next` if an answer was lost.
   */
  lemma {:induction false} UpdateIsAllOrNothing(store: Option<ConfigMap>, next: State, attempts: seq<Attempt>, k: nat)
    requires k <= MAX_ATTEMPTS
    ensures var (after, err) := UpdateRun(store, next, attempts, k);
            && (err.None? ==> after.Some? && after.value.data == Some(next))
            && (err.Some? && after != store ==>
                  && after.Some?
                  && exists j :: || (AttemptAt(attempts, j).foreign.Some? && after.value.data == AttemptAt(attempts, j).foreign)
                                 || (AttemptAt(attempts, j).put.Lost? && err == Some(PutFailed) && after.value.data == Some(next)))
    decreases MAX_ATTEMPTS - k
  {
    var a := AttemptAt(attempts, k);
    var found := AfterForeign(store, a.foreign);
    if k < MAX_ATTEMPTS && a.getOK && store.Some? && Version(found) != Version(store) {
      UpdateIsAllOrNothing(found, next, attempts, k + 1);
    }
  }

  /** An undisturbed update is decided by its first round. */
  lemma UndisturbedUpdate(store: Option<ConfigMap>, next: State, attempts: seq<Attempt>)
    requires Undisturbed(attempts)
    ensures var (after, err) := UpdateRun(store, next, attempts, 0);
            var a := AttemptAt(attempts, 0);
            && (err.None? <==> a.getOK && a.put.Acknowledged?)
            && (err == Some(PutFailed) <==> a.getOK && !a.put.Acknowledged?)
            && after == if err.None? || (err == Some(PutFailed) && a.put.Lost?) then Write(store, next) else store
  {
    assert AttemptAt(attempts, 0).foreign.None?;
  }

  lemma {:induction false} UpdateKeepsPartition(pool: seq<string>, store: Option<ConfigMap>, next: State, attempts: seq<Attempt>, k: nat)
    requires k <= MAX_ATTEMPTS && StorePartitions(pool, store) && Partition(pool, next) && ForeignPartitions(pool, attempts)
    ensures StorePartitions(pool, UpdateRun(store, next, attempts, k).0)
    decreases MAX_ATTEMPTS - k
  {
    var a := AttemptAt(attempts, k);
    assert Partitions(pool, a.foreign);
    var found := AfterForeign(store, a.foreign);
    if k < MAX_ATTEMPTS && a.getOK && store.Some? && Version(found) != Version(store) {
      UpdateKeepsPartition(pool, found, next, attempts, k + 1);
    }
  }

  /** What the gets of round `j` find: the foreign writes of the rounds before it. */
  function StoreAt(store: Option<ConfigMap>, attempts: seq<Attempt>, j: nat): Option<ConfigMap> {
    if j == 0 then store else AfterForeign(StoreAt(store, attempts, j - 1), AttemptAt(attempts, j - 1).foreign)
  }

  predicate Interferes(store: Option<ConfigMap>, attempts: seq<Attempt>, j: nat) {
    Version(StoreAt(store, attempts, j + 1)) != Version(StoreAt(store, attempts, j))
  }

  /** Round `j` ends in a version conflict. */
  predicate Conflicts(store: Option<ConfigMap>, attempts: seq<Attempt>, j: nat) {
    AttemptAt(attempts, j).getOK && StoreAt(store, attempts, j).Some? && Interferes(store, attempts, j)
  }

  predicate GoesThrough(store: Option<ConfigMap>, attempts: seq<Attempt>, j: nat) {
    AttemptAt(attempts, j).getOK && AttemptAt(attempts, j).put.Acknowledged? && !Interferes(store, attempts, j)
  }

  predicate SucceedsFrom(store: Option<ConfigMap>, attempts: seq<Attempt>, k: nat) {
    exists j | k <= j < MAX_ATTEMPTS :: GoesThrough(store, attempts, j) && forall i | k <= i < j :: Conflicts(store, attempts, i)
  }

  lemma {:induction false} SucceedsFromExactly(store: Option<ConfigMap>, next: State, attempts: seq<Attempt>, k: nat)
    requires k <= MAX_ATTEMPTS
    ensures UpdateRun(StoreAt(store, attempts, k), next, attempts, k).1.None? <==> SucceedsFrom(store, attempts, k)
    decreases MAX_ATTEMPTS - k
  {
    if k < MAX_ATTEMPTS {
      SucceedsFromExactly(store, next, attempts, k + 1);
      if Conflicts(store, attempts, k) {
        if SucceedsFrom(store, attempts, k + 1) {
          var j :| k + 1 <= j < MAX_ATTEMPTS && GoesThrough(store, attempts, j) && forall i | k + 1 <= i < j :: Conflicts(store, attempts, i);
          assert forall i | k <= i < j :: Conflicts(store, attempts, i);
        }
        assert !GoesThrough(store, attempts, k);
      } else if GoesThrough(store, attempts, k) {
        assert SucceedsFrom(store, attempts, k);
      }
    }
  }

  /**
   An update succeeds if and only if one of its four rounds goes through and every round before it ends in
   a version conflict; whatever caused the conflicts is then overwritten.
   */
  lemma UpdateSucceedsExactly(store: Option<ConfigMap>, next: State, attempts: seq<Attempt>)
    ensures var (after, err) := UpdateRun(store, next, attempts, 0);
            && (err.None? <==> SucceedsFrom(store, attempts, 0))
            && (err.None? ==> after.Some? && after.value.data == Some(next))
  {
    SucceedsFromExactly(store, next, attempts, 0);
    UpdateIsAllOrNothing(store, next, attempts, 0);
  }

  /** A lost race to create the ConfigMap is not retried: the update fails and the winner's state stays. */
  lemma LostCreationRaceFails(next: State, foreign: State, attempts: seq<Attempt>)
    requires AttemptAt(attempts, 0).getOK && AttemptAt(attempts, 0).foreign == Some(foreign)
    ensures UpdateRun(None, next, attempts, 0) == (Some(ConfigMap(Some(foreign), 1)), Some(AlreadyExists))
  {
  }

  // ----- specification of the operations -----

  function ParseLeased(config: Config, text: string): Result<Addr, Error> {
    match config.codec.parse(text)
    case None => Err(InvalidAllocatedIP(text))
    case Some(a) => Ok(a)
  }

  function AllocateRun(config: Config, before: Option<ConfigMap>, id: string, pod: string, env: Env)
    : (Option<ConfigMap>, Result<Addr, Error>)
  {
    var store := AfterForeign(before, env.earlier);
    var s := Current(config.pool, store, env.now);
    if !env.readOK then (store, Err(RetrievingPoolState))
    else if id in s.allocations then (store, ParseLeased(config, s.allocations[id].ip))
    else if s.available == [] then (store, Err(NoAvailableIPs))
    else
      var seed := config.seed(id);
      var text := s.available[SelectIndex(|s.available|, seed)];
      if !config.skipReadiness && !env.vmReady then (store, Err(InvalidAllocatedIP(text)))
      else if env.nodeName.None? then (store, Err(NodeNameDetection))
      else
        var next := Allocate(s, id, pod, env.nodeName.value, seed, env.now);
        var (after, err) := UpdateRun(AfterForeign(store, env.meanwhile), next, env.attempts, 0);
        (after, if err.Some? then Err(NotUpdated(err.value)) else ParseLeased(config, text))
  }

  function DeallocateRun(config: Config, before: Option<ConfigMap>, id: string, env: Env)
    : (Option<ConfigMap>, Option<Error>)
  {
    var store := AfterForeign(before, env.earlier);
    var s := Current(config.pool, store, env.now);
    if !env.readOK then (store, Some(RetrievingPoolState))
    else if id !in s.allocations then (store, None)
    else
      var (after, err) := UpdateRun(AfterForeign(store, env.meanwhile), Deallocate(s, id, env.now), env.attempts, 0);
      (after, if err.Some? then Some(NotUpdated(err.value)) else None)
  }

  function RepairRun(config: Config, before: Option<ConfigMap>, env: Env): (Option<ConfigMap>, Option<Error>) {
    var store := AfterForeign(before, env.earlier);
    if !env.readOK then (store, Some(RetrievingPoolState))
    else
      var next := Repair(config.pool, Current(config.pool, store, env.now), env.now);
      var (after, err) := UpdateRun(AfterForeign(store, env.meanwhile), next, env.attempts, 0);
      (after, if err.Some? then Some(NotUpdated(err.value)) else None)
  }

  /** Recovery reads twice: `repair` is for the second read and what follows it.  A failed repair is only logged. */
  function RecoverRun(config: Config, before: Option<ConfigMap>, env: Env, repair: Env): (Option<ConfigMap>, Option<Error>) {
    var store := AfterForeign(before, env.earlier);
    if env.nodeName.None? then (before, Some(NodeNameDetection))
    else if env.readOK then (RepairRun(config, store, repair).0, None)
    else
      var (after, err) := UpdateRun(AfterForeign(store, env.meanwhile), Empty(config.pool, env.now), env.attempts, 0);
      (after, if err.Some? then Some(NotUpdated(err.value)) else None)
  }

  // ----- the manager -----

  predicate GoodConfig(config: Config) {
    config.pool != [] && forall text | text in config.pool :: config.codec.parse(text).Some?
  }

  method ValidateConfig(config: Config) returns (err: Option<Error>)
    ensures err.None? <==> GoodConfig(config)
  {
    if |config.pool| == 0 {
      return Some(EmptyPoolIPs);
    }
    for i := 0 to |config.pool|
      invariant forall k | 0 <= k < i :: config.codec.parse(config.pool[k]).Some?
    {
      if config.codec.parse(config.pool[i]).None? {
        assert config.pool[i] in config.pool;
        return Some(InvalidIPAddress(config.pool[i]));
      }
    }
    return None;
  }

  /** The first loop of the repair. */
  method AllocatedIPs(allocations: map<string, IPAllocation>) returns (taken: set<string>)
    ensures taken == set id | id in allocations :: allocations[id].ip
  {
    taken := {};
    var left := allocations.Keys;
    while left != {}
      invariant left <= allocations.Keys
      invariant taken == set id | id in allocations && id !in left :: allocations[id].ip
    {
      var id :| id in left;
      taken := taken + {allocations[id].ip};
      left := left - {id};
    }
  }

  /** The second loop of the repair. */
  method Unallocated(pool: seq<string>, taken: set<string>) returns (available: seq<string>)
    ensures available == Without(pool, taken)
  {
    available := [];
    for i := 0 to |pool|
      invariant available == Without(pool[..i], taken)
    {
      WithoutSnoc(pool[..i], pool[i], taken);
      assert pool[..i + 1] == pool[..i] + [pool[i]];
      if pool[i] !in taken {
        available := available + [pool[i]];
      }
    }
    assert pool[..|pool|] == pool;
  }

  class Manager {
    const server: ApiServer
    const config: Config

    constructor (server: ApiServer, config: Config)
      requires GoodConfig(config)
      ensures this.server == server && this.config == config
    {
      this.server, this.config := server, config;
    }

    method GetCurrentState(readOK: bool, now: int) returns (state: AllocationState?)
      ensures readOK <==> state != null
      ensures state != null ==> fresh(state) && state.Value() == Current(config.pool, server.cm, now)
    {
      if !readOK {
        return null;
      }
      if server.cm.None? || server.cm.value.data.None? {
        state := new AllocationState(Empty(config.pool, now));
      } else {
        state := new AllocationState(server.cm.value.data.value);
      }
    }

    method Put(state: State, answer: Answer) returns (err: Option<UpdateError>)
      modifies server
      ensures server.cm == if answer.Refused? then old(server.cm) else Write(old(server.cm), state)
      ensures err == if answer.Acknowledged? then None else Some(PutFailed)
    {
      if !answer.Refused? {
        server.cm := Write(server.cm, state);
      }
      return if answer.Acknowledged? then None else Some(PutFailed);
    }

    method UpdateState(state: AllocationState, attempts: seq<Attempt>) returns (err: Option<UpdateError>)
      modifies server
      ensures (server.cm, err) == UpdateRun(old(server.cm), old(state.Value()), attempts, 0)
    {
      var formatted := state.Value();
      var k := 0;
      while k < MAX_ATTEMPTS
        invariant k <= MAX_ATTEMPTS
        invariant UpdateRun(server.cm, formatted, attempts, k) == UpdateRun(old(server.cm), formatted, attempts, 0)
      {
        var a := AttemptAt(attempts, k);
        if !a.getOK {
          return Some(GetFailed);
        }
        var fetched := server.cm;
        server.cm := AfterForeign(server.cm, a.foreign);   // another manager's write lands here
        if fetched.None? {
          if server.cm.Some? {
            return Some(AlreadyExists);
          }
          err := Put(formatted, a.put);
          return;
        }
        if server.cm.value.rv == fetched.value.rv {
          err := Put(formatted, a.put);
          return;
        }
        k := k + 1;
      }
      return Some(ConflictsExhausted);
    }

    method AllocateIP(id: string, pod: string, env: Env) returns (r: Result<Addr, Error>)
      modifies server
      ensures (server.cm, r) == AllocateRun(config, old(server.cm), id, pod, env)
    {
      server.cm := AfterForeign(server.cm, env.earlier);
      var state := GetCurrentState(env.readOK, env.now);
      if state == null {
        return Err(RetrievingPoolState);
      }
      if id in state.allocations {
        return ParseLeased(config, state.allocations[id].ip);
      }
      if |state.available| == 0 {
        return Err(NoAvailableIPs);
      }
      var selected := SelectIndex(|state.available|, config.seed(id));
      var text := state.available[selected];
      if !config.skipReadiness {
        if !env.vmReady {
          return Err(InvalidAllocatedIP(text));
        }
      }
      state.available := state.available[..selected] + state.available[selected + 1..];
      if env.nodeName.None? {
        return Err(NodeNameDetection);
      }
      state.allocations := state.allocations[id := IPAllocation(id, text, env.nodeName.value, pod, env.now)];
      state.lastUpdated := env.now;
      state.version := state.version + 1;
      server.cm := AfterForeign(server.cm, env.meanwhile);
      var err := UpdateState(state, env.attempts);
      if err.Some? {
        return Err(NotUpdated(err.value));
      }
      return ParseLeased(config, text);
    }

    method DeallocateIP(id: string, env: Env) returns (err: Option<Error>)
      modifies server
      ensures (server.cm, err) == DeallocateRun(config, old(server.cm), id, env)
    {
      server.cm := AfterForeign(server.cm, env.earlier);
      var state := GetCurrentState(env.readOK, env.now);
      if state == null {
        return Some(RetrievingPoolState);
      }
      if id !in state.allocations {
        return None;
      }
      state.available := state.available + [state.allocations[id].ip];
      state.allocations := state.allocations - {id};
      state.lastUpdated := env.now;
      state.version := state.version + 1;
      server.cm := AfterForeign(server.cm, env.meanwhile);
      var failed := UpdateState(state, env.attempts);
      if failed.Some? {
        return Some(NotUpdated(failed.value));
      }
      return None;
    }

    method RecoverState(env: Env, repair: Env) returns (err: Option<Error>)
      modifies server
      ensures (server.cm, err) == RecoverRun(config, old(server.cm), env, repair)
    {
      if env.nodeName.None? {
        return Some(NodeNameDetection);
      }
      server.cm := AfterForeign(server.cm, env.earlier);
      var state := GetCurrentState(env.readOK, env.now);
      if state != null {
        var _ := RepairStateFromPrimaryConfig(repair);
        return None;
      }
      state := new AllocationState(Empty(config.pool, env.now));
      server.cm := AfterForeign(server.cm, env.meanwhile);
      var failed := UpdateState(state, env.attempts);
      if failed.Some? {
        return Some(NotUpdated(failed.value));
      }
      return None;
    }

    method RepairStateFromPrimaryConfig(env: Env) returns (err: Option<Error>)
      modifies server
      ensures (server.cm, err) == RepairRun(config, old(server.cm), env)
    {
      server.cm := AfterForeign(server.cm, env.earlier);
      var state := GetCurrentState(env.readOK, env.now);
      if state == null {
        return Some(RetrievingPoolState);
      }
      var valid := state.allocations;
      var taken := AllocatedIPs(valid);
      assert taken == Leases(state.Value()).Values by {
        assert forall id | id in valid :: Leases(state.Value())[id] == valid[id].ip;
      }
      var available := Unallocated(config.pool, taken);
      var repaired := new AllocationState(State(valid, available, env.now, state.version + 1));
      server.cm := AfterForeign(server.cm, env.meanwhile);
      var failed := UpdateState(repaired, env.attempts);
      if failed.Some? {
        return Some(NotUpdated(failed.value));
      }
      return None;
    }

    method GetIPfromAllocationID(id: string, readOK: bool, now: int) returns (r: Result<Option<Addr>, Error>)
      ensures r == IPLookup(config, server.cm, id, readOK, now)
    {
      var state := GetCurrentState(readOK, now);
      if state == null {
        return Err(RetrievingPoolState);
      }
      if id !in state.allocations {
        return Ok(None);
      }
      var ip := config.codec.parse(state.allocations[id].ip);
      if ip.None? {
        return Err(InvalidAllocatedIP(state.allocations[id].ip));
      }
      return Ok(ip);
    }

    /** The loop may meet the allocations in any order. */
    method GetAllocationIDfromIP(addr: Addr, readOK: bool, now: int) returns (r: Result<Option<string>, Error>)
      ensures r.Err? <==> !readOK
      ensures r.Ok? ==> IDLookup(config, server.cm, addr, r.value)
    {
      var state := GetCurrentState(readOK, now);
      if state == null {
        return Err(RetrievingPoolState);
      }
      var text := config.codec.text(addr);
      ghost var leased := StoredLeases(server.cm);
      assert leased == Leases(state.Value());
      var left := state.allocations.Keys;
      while left != {}
        invariant left <= state.allocations.Keys
        invariant forall id | id in leased && id !in left :: leased[id] != text
      {
        var id :| id in left;
        if state.allocations[id].ip == text {
          assert leased[id] == text;
          return Ok(Some(id));
        }
        left := left - {id};
      }
      return Ok(None);
    }

    method GetPoolStatus(readOK: bool, now: int) returns (r: Result<(nat, nat, nat), Error>)
      ensures r.Err? <==> !readOK
      ensures r.Ok? ==> var s := Current(config.pool, server.cm, now);
                        r.value == (|s.available| + |s.allocations|, |s.available|, |s.allocations|)
    {
      var state := GetCurrentState(readOK, now);
      if state == null {
        return Err(RetrievingPoolState);
      }
      var available, inUse := |state.available|, |state.allocations|;
      return Ok((available + inUse, available, inUse));
    }
  }

  lemma {:induction false} WithoutSnoc(pool: seq<string>, last: string, taken: set<string>)
    ensures Without(pool + [last], taken) == Without(pool, taken) + if last in taken then [] else [last]
  {
    if pool != [] {
      WithoutSnoc(pool[1..], last, taken);
      assert (pool + [last])[1..] == pool[1..] + [last];
    }
  }

  // ----- what the operations guarantee -----

  ghost predicate AllForeignPartition(pool: seq<string>, env: Env) {
    Partitions(pool, env.earlier) && Partitions(pool, env.meanwhile) && ForeignPartitions(pool, env.attempts)
  }

  /** Allocation, with any failures and any writes of well-behaved others, keeps the partition. */
  lemma AllocateRunKeepsPartition(config: Config, before: Option<ConfigMap>, id: string, pod: string, env: Env)
    requires NoDuplicates(config.pool) && StorePartitions(config.pool, before) && AllForeignPartition(config.pool, env)
    ensures StorePartitions(config.pool, AllocateRun(config, before, id, pod, env).0)
  {
    var store := AfterForeign(before, env.earlier);
    var s := Current(config.pool, store, env.now);
    EmptyIsPartition(config.pool, env.now);
    if env.nodeName.Some? && id !in s.allocations && s.available != [] {
      var next := Allocate(s, id, pod, env.nodeName.value, config.seed(id), env.now);
      AllocateKeepsPartition(config.pool, s, id, pod, env.nodeName.value, config.seed(id), env.now);
      UpdateKeepsPartition(config.pool, AfterForeign(store, env.meanwhile), next, env.attempts, 0);
    }
  }

  lemma DeallocateRunKeepsPartition(config: Config, before: Option<ConfigMap>, id: string, env: Env)
    requires NoDuplicates(config.pool) && StorePartitions(config.pool, before) && AllForeignPartition(config.pool, env)
    ensures StorePartitions(config.pool, DeallocateRun(config, before, id, env).0)
  {
    var store := AfterForeign(before, env.earlier);
    var s := Current(config.pool, store, env.now);
    EmptyIsPartition(config.pool, env.now);
    if id in s.allocations {
      DeallocateKeepsPartition(config.pool, s, id, env.now);
      UpdateKeepsPartition(config.pool, AfterForeign(store, env.meanwhile), Deallocate(s, id, env.now), env.attempts, 0);
    }
  }

  lemma RepairRunKeepsPartition(config: Config, before: Option<ConfigMap>, env: Env)
    requires NoDuplicates(config.pool) && StorePartitions(config.pool, before) && AllForeignPartition(config.pool, env)
    ensures StorePartitions(config.pool, RepairRun(config, before, env).0)
  {
    var store := AfterForeign(before, env.earlier);
    var s := Current(config.pool, store, env.now);
    EmptyIsPartition(config.pool, env.now);
    RepairKeepsPartition(config.pool, s, env.now);
    UpdateKeepsPartition(config.pool, AfterForeign(store, env.meanwhile), Repair(config.pool, s, env.now), env.attempts, 0);
  }

  lemma RecoverRunKeepsPartition(config: Config, before: Option<ConfigMap>, env: Env, repair: Env)
    requires NoDuplicates(config.pool) && StorePartitions(config.pool, before)
    requires AllForeignPartition(config.pool, env) && AllForeignPartition(config.pool, repair)
    ensures StorePartitions(config.pool, RecoverRun(config, before, env, repair).0)
  {
    var store := AfterForeign(before, env.earlier);
    EmptyIsPartition(config.pool, env.now);
    RepairRunKeepsPartition(config, store, repair);
    UpdateKeepsPartition(config.pool, AfterForeign(store, env.meanwhile), Empty(config.pool, env.now), env.attempts, 0);
  }

  /** No other manager writes during the operation. */
  ghost predicate Quiet(env: Env) {
    env.earlier.None? && env.meanwhile.None? && Undisturbed(env.attempts)
  }

  /** The operation failed because the answer to its write was lost. */
  predicate LostAnswer(err: Option<Error>, env: Env) {
    err == Some(NotUpdated(PutFailed)) && AttemptAt(env.attempts, 0).put.Lost?
  }

  function ErrorOf<T>(r: Result<T, Error>): Option<Error> {
    if r.Ok? then None else Some(r.error)
  }

  /** The leases after the ID is granted a free address. */
  ghost predicate Granted(config: Config, before: map<string, string>, after: map<string, string>, id: string) {
    && id !in before && id in after && after == before[id := after[id]]
    && after[id] in config.pool && after[id] !in before.Values
  }

  lemma NewStateIsNew(config: Config, store: Option<ConfigMap>, next: State, now: int)
    requires next.version == Current(config.pool, store, now).version + 1
    ensures Write(store, next) != store && StoredLeases(Write(store, next)) == Leases(next)
  {
  }

  lemma {:induction false} AllocationWrites(config: Config, store: Option<ConfigMap>, id: string, pod: string, env: Env)
    requires GoodConfig(config) && NoDuplicates(config.pool) && StorePartitions(config.pool, store) && Quiet(env)
    requires var s := Current(config.pool, store, env.now);
             env.readOK && id !in s.allocations && s.available != [] && env.nodeName.Some? && (config.skipReadiness || env.vmReady)
    ensures var (after, r) := AllocateRun(config, store, id, pod, env);
            && (if r.Ok? || LostAnswer(ErrorOf(r), env) then after != store && Granted(config, StoredLeases(store), StoredLeases(after), id) else after == store)
            && (r.Ok? ==> config.codec.parse(StoredLeases(after)[id]) == Some(r.value))
  {
    var s := Current(config.pool, store, env.now);
    EmptyIsPartition(config.pool, env.now);
    assert Leases(s) == StoredLeases(store);
    var seed := config.seed(id);
    var text := s.available[SelectIndex(|s.available|, seed)];
    assert text in s.available;
    var next := Allocate(s, id, pod, env.nodeName.value, seed, env.now);
    LeasesOfAllocate(s, id, pod, env.nodeName.value, seed, env.now);
    UndisturbedUpdate(store, next, env.attempts);
    NewStateIsNew(config, store, next, env.now);
  }

  /**
   An undisturbed allocation that succeeds returns the address that the pool now leases to the ID: the old
   one if there was one, otherwise a free one; nobody else's lease changes.  One that fails changes nothing
   if and only if no unanswered write landed; a landed one leaves a lease that its caller does not know of.
   */
  lemma AllocateRunGrantsOneLease(config: Config, store: Option<ConfigMap>, id: string, pod: string, env: Env)
    requires GoodConfig(config) && NoDuplicates(config.pool) && StorePartitions(config.pool, store) && Quiet(env)
    ensures var (after, r) := AllocateRun(config, store, id, pod, env);
            var before, now := StoredLeases(store), StoredLeases(after);
            match r
            case Err(e) =>
              && (after == store <==> !LostAnswer(Some(e), env))
              && (LostAnswer(Some(e), env) ==> Granted(config, before, now, id))
            case Ok(addr) =>
              && id in now && config.codec.parse(now[id]) == Some(addr)
              && (if id in before then after == store else Granted(config, before, now, id))
  {
    var s := Current(config.pool, store, env.now);
    EmptyIsPartition(config.pool, env.now);
    assert Leases(s) == StoredLeases(store);
    if id in s.allocations {
      assert Leases(s)[id] in Leases(s).Values;
    } else if env.readOK && s.available != [] && env.nodeName.Some? && (config.skipReadiness || env.vmReady) {
      AllocationWrites(config, store, id, pod, env);
    }
  }

  /** An undisturbed deallocation removes exactly the lease of the ID; one that fails, if and only if an unanswered write landed. */
  lemma DeallocateRunReleasesOneLease(config: Config, store: Option<ConfigMap>, id: string, env: Env)
    requires NoDuplicates(config.pool) && StorePartitions(config.pool, store) && Quiet(env)
    ensures var (after, err) := DeallocateRun(config, store, id, env);
            && (err.None? || LostAnswer(err, env) ==> StoredLeases(after) == StoredLeases(store) - {id})
            && (err.Some? ==> (after == store <==> !LostAnswer(err, env)))
            && ((err.None? || LostAnswer(err, env)) && id in StoredLeases(store) ==>
                  after.Some? && after.value.data == Some(Deallocate(Current(config.pool, store, env.now), id, env.now)))
  {
    var s := Current(config.pool, store, env.now);
    EmptyIsPartition(config.pool, env.now);
    assert Leases(s) == StoredLeases(store);
    if id in s.allocations {
      var next := Deallocate(s, id, env.now);
      DeallocateKeepsPartition(config.pool, s, id, env.now);
      UndisturbedUpdate(store, next, env.attempts);
      NewStateIsNew(config, store, next, env.now);
    } else {
      assert StoredLeases(store) - {id} == StoredLeases(store);
    }
  }

  /** The write of an undisturbed operation lands, whether or not its caller learns of it. */
  predicate Lands(env: Env) {
    AttemptAt(env.attempts, 0).getOK && !AttemptAt(env.attempts, 0).put.Refused?
  }

  predicate Answered(env: Env) {
    AttemptAt(env.attempts, 0).getOK && AttemptAt(env.attempts, 0).put.Acknowledged?
  }

  /** When an undisturbed allocation succeeds, and why it fails. */
  lemma AllocateRunSucceedsExactly(config: Config, store: Option<ConfigMap>, id: string, pod: string, env: Env)
    requires GoodConfig(config) && NoDuplicates(config.pool) && StorePartitions(config.pool, store) && Quiet(env)
    ensures var r := AllocateRun(config, store, id, pod, env).1;
            var leased, free := id in StoredLeases(store), Current(config.pool, store, env.now).available != [];
            var ready := config.skipReadiness || env.vmReady;
            && (r.Ok? <==> env.readOK && (leased || (free && ready && env.nodeName.Some? && Answered(env))))
            && (r == Err(RetrievingPoolState) <==> !env.readOK)
            && (r == Err(NoAvailableIPs) <==> env.readOK && !leased && !free)
            && (r == Err(NodeNameDetection) <==> env.readOK && !leased && free && ready && env.nodeName.None?)
            && (r.Err? && r.error.NotUpdated? <==> env.readOK && !leased && free && ready && env.nodeName.Some? && !Answered(env))
  {
    var s := Current(config.pool, store, env.now);
    EmptyIsPartition(config.pool, env.now);
    assert Leases(s) == StoredLeases(store);
    if id in s.allocations {
      assert Leases(s)[id] in Leases(s).Values;
    } else if env.readOK && s.available != [] && env.nodeName.Some? && (config.skipReadiness || env.vmReady) {
      var text := s.available[SelectIndex(|s.available|, config.seed(id))];
      assert text in s.available && text in config.pool;
      UndisturbedUpdate(store, Allocate(s, id, pod, env.nodeName.value, config.seed(id), env.now), env.attempts);
    }
  }

  /** What a landed allocation records: ID, address, node, pod and time of the new lease, and nothing else but version and time. */
  lemma AllocationIsRecorded(config: Config, store: Option<ConfigMap>, id: string, pod: string, env: Env)
    requires GoodConfig(config) && NoDuplicates(config.pool) && StorePartitions(config.pool, store) && Quiet(env)
    requires id !in StoredLeases(store) && AllocateRun(config, store, id, pod, env).0 != store
    ensures var s, after := Current(config.pool, store, env.now), AllocateRun(config, store, id, pod, env).0;
            && after.Some? && after.value.data.Some? && env.nodeName.Some? && id in StoredLeases(after)
            && var t := after.value.data.value;
              && t.allocations == s.allocations[id := IPAllocation(id, StoredLeases(after)[id], env.nodeName.value, pod, env.now)]
              && t.lastUpdated == env.now && t.version == s.version + 1
  {
    var s := Current(config.pool, store, env.now);
    assert Leases(s) == StoredLeases(store);
    if env.readOK && s.available != [] && env.nodeName.Some? && (config.skipReadiness || env.vmReady) {
      UndisturbedUpdate(store, Allocate(s, id, pod, env.nodeName.value, config.seed(id), env.now), env.attempts);
      LeasesOfAllocate(s, id, pod, env.nodeName.value, config.seed(id), env.now);
    }
  }

  lemma DeallocateRunSucceedsExactly(config: Config, store: Option<ConfigMap>, id: string, env: Env)
    requires Quiet(env)
    ensures var err := DeallocateRun(config, store, id, env).1;
            && (err.None? <==> env.readOK && (id in StoredLeases(store) ==> Answered(env)))
            && (err == Some(RetrievingPoolState) <==> !env.readOK)
  {
    var s := Current(config.pool, store, env.now);
    assert Leases(s) == StoredLeases(store);
    if id in s.allocations {
      UndisturbedUpdate(store, Deallocate(s, id, env.now), env.attempts);
    }
  }

  ghost predicate StoredWellFormed(store: Option<ConfigMap>) {
    store.Some? && store.value.data.Some? ==> WellFormed(store.value.data.value)
  }

  /** The stored state has every old allocation, and lists exactly the other configured addresses, in configured order. */
  ghost predicate Repaired(config: Config, store: Option<ConfigMap>, after: Option<ConfigMap>, now: int) {
    && after.Some? && after.value.data.Some?
    && var s, t := Current(config.pool, store, now), after.value.data.value;
      && t.allocations == s.allocations
      && (forall ip :: ip in t.available <==> ip in config.pool && ip !in StoredLeases(store).Values)
      && InOrderOf(t.available, config.pool) && NoDuplicates(t.available)
  }

  /**
   An undisturbed repair, from any well-formed state and any duplicate-free pool: no lease is ever lost, and
   the state is repaired if and only if its read succeeds and its write lands; otherwise nothing changes.
   */
  lemma RepairRunKeepsLeases(config: Config, store: Option<ConfigMap>, env: Env)
    requires NoDuplicates(config.pool) && StoredWellFormed(store) && Quiet(env)
    ensures var (after, err) := RepairRun(config, store, env);
            && StoredLeases(after) == StoredLeases(store)
            && (if env.readOK && Lands(env) then after != store && Repaired(config, store, after, env.now) else after == store)
            && (err.None? <==> env.readOK && Answered(env))
  {
    var s := Current(config.pool, store, env.now);
    var next := Repair(config.pool, s, env.now);
    assert Leases(s) == StoredLeases(store);
    RepairFromAnyConfiguration(config.pool, s, env.now);
    assert Leases(next) == Leases(s);
    UndisturbedUpdate(store, next, env.attempts);
    NewStateIsNew(config, store, next, env.now);
  }

  /**
   An undisturbed recovery.  After a successful read no lease is lost, and it does what a repair does.  After
   a failed read the leases are forgotten if and only if its write lands.
   */
  lemma RecoverRunForgetsExactly(config: Config, store: Option<ConfigMap>, env: Env, repair: Env)
    requires NoDuplicates(config.pool) && StoredWellFormed(store) && Quiet(env) && Quiet(repair)
    ensures var (after, err) := RecoverRun(config, store, env, repair);
            if env.nodeName.None? then after == store && err == Some(NodeNameDetection)
            else if env.readOK then
              && StoredLeases(after) == StoredLeases(store) && err.None?
              && (if repair.readOK && Lands(repair) then Repaired(config, store, after, repair.now) else after == store)
            else
              && (err.None? <==> Answered(env))
              && (if Lands(env) then Current(config.pool, after, env.now) == Empty(config.pool, env.now) else after == store)
              && (StoredLeases(after) == map[] <==> Lands(env) || StoredLeases(store) == map[])
  {
    RepairRunKeepsLeases(config, store, repair);
    UndisturbedUpdate(store, Empty(config.pool, env.now), env.attempts);
    assert Leases(Empty(config.pool, env.now)) == map[];
  }

  // ----- lookups -----

  function IPLookup(config: Config, store: Option<ConfigMap>, id: string, readOK: bool, now: int): Result<Option<Addr>, Error> {
    var s := Current(config.pool, store, now);
    if !readOK then Err(RetrievingPoolState)
    else if id !in s.allocations then Ok(None)
    else match config.codec.parse(s.allocations[id].ip)
      case None => Err(InvalidAllocatedIP(s.allocations[id].ip))
      case Some(a) => Ok(Some(a))
  }

  /** Any answer that the iteration order allows. */
  ghost predicate IDLookup(config: Config, store: Option<ConfigMap>, addr: Addr, answer: Option<string>) {
    var leased := StoredLeases(store);
    match answer
    case Some(id) => id in leased && leased[id] == config.codec.text(addr)
    case None => config.codec.text(addr) !in leased.Values
  }

  /**
   Looking up the ID of an address looked up by ID gives that ID back, in whatever order the
   allocations are visited, exactly when the leased text is the canonical form of its address.
   */
  lemma LookupsInvertExactly(config: Config, store: Option<ConfigMap>, id: string, now: int, answer: Option<string>)
    requires StorePartitions(config.pool, store) && IPLookup(config, store, id, true, now).Ok?
    requires IPLookup(config, store, id, true, now).value.Some?
    requires IDLookup(config, store, IPLookup(config, store, id, true, now).value.value, answer)
    ensures id in StoredLeases(store)
    ensures answer == Some(id) <==>
            config.codec.text(IPLookup(config, store, id, true, now).value.value) == StoredLeases(store)[id]
  {
    var leased := StoredLeases(store);
    assert leased[id] in leased.Values;
  }

  /**
   The pool of a running program comes from the parser of its flag, whose texts are canonical: then every
   lease is found by its ID, and by its address again, in whatever order the allocations are visited.
   */
  lemma ParsedPoolLookupsInvert(config: Config, maxRange: int, value: string, store: Option<ConfigMap>, id: string, now: int)
    requires Faithful(config.codec) && GoodConfig(config)
    requires PoolFlag.ParsePool(config.codec, maxRange, value) == Ok(config.pool)
    requires StorePartitions(config.pool, store) && id in StoredLeases(store)
    ensures IPLookup(config, store, id, true, now).Ok? && IPLookup(config, store, id, true, now).value.Some?
    ensures forall answer | IDLookup(config, store, IPLookup(config, store, id, true, now).value.value, answer) :: answer == Some(id)
  {
    var leased := StoredLeases(store);
    var text := leased[id];
    assert text in leased.Values;
    assert text in config.pool;
    PoolFlag.ParsedTextsArePrinted(config.codec, maxRange, value);
    var a :| Valid(a) && text == config.codec.text(a);
    assert FaithfulFor(config.codec, a);
    assert IPLookup(config, store, id, true, now) == Ok(Some(a));
    forall answer | IDLookup(config, store, a, answer) ensures answer == Some(id) {
      LookupsInvertExactly(config, store, id, now, answer);
    }
  }

  lemma StatusTotalIsPoolSize(config: Config, store: Option<ConfigMap>, now: int)
    requires NoDuplicates(config.pool) && StorePartitions(config.pool, store)
    ensures var s := Current(config.pool, store, now);
            |s.available| + |s.allocations| == |config.pool|
  {
    EmptyIsPartition(config.pool, now);
    PartitionCount(config.pool, Current(config.pool, store, now));
  }

  // ----- the provider -----

  /** Outcomes of the steps of `CreateInstance` after allocation, and of the rollback. */
  datatype Setup = Setup(configOK: bool, sendOK: bool, rollback: Env)

  class Provider {
    const pool: Manager

    constructor (pool: Manager)
      ensures this.pool == pool
    {
      this.pool := pool;
    }

    method CreateInstance(podName: string, sandboxID: string, env: Env, setup: Setup) returns (r: Result<Addr, Error>)
      modifies pool.server
      ensures (pool.server.cm, r) == CreateRun(pool.config, old(pool.server.cm), AllocationID(podName, sandboxID), podName, env, setup)
    {
      var id := podName + "-" + sandboxID;
      r := pool.AllocateIP(id, podName, env);
      if r.Err? {
        return;
      }
      if !setup.configOK {
        var _ := pool.DeallocateIP(id, setup.rollback);
        return Err(ConfigFailed);
      }
      if !setup.sendOK {
        var _ := pool.DeallocateIP(id, setup.rollback);
        return Err(SendFailed(r.value));
      }
    }

    method DeleteInstance(instanceID: string, readOK: bool, env: Env) returns (err: Option<Error>)
      modifies pool.server
      ensures instanceID == "" ==> err.None? && pool.server.cm == old(pool.server.cm)
      ensures instanceID != "" ==>
                match pool.config.codec.parse(instanceID)
                case None => err == Some(InvalidInstanceID(instanceID)) && pool.server.cm == old(pool.server.cm)
                case Some(addr) =>
                  if !readOK then err == Some(RetrievingPoolState) && pool.server.cm == old(pool.server.cm)
                  else exists answer ::
                    && IDLookup(pool.config, old(pool.server.cm), addr, answer)
                    && (pool.server.cm, err) ==
                       if answer.None? then (old(pool.server.cm), None)
                       else DeallocateRun(pool.config, old(pool.server.cm), answer.value, env)
    {
      if instanceID == "" {
        return None;
      }
      var addr := pool.config.codec.parse(instanceID);
      if addr.None? {
        return Some(InvalidInstanceID(instanceID));
      }
      var found := pool.GetAllocationIDfromIP(addr.value, readOK, env.now);
      if found.Err? {
        return Some(RetrievingPoolState);
      }
      assert IDLookup(pool.config, pool.server.cm, addr.value, found.value);
      if found.value.None? {
        return None;
      }
      err := pool.DeallocateIP(found.value.value, env);
    }
  }

  function CreateRun(config: Config, store: Option<ConfigMap>, id: string, pod: string, env: Env, setup: Setup)
    : (Option<ConfigMap>, Result<Addr, Error>)
  {
    var (after, r) := AllocateRun(config, store, id, pod, env);
    if r.Err? then (after, r)
    else if !setup.configOK then (DeallocateRun(config, after, id, setup.rollback).0, Err(ConfigFailed))
    else if !setup.sendOK then (DeallocateRun(config, after, id, setup.rollback).0, Err(SendFailed(r.value)))
    else (after, r)
  }

  /**
   An undisturbed creation succeeds if and only if its allocation, its configuration and its sending do.  Then
   the ID is leased, to the returned address: as before, or newly and with no other lease changed.
   */
  lemma CreateRunSucceedsExactly(config: Config, store: Option<ConfigMap>, id: string, pod: string, env: Env, setup: Setup)
    requires GoodConfig(config) && NoDuplicates(config.pool) && StorePartitions(config.pool, store) && Quiet(env)
    ensures var (after, r) := CreateRun(config, store, id, pod, env, setup);
            var granted := AllocateRun(config, store, id, pod, env).1;
            && (r.Ok? <==> granted.Ok? && setup.configOK && setup.sendOK)
            && (granted.Err? ==> r == granted)
            && (granted.Ok? && !setup.configOK ==> r == Err(ConfigFailed))
            && (granted.Ok? && setup.configOK && !setup.sendOK ==> r == Err(SendFailed(granted.value)))
            && (r.Ok? ==>
                  && r == granted && id in StoredLeases(after) && config.codec.parse(StoredLeases(after)[id]) == Some(r.value)
                  && (if id in StoredLeases(store) then after == store else Granted(config, StoredLeases(store), StoredLeases(after), id)))
  {
    AllocateRunGrantsOneLease(config, store, id, pod, env);
  }

  /**
   The instance ID of a created instance is the text of its address: with the pool that the flag parser
   returns, deleting by it finds the allocation ID, and an acknowledged release restores the leases.
   */
  lemma CreateThenDeleteRestores(config: Config, maxRange: int, value: string, store: Option<ConfigMap>,
                                 id: string, pod: string, env: Env, setup: Setup, later: Env, answer: Option<string>)
    requires Faithful(config.codec) && GoodConfig(config) && NoDuplicates(config.pool) && StorePartitions(config.pool, store)
    requires PoolFlag.ParsePool(config.codec, maxRange, value) == Ok(config.pool)
    requires Quiet(env) && Quiet(later) && id !in StoredLeases(store) && CreateRun(config, store, id, pod, env, setup).1.Ok?
    requires var (after, r) := CreateRun(config, store, id, pod, env, setup);
             var parsed := config.codec.parse(config.codec.text(r.value));
             parsed.Some? ==> IDLookup(config, after, parsed.value, answer)
    ensures var addr := CreateRun(config, store, id, pod, env, setup).1.value;
            config.codec.parse(config.codec.text(addr)) == Some(addr)
    ensures answer == Some(id)
    ensures var after := CreateRun(config, store, id, pod, env, setup).0;
            later.readOK && Answered(later) ==>
              DeallocateRun(config, after, id, later).1.None? && StoredLeases(DeallocateRun(config, after, id, later).0) == StoredLeases(store)
  {
    var (after, r) := CreateRun(config, store, id, pod, env, setup);
    CreateRunSucceedsExactly(config, store, id, pod, env, setup);
    AllocateRunKeepsPartition(config, store, id, pod, env);
    assert StoredLeases(after)[id] in StoredLeases(after).Values;
    assert Valid(r.value) && FaithfulFor(config.codec, r.value);
    ParsedPoolLookupsInvert(config, maxRange, value, after, id, env.now);
    assert IPLookup(config, after, id, true, env.now) == Ok(Some(r.value));
    DeallocateRunReleasesOneLease(config, after, id, later);
    DeallocateRunSucceedsExactly(config, after, id, later);
    assert StoredLeases(after) - {id} == StoredLeases(store);
  }

  /** The allocation ID of a sandbox. */
  function AllocationID(podName: string, sandboxID: string): string {
    podName + "-" + sandboxID
  }

  /** Sandbox IDs are hexadecimal: then different sandboxes have different allocation IDs. */
  lemma {:induction false} AllocationIDsDiffer(pod: string, sandbox: string, pod2: string, sandbox2: string)
    requires '-' !in sandbox && '-' !in sandbox2 && AllocationID(pod, sandbox) == AllocationID(pod2, sandbox2)
    ensures pod == pod2 && sandbox == sandbox2
  {
    var s := AllocationID(pod, sandbox);
    assert s[|pod|] == '-' && s[|pod2|] == '-';
    assert forall i | |pod| < i < |s| :: s[i] == sandbox[i - |pod| - 1] && s[i] in sandbox;
    assert forall i | |pod2| < i < |s| :: s[i] == sandbox2[i - |pod2| - 1] && s[i] in sandbox2;
    assert |pod| == |pod2|;
    assert s[..|pod|] == pod && s[..|pod2|] == pod2 && s[|pod| + 1..] == sandbox && s[|pod2| + 1..] == sandbox2;
  }

  /** Releasing the lease just granted leaves the same free machines, whatever the order. */
  lemma AllocateDeallocateRestores(s: State, id: string, pod: string, node: string, seed: nat, now: int, later: int)
    requires s.available != [] && id !in s.allocations
    ensures var t := Deallocate(Allocate(s, id, pod, node, seed, now), id, later);
            multiset(t.available) == multiset(s.available) && t.allocations == s.allocations
  {
    CutAndAppend(s.available, SelectIndex(|s.available|, seed));
    assert s.allocations[id := IPAllocation(id, "", node, pod, now)] - {id} == s.allocations;
  }

  lemma CutAndAppend(a: seq<string>, i: nat)
    requires i < |a|
    ensures multiset(a[..i] + a[i + 1..] + [a[i]]) == multiset(a)
  {
    assert a == a[..i] + [a[i]] + a[i + 1..];
  }

  /** Leases and the multiset of free machines are the same. */
  ghost predicate SamePool(config: Config, before: Option<ConfigMap>, after: Option<ConfigMap>, now: int) {
    var s, t := Current(config.pool, before, now), Current(config.pool, after, now);
    multiset(t.available) == multiset(s.available) && t.allocations == s.allocations
  }

  /** What a successful allocation of an unleased ID stores. */
  lemma {:induction false} AllocationStores(config: Config, store: Option<ConfigMap>, id: string, pod: string, env: Env)
    requires Quiet(env) && id !in StoredLeases(store) && AllocateRun(config, store, id, pod, env).1.Ok?
    ensures var s, after := Current(config.pool, store, env.now), AllocateRun(config, store, id, pod, env).0;
            && s.available != [] && id !in s.allocations && env.nodeName.Some?
            && after.Some? && after.value.data == Some(Allocate(s, id, pod, env.nodeName.value, config.seed(id), env.now))
  {
    var s := Current(config.pool, store, env.now);
    assert Leases(s) == StoredLeases(store);
    UndisturbedUpdate(store, Allocate(s, id, pod, env.nodeName.value, config.seed(id), env.now), env.attempts);
  }

  lemma {:induction false} RollbackRestores(config: Config, store: Option<ConfigMap>, id: string, pod: string, env: Env, rollback: Env, now: int)
    requires GoodConfig(config) && NoDuplicates(config.pool) && StorePartitions(config.pool, store)
    requires Quiet(env) && Quiet(rollback) && id !in StoredLeases(store) && AllocateRun(config, store, id, pod, env).1.Ok?
    ensures var mid := AllocateRun(config, store, id, pod, env).0;
            var (after, err) := DeallocateRun(config, mid, id, rollback);
            SamePool(config, store, after, now) <==> err.None? || LostAnswer(err, rollback)
  {
    var s := Current(config.pool, store, env.now);
    var mid := AllocateRun(config, store, id, pod, env).0;
    var (after, err) := DeallocateRun(config, mid, id, rollback);
    AllocationStores(config, store, id, pod, env);
    AllocateRunKeepsPartition(config, store, id, pod, env);
    DeallocateRunReleasesOneLease(config, mid, id, rollback);
    assert id in StoredLeases(mid) && id !in Current(config.pool, store, now).allocations;
    if err.None? || LostAnswer(err, rollback) {
      AllocateDeallocateRestores(s, id, pod, env.nodeName.value, config.seed(id), env.now, rollback.now);
    } else {
      assert after == mid;
    }
  }

  /** An allocation of an unleased ID gets as far as its first write. */
  predicate WritesLease(config: Config, store: Option<ConfigMap>, env: Env) {
    && env.readOK && Current(config.pool, store, env.now).available != []
    && (config.skipReadiness || env.vmReady) && env.nodeName.Some? && AttemptAt(env.attempts, 0).getOK
  }

  lemma AllocationOutcome(config: Config, store: Option<ConfigMap>, id: string, pod: string, env: Env)
    requires GoodConfig(config) && NoDuplicates(config.pool) && StorePartitions(config.pool, store)
    requires Quiet(env) && id !in StoredLeases(store)
    ensures var r := AllocateRun(config, store, id, pod, env).1;
            && (r.Ok? <==> WritesLease(config, store, env) && AttemptAt(env.attempts, 0).put.Acknowledged?)
            && (LostAnswer(ErrorOf(r), env) <==> WritesLease(config, store, env) && AttemptAt(env.attempts, 0).put.Lost?)
  {
    var s := Current(config.pool, store, env.now);
    EmptyIsPartition(config.pool, env.now);
    assert Leases(s) == StoredLeases(store);
    if env.readOK && s.available != [] && env.nodeName.Some? && (config.skipReadiness || env.vmReady) {
      var text := s.available[SelectIndex(|s.available|, config.seed(id))];
      assert text in s.available && text in config.pool;
      UndisturbedUpdate(store, Allocate(s, id, pod, env.nodeName.value, config.seed(id), env.now), env.attempts);
    }
  }

  lemma DeallocationOutcome(config: Config, store: Option<ConfigMap>, id: string, env: Env)
    requires Quiet(env) && id in StoredLeases(store)
    ensures var err := DeallocateRun(config, store, id, env).1;
            err.None? || LostAnswer(err, env) <==> env.readOK && AttemptAt(env.attempts, 0).getOK && !AttemptAt(env.attempts, 0).put.Refused?
  {
    var s := Current(config.pool, store, env.now);
    assert id in Leases(s);
    UndisturbedUpdate(store, Deallocate(s, id, env.now), env.attempts);
  }

  /**
   Whether a failed creation leaves nothing behind, from its circumstances: if the write of the allocation is
   acknowledged, the write of the rollback must land; if it is not, it must not land.
   */
  predicate CleansUp(config: Config, store: Option<ConfigMap>, env: Env, rollback: Env) {
    WritesLease(config, store, env) ==>
      match AttemptAt(env.attempts, 0).put
      case Acknowledged => rollback.readOK && AttemptAt(rollback.attempts, 0).getOK && !AttemptAt(rollback.attempts, 0).put.Refused?
      case Lost => false
      case Refused => true
  }

  /**
   A failed, undisturbed creation for an ID that held no machine leaves every lease and the multiset of
   free machines as they were if and only if the write of its allocation was refused or never made, or was
   acknowledged and the write of its rollback landed.
   */
  lemma FailedCreateRestoresPoolExactly(config: Config, store: Option<ConfigMap>, id: string, pod: string, env: Env, setup: Setup, now: int)
    requires GoodConfig(config) && NoDuplicates(config.pool) && StorePartitions(config.pool, store)
    requires Quiet(env) && Quiet(setup.rollback) && id !in StoredLeases(store)
    requires CreateRun(config, store, id, pod, env, setup).1.Err?
    ensures SamePool(config, store, CreateRun(config, store, id, pod, env, setup).0, now) <==> CleansUp(config, store, env, setup.rollback)
  {
    var (mid, r) := AllocateRun(config, store, id, pod, env);
    AllocateRunGrantsOneLease(config, store, id, pod, env);
    AllocationOutcome(config, store, id, pod, env);
    if r.Ok? {
      RollbackRestores(config, store, id, pod, env, setup.rollback, now);
      DeallocationOutcome(config, mid, id, setup.rollback);
    } else if LostAnswer(ErrorOf(r), env) {
      assert id in Leases(Current(config.pool, mid, now));
    }
  }

  /** The failing case at an input: the answer to the first write ever is lost, and the creation fails with its lease stored. */
  lemma LostAnswerLeaksLease(config: Config, id: string, pod: string, setup: Setup)
    requires config.pool != []
    ensures var env := Env(true, true, Some("node"), 0, None, None, [Attempt(true, None, Lost)]);
            var (after, r) := CreateRun(config, None, id, pod, env, setup);
            r == Err(NotUpdated(PutFailed)) && id in StoredLeases(after)
  {
    var s := Empty(config.pool, 0);
    LeasesOfAllocate(s, id, pod, "node", config.seed(id), 0);
  }

  /** Deleting the instance of a lease, named by its address, releases that lease and no other. */
  lemma DeleteReleasesItsLease(config: Config, store: Option<ConfigMap>, id: string, answer: Option<string>, env: Env)
    requires NoDuplicates(config.pool) && StorePartitions(config.pool, store) && Quiet(env)
    requires id in StoredLeases(store) && config.codec.parse(StoredLeases(store)[id]).Some?
    requires var addr := config.codec.parse(StoredLeases(store)[id]).value;
             && config.codec.text(addr) == StoredLeases(store)[id]
             && IDLookup(config, store, addr, answer)
    ensures answer == Some(id)
    ensures var (after, err) := DeallocateRun(config, store, answer.value, env);
            err.None? ==> StoredLeases(after) == StoredLeases(store) - {id}
  {
    var leased := StoredLeases(store);
    assert leased[id] in leased.Values;
    DeallocateRunReleasesOneLease(config, store, id, env);
  }
}
