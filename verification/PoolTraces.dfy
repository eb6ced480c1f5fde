/** Runs of the pool protocol that end with one machine in use twice, and what each of them breaks. */
module PoolTraces {
  import opened Results
  import opened PoolStates
  import opened PoolProtocol

  /** Which hypotheses every step of a run obeys. */
  datatype Kind = Kind(current: bool, sequenced: bool)

  ghost predicate Obeys(kind: Kind, s: System, step: Step)
    requires Enabled(s, step)
  {
    (kind.current ==> Fresh(s, step)) && (kind.sequenced ==> Sequenced(s, step))
  }

  ghost predicate ObeysAll(kind: Kind, pool: seq<string>, s: System, steps: seq<Step>)
    requires Possible(pool, s, steps)
    decreases |steps|
  {
    steps == [] || (Obeys(kind, s, steps[0]) && ObeysAll(kind, pool, Apply(pool, s, steps[0]), steps[1..]))
  }

  ghost predicate LeadsTo(kind: Kind, pool: seq<string>, s: System, steps: seq<Step>, t: System) {
    Possible(pool, s, steps) && ObeysAll(kind, pool, s, steps) && Run(pool, s, steps) == t
  }

  /** Some run of this kind leads from `s` to `t`. */
  ghost predicate Reaches(kind: Kind, pool: seq<string>, s: System, t: System) {
    exists steps :: LeadsTo(kind, pool, s, steps, t)
  }

  lemma {:induction false} OneMore(kind: Kind, pool: seq<string>, s: System, steps: seq<Step>, t: System, last: Step)
    requires LeadsTo(kind, pool, s, steps, t) && Enabled(t, last) && Obeys(kind, t, last)
    ensures LeadsTo(kind, pool, s, steps + [last], Apply(pool, t, last))
    decreases |steps|
  {
    if steps == [] {
      assert ([] + [last])[1..] == [];
    } else {
      OneMore(kind, pool, Apply(pool, s, steps[0]), steps[1..], t, last);
      assert (steps + [last])[1..] == steps[1..] + [last];
    }
  }

  lemma Next(kind: Kind, pool: seq<string>, s: System, t: System, step: Step) returns (u: System)
    requires Reaches(kind, pool, s, t) && Enabled(t, step) && Obeys(kind, t, step)
    ensures Reaches(kind, pool, s, u) && u == Apply(pool, t, step)
  {
    var steps :| LeadsTo(kind, pool, s, steps, t);
    u := Apply(pool, t, step);
    OneMore(kind, pool, s, steps, t, step);
  }

  lemma ReachesSelf(kind: Kind, pool: seq<string>, s: System)
    ensures Reaches(kind, pool, s, s)
  {
    assert LeadsTo(kind, pool, s, [], s);
  }

  /** Two allocation IDs use one address. */
  ghost predicate Shared(t: System) {
    exists a, b :: a in t.held && b in t.held && a != b && t.held[a] == t.held[b]
  }

  predicate NobodyBusy(t: System, id: string) {
    forall m | m in t.managers :: !Busy(t.managers[m], id)
  }

  // ----- the phases of an allocation -----

  /** The address is free, and the ID has no lease. */
  predicate CanLease(pool: seq<string>, t: System, id: string, ip: string) {
    id !in Current(pool, t.store, 0).allocations && ip in Current(pool, t.store, 0).available
  }

  /** Manager `m` has computed a lease of `ip` for `id` from the current version. */
  ghost predicate Leasing(pool: seq<string>, t: System, mgr: Manager, id: string, ip: string) {
    && mgr.Computed? && mgr.op == Alloc(id, "pod")
    && mgr.basis == Snapshot(Version(t.store), Current(pool, t.store, 0))
    && id in mgr.next.allocations && mgr.next.allocations[id].ip == ip
    && Leases(mgr.next) == StoredLeases(t.store)[id := ip]
  }

  lemma Computes(kind: Kind, pool: seq<string>, s: System, t: System, m: nat, id: string, ip: string) returns (u: System)
    requires Reaches(kind, pool, s, t) && m in t.managers && t.managers[m].Idle? && CanLease(pool, t, id, ip)
    requires kind.sequenced ==> NobodyBusy(t, id)
    ensures Reaches(kind, pool, s, u) && u.store == t.store && u.held == t.held && u.late == t.late
    ensures m in u.managers && u.managers == t.managers[m := u.managers[m]] && Leasing(pool, t, u.managers[m], id, ip)
  {
    var cur := Current(pool, t.store, 0);
    var i :| 0 <= i < |cur.available| && cur.available[i] == ip;
    assert SelectIndex(|cur.available|, i) == i;
    u := Next(kind, pool, s, t, Call(m, Alloc(id, "pod")));
    u := Next(kind, pool, s, u, Read(m, i, "node", 0));
    LeasesOfAllocate(cur, id, "pod", "node", i, 0);
    assert u.managers == t.managers[m := u.managers[m]];
  }

  /** Fetch and commit, with nothing in between. */
  lemma Stores(kind: Kind, pool: seq<string>, s: System, t: System, m: nat) returns (u: System)
    requires Reaches(kind, pool, s, t) && m in t.managers && t.managers[m].Computed?
    requires kind.current ==> t.managers[m].basis.Snapshot? && t.managers[m].basis.rv == Version(t.store)
    ensures Reaches(kind, pool, s, u) && u.managers == t.managers[m := Idle] && u.late == t.late
    ensures u.store == Write(t.store, t.managers[m].next)
    ensures u.held == if t.managers[m].op.Alloc? && t.managers[m].op.id in t.managers[m].next.allocations
                      then t.held[t.managers[m].op.id := t.managers[m].next.allocations[t.managers[m].op.id].ip] else t.held
  {
    u := Next(kind, pool, s, t, Fetch(m));
    u := Next(kind, pool, s, u, Commit(m, true));
    assert u.managers == t.managers[m := Idle];
  }

  /** A whole allocation that nobody disturbs. */
  lemma Allocates(kind: Kind, pool: seq<string>, s: System, t: System, m: nat, id: string, ip: string) returns (u: System)
    requires Reaches(kind, pool, s, t) && m in t.managers && t.managers[m].Idle? && CanLease(pool, t, id, ip)
    requires kind.sequenced ==> NobodyBusy(t, id)
    ensures Reaches(kind, pool, s, u) && u.managers == t.managers && u.held == t.held[id := ip] && u.late == t.late
    ensures StoredLeases(u.store) == StoredLeases(t.store)[id := ip]
  {
    var v := Computes(kind, pool, s, t, m, id, ip);
    u := Stores(kind, pool, s, v, m);
    assert u.managers == t.managers;
  }

  // ----- an address that is in use but not leased can be leased again -----

  lemma AllGiveUp(kind: Kind, pool: seq<string>, s: System, t: System, left: set<nat>) returns (u: System)
    requires Reaches(kind, pool, s, t) && left <= t.managers.Keys
    requires forall m | m in t.managers :: t.managers[m].Idle? || m in left
    ensures Reaches(kind, pool, s, u) && u.store == t.store && u.held == t.held && u.managers.Keys == t.managers.Keys
    ensures forall m | m in u.managers :: u.managers[m].Idle?
    decreases |left|
  {
    u := t;
    if left != {} {
      var m :| m in left;
      if !t.managers[m].Idle? {
        u := Next(kind, pool, s, t, GiveUp(m));
      }
      u := AllGiveUp(kind, pool, s, u, left - {m});
    }
  }

  /** When all calls have come to rest, an address in use that is not leased to its user is given to a second one. */
  lemma LostAddressIsGivenAgain(kind: Kind, pool: seq<string>, s: System, t: System, m: nat, id: string, stranger: string) returns (u: System)
    requires Reaches(kind, pool, s, t) && StorePartitions(pool, t.store) && NoDuplicates(pool)
    requires m in t.managers && forall n | n in t.managers :: t.managers[n].Idle?
    requires id in t.held && t.held[id] in pool && stranger != id && stranger !in StoredLeases(t.store)
    requires id in StoredLeases(t.store) ==> StoredLeases(t.store)[id] != t.held[id]
    ensures Reaches(kind, pool, s, u) && Shared(u)
  {
    var ip := t.held[id];
    var cur := Current(pool, t.store, 0);
    EmptyIsPartition(pool, 0);
    assert Leases(cur) == StoredLeases(t.store);
    if ip in cur.available {
      u := Allocates(kind, pool, s, t, m, stranger, ip);
      assert u.held[id] == u.held[stranger];
    } else {
      assert ip in Leases(cur).Values;
      var other :| other in Leases(cur) && Leases(cur)[other] == ip;
      u := Next(kind, pool, s, t, Call(m, Alloc(other, "pod")));
      u := Next(kind, pool, s, u, Read(m, 0, "node", 0));
      assert u.held[id] == u.held[other];
    }
  }

  lemma HeldAreInPool(pool: seq<string>, s: System, step: Step)
    requires NoDuplicates(pool) && Tracked(pool, s) && HeldAreStored(s) && Enabled(s, step) && Writes(step)
    ensures forall id | id in Apply(pool, s, step).held :: Apply(pool, s, step).held[id] in pool
  {
    var put := Written(s, step);
    assert PendingPartitions(pool, put);
    forall id | id in StoredLeases(s.store) ensures StoredLeases(s.store)[id] in pool {
      assert StoredLeases(s.store)[id] in StoredLeases(s.store).Values;
    }
    if put.op.Alloc? && put.op.id in put.next.allocations {
      assert Leases(put.next)[put.op.id] in Leases(put.next).Values;
    }
  }

  /**
   The condition of `UseStaysLeasedExactly` is the one on which sharing depends: after any write that does
   not spare an address in use, some further run, of sequenced calls and fresh commits, gives that address
   to a second user.
   */
  lemma UnsparedAddressCanBeShared(pool: seq<string>, s: System, steps: seq<Step>, step: Step, stranger: string)
    requires NoDuplicates(pool) && Initial(pool, s) && Possible(pool, s, steps) && AllSpareHeld(pool, s, steps)
    requires Enabled(Run(pool, s, steps), step) && !SparesHeld(Run(pool, s, steps), step)
    requires var t := Apply(pool, Run(pool, s, steps), step); stranger !in t.held && stranger !in StoredLeases(t.store)
    ensures var t := Apply(pool, Run(pool, s, steps), step);
            exists u :: Reaches(Kind(true, true), pool, t, u) && Shared(u)
  {
    var r := Run(pool, s, steps);
    var t := Apply(pool, r, step);
    RunKeepsTracked(pool, s, steps);
    RunStaysLeasedExactly(pool, s, steps);
    WriteKeepsHeldExactly(pool, r, step);
    HeldAreInPool(pool, r, step);
    StepKeepsTracked(pool, r, step);
    ReachesSelf(Kind(true, true), pool, t);
    var id :| id in t.held && (id in StoredLeases(t.store) ==> StoredLeases(t.store)[id] != t.held[id]);
    var u := AllGiveUp(Kind(true, true), pool, t, t, t.managers.Keys);
    var v := LostAddressIsGivenAgain(Kind(true, true), pool, t, u, step.m, id, stranger);
  }

  // ----- each hypothesis is needed -----

  /** One machine, leased to nobody, under idle managers. */
  function OneMachine(ip: string, managers: set<nat>): System {
    System(Some(ConfigMap(Some(Empty([ip], 0)), 1)), map m | m in managers :: Idle, map[], [])
  }

  lemma OneMachineIsInitial(ip: string, managers: set<nat>)
    ensures Initial([ip], OneMachine(ip, managers))
  {
    EmptyIsPartition([ip], 0);
  }

  /** Both managers have computed a lease of the free machine and fetched the same version. */
  ghost predicate Racing(t: System, ip: string, a: string, b: string) {
    && t.managers.Keys == {0, 1} && t.held == map[] && t.store == OneMachine(ip, {0, 1}).store
    && t.managers[0].Fetched? && t.managers[0].op == Alloc(a, "pod") && t.managers[0].version == Some(1)
    && a in t.managers[0].next.allocations && t.managers[0].next.allocations[a].ip == ip
    && t.managers[1].Fetched? && t.managers[1].op == Alloc(b, "pod") && t.managers[1].version == Some(1)
    && b in t.managers[1].next.allocations && t.managers[1].next.allocations[b].ip == ip
  }

  lemma RaceIsOn(ip: string, a: string, b: string) returns (t: System)
    requires a != b
    ensures Reaches(Kind(false, true), [ip], OneMachine(ip, {0, 1}), t) && Racing(t, ip, a, b)
  {
    var kind, s := Kind(false, true), OneMachine(ip, {0, 1});
    ReachesSelf(kind, [ip], s);
    t := Computes(kind, [ip], s, s, 0, a, ip);
    t := Computes(kind, [ip], s, t, 1, b, ip);
    t := Next(kind, [ip], s, t, Fetch(0));
    t := Next(kind, [ip], s, t, Fetch(1));
  }

  /**
   Without fresh snapshots: two managers read the same free machine, the second write hits a version
   conflict, fetches the new version and writes its old computation over it, and both callers end up with
   the machine.
   */
  lemma RacingManagersShareMachine(ip: string, a: string, b: string) returns (t: System)
    requires a != b
    ensures Initial([ip], OneMachine(ip, {0, 1}))
    ensures Reaches(Kind(false, true), [ip], OneMachine(ip, {0, 1}), t) && t.held == map[a := ip, b := ip]
  {
    var kind, s := Kind(false, true), OneMachine(ip, {0, 1});
    OneMachineIsInitial(ip, {0, 1});
    t := RaceIsOn(ip, a, b);
    t := Next(kind, [ip], s, t, Commit(0, true));
    t := Next(kind, [ip], s, t, Conflict(1));
    t := Stores(kind, [ip], s, t, 1);
  }

  /** A recovery whose first read fails replaces whatever is stored by the empty state. */
  lemma Forgets(kind: Kind, pool: seq<string>, s: System, t: System) returns (u: System)
    requires Reaches(kind, pool, s, t) && 0 in t.managers && t.managers[0].Idle? && !kind.current
    ensures Reaches(kind, pool, s, u) && u.managers == t.managers && u.held == t.held
    ensures u.store == Write(t.store, Empty(pool, 0))
  {
    u := Next(kind, pool, s, t, Call(0, Recover));
    u := Next(kind, pool, s, u, ReadFails(0, 0));
    u := Stores(kind, pool, s, u, 0);
    assert u.managers == t.managers;
  }

  /**
   Without `NeverForgets`, even for one manager: a recovery that cannot read the ConfigMap overwrites it,
   and a machine in use is leased again.
   */
  lemma ForgettingManagerSharesMachine(ip: string, a: string, b: string) returns (t: System)
    requires a != b
    ensures Initial([ip], OneMachine(ip, {0}))
    ensures Reaches(Kind(false, true), [ip], OneMachine(ip, {0}), t) && t.held == map[a := ip, b := ip]
  {
    var kind, s := Kind(false, true), OneMachine(ip, {0});
    OneMachineIsInitial(ip, {0});
    ReachesSelf(kind, [ip], s);
    t := Allocates(kind, [ip], s, s, 0, a, ip);
    t := Forgets(kind, [ip], s, t);
    t := Allocates(kind, [ip], s, t, 0, b, ip);
  }

  /** Manager 0 has computed, from the current version, the release of the only machine from `a`. */
  ghost predicate Releasing(t: System, ip: string, a: string) {
    && 0 in t.managers && t.store.Some? && t.managers[0].Computed? && t.managers[0].op == Dealloc(a)
    && t.managers[0].basis.Snapshot? && t.managers[0].basis.rv == Version(t.store)
    && t.managers[0].next.allocations == map[] && ip in t.managers[0].next.available
    && StoredLeases(t.store) == map[a := ip]
  }

  lemma ReleaseComputed(managers: set<nat>, ip: string, a: string) returns (t: System)
    requires 0 in managers
    ensures Reaches(Kind(true, false), [ip], OneMachine(ip, managers), t) && t.late == [] && t.held == map[]
    ensures t.managers.Keys == managers && Releasing(t, ip, a) && forall m | m in managers && m != 0 :: t.managers[m].Idle?
  {
    var kind, s := Kind(true, false), OneMachine(ip, managers);
    ReachesSelf(kind, [ip], s);
    t := Allocates(kind, [ip], s, s, 0, a, ip);
    t := Next(kind, [ip], s, t, Call(0, Dealloc(a)));
    t := Next(kind, [ip], s, t, Read(0, 0, "node", 0));
  }

  /**
   Without sequenced calls, although every commit is fresh: while one manager releases the machine of an ID,
   another answers an allocation of that ID with it; then the machine is leased to somebody else.
   */
  lemma OverlappingCallsShareMachine(ip: string, a: string, b: string) returns (t: System)
    requires a != b
    ensures Initial([ip], OneMachine(ip, {0, 1}))
    ensures Reaches(Kind(true, false), [ip], OneMachine(ip, {0, 1}), t) && t.held == map[a := ip, b := ip]
  {
    var kind, s := Kind(true, false), OneMachine(ip, {0, 1});
    OneMachineIsInitial(ip, {0, 1});
    t := ReleaseComputed({0, 1}, ip, a);
    t := Next(kind, [ip], s, t, Call(1, Alloc(a, "pod")));
    t := Next(kind, [ip], s, t, Read(1, 0, "node", 0));
    t := Stores(kind, [ip], s, t, 0);
    t := Allocates(kind, [ip], s, t, 1, b, ip);
  }

  /** The release of an ID was given up with its write on its way, and then the ID was allocated again. */
  ghost predicate OnItsWay(t: System, ip: string, a: string) {
    && t.managers.Keys == {0} && t.managers[0].Idle? && t.held == map[a := ip] && t.store.Some?
    && |t.late| == 1 && t.late[0].m == 0 && t.late[0].put.Fetched? && t.late[0].put.op == Dealloc(a)
    && t.late[0].put.version == Version(t.store)
    && t.late[0].put.basis.Snapshot? && t.late[0].put.basis.rv == Version(t.store)
    && t.late[0].put.next.allocations == map[] && ip in t.late[0].put.next.available
  }

  lemma WriteIsOnItsWay(ip: string, a: string) returns (t: System)
    ensures Reaches(Kind(true, false), [ip], OneMachine(ip, {0}), t) && OnItsWay(t, ip, a)
  {
    var kind, s := Kind(true, false), OneMachine(ip, {0});
    t := ReleaseComputed({0}, ip, a);
    t := Next(kind, [ip], s, t, Fetch(0));
    t := Next(kind, [ip], s, t, GiveUp(0));
    t := Next(kind, [ip], s, t, Call(0, Alloc(a, "pod")));
    t := Next(kind, [ip], s, t, Read(0, 0, "node", 0));
  }

  /**
   Even with one manager and fresh writes only: the write of a release lands after its caller has given up
   and the ID has been allocated again; then the machine is leased to somebody else.
   */
  lemma LateWriteSharesMachine(ip: string, a: string, b: string) returns (t: System)
    requires a != b
    ensures Initial([ip], OneMachine(ip, {0}))
    ensures Reaches(Kind(true, false), [ip], OneMachine(ip, {0}), t) && t.held == map[a := ip, b := ip]
  {
    var kind, s := Kind(true, false), OneMachine(ip, {0});
    OneMachineIsInitial(ip, {0});
    t := WriteIsOnItsWay(ip, a);
    t := Next(kind, [ip], s, t, Land(0, 0));
    t := Allocates(kind, [ip], s, t, 0, b, ip);
  }
}
