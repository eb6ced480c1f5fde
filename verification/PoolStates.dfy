/**
 The allocation state of the BYOM ("bring your own machine") VM pool as it is stored in the
 ConfigMap, and the four ways in which a pool manager computes a new state from an old one.
 */
module PoolStates {
  datatype IPAllocation = IPAllocation(
    allocationID: string, ip: string, nodeName: string, podName: string, allocatedAt: int)

  datatype State = State(
    allocations: map<string, IPAllocation>, available: seq<string>, lastUpdated: int, version: int)

  ghost predicate NoDuplicates(s: seq<string>) {
    forall i, j | 0 <= i < j < |s| :: s[i] != s[j]
  }

  /** The address that the state leases to each allocation ID. */
  function Leases(s: State): map<string, string> {
    map id | id in s.allocations :: s.allocations[id].ip
  }

  ghost predicate Injective(m: map<string, string>) {
    forall i, j | i in m && j in m && m[i] == m[j] :: i == j
  }

  /** No address is listed twice, leased twice, or both listed and leased. */
  ghost predicate WellFormed(s: State) {
    && NoDuplicates(s.available)
    && Injective(Leases(s))
    && (forall id | id in s.allocations ::
          s.allocations[id].allocationID == id && s.allocations[id].ip !in s.available)
  }

  /** The state is an exact partition of `pool` into leased and available addresses. */
  ghost predicate Partition(pool: seq<string>, s: State) {
    && WellFormed(s)
    && (forall ip :: ip in pool <==> ip in s.available || ip in Leases(s).Values)
  }

  // ----- the four computations -----

  function Empty(pool: seq<string>, now: int): State {
    State(map[], pool, now, 1)
  }

  /** Index picked among `n` available addresses from the first four bytes of the MD5 of the ID. */
  function SelectIndex(n: nat, seed: nat): (i: nat)
    ensures n > 0 ==> i < n
  {
    if n <= 1 then 0 else seed % n
  }

  function Allocate(s: State, id: string, pod: string, node: string, seed: nat, now: int): State
    requires s.available != []
  {
    var i := SelectIndex(|s.available|, seed);
    State(s.allocations[id := IPAllocation(id, s.available[i], node, pod, now)],
          s.available[..i] + s.available[i + 1..],
          now, s.version + 1)
  }

  function Deallocate(s: State, id: string, now: int): State
    requires id in s.allocations
  {
    State(s.allocations - {id}, s.available + [s.allocations[id].ip], now, s.version + 1)
  }

  /** `pool` without the addresses of `taken`, in the order of `pool`. */
  function Without(pool: seq<string>, taken: set<string>): (r: seq<string>)
    ensures forall ip :: ip in r <==> ip in pool && ip !in taken
  {
    if pool == [] then []
    else
      var rest := Without(pool[1..], taken);
      if pool[0] in taken then rest else [pool[0]] + rest
  }

  function Repair(pool: seq<string>, s: State, now: int): State {
    State(s.allocations, Without(pool, Leases(s).Values), now, s.version + 1)
  }

  // ----- what each computation does to a partition -----

  lemma LeasesOfAllocate(s: State, id: string, pod: string, node: string, seed: nat, now: int)
    requires s.available != []
    ensures var i := SelectIndex(|s.available|, seed);
            Leases(Allocate(s, id, pod, node, seed, now)) == Leases(s)[id := s.available[i]]
  {
  }

  /** Cutting one element out of a duplicate-free list removes exactly that element. */
  lemma CutOut(a: seq<string>, i: nat)
    requires i < |a| && NoDuplicates(a)
    ensures var b := a[..i] + a[i + 1..];
            NoDuplicates(b) && forall x :: x in b <==> x in a && x != a[i]
  {
    var b := a[..i] + a[i + 1..];
    forall k | 0 <= k < |b| ensures b[k] == a[if k < i then k else k + 1] {}
    forall x | x in a && x != a[i] ensures x in b {
      var k :| 0 <= k < |a| && a[k] == x;
      assert b[if k < i then k else k - 1] == x;
    }
  }

  lemma AllocateKeepsPartition(pool: seq<string>, s: State, id: string, pod: string, node: string, seed: nat, now: int)
    requires Partition(pool, s) && s.available != [] && id !in s.allocations
    ensures Partition(pool, Allocate(s, id, pod, node, seed, now))
  {
    var i := SelectIndex(|s.available|, seed);
    var ip := s.available[i];
    var t := Allocate(s, id, pod, node, seed, now);
    CutOut(s.available, i);
    LeasesOfAllocate(s, id, pod, node, seed, now);
    forall j | j in s.allocations ensures Leases(s)[j] != ip {}
    LeaseValuesAfterGrant(Leases(s), id, ip);
  }

  lemma LeaseValuesAfterGrant(m: map<string, string>, id: string, ip: string)
    requires id !in m
    ensures m[id := ip].Values == m.Values + {ip}
  {
    var n := m[id := ip];
    assert n[id] == ip;
    forall x | x in m.Values ensures x in n.Values {
      var j :| j in m && m[j] == x;
      assert n[j] == x;
    }
  }

  lemma LeaseValuesAfterRelease(m: map<string, string>, id: string)
    requires id in m && Injective(m)
    ensures (m - {id}).Values == m.Values - {m[id]}
  {
    var n := m - {id};
    forall x | x in m.Values && x != m[id] ensures x in n.Values {
      var j :| j in m && m[j] == x;
      assert n[j] == x;
    }
  }

  lemma DeallocateKeepsPartition(pool: seq<string>, s: State, id: string, now: int)
    requires Partition(pool, s) && id in s.allocations
    ensures Partition(pool, Deallocate(s, id, now))
    ensures Leases(Deallocate(s, id, now)) == Leases(s) - {id}
  {
    var t := Deallocate(s, id, now);
    assert Leases(t) == Leases(s) - {id};
    LeaseValuesAfterRelease(Leases(s), id);
    assert Leases(s)[id] == s.allocations[id].ip;
    forall j | j in t.allocations ensures t.allocations[j].ip !in t.available {
      assert Leases(s)[j] == s.allocations[j].ip;
    }
  }

  lemma EmptyIsPartition(pool: seq<string>, now: int)
    requires NoDuplicates(pool)
    ensures Partition(pool, Empty(pool, now))
  {
    assert Leases(Empty(pool, now)) == map[];
  }

  lemma WithoutNoDuplicates(pool: seq<string>, taken: set<string>)
    requires NoDuplicates(pool)
    ensures NoDuplicates(Without(pool, taken))
  {
    if pool != [] {
      WithoutNoDuplicates(pool[1..], taken);
    }
  }

  lemma RepairKeepsPartition(pool: seq<string>, s: State, now: int)
    requires NoDuplicates(pool) && Partition(pool, s)
    ensures Partition(pool, Repair(pool, s, now))
  {
    RepairFromAnyConfiguration(pool, s, now);
  }

  // ----- recovery -----

  /** Positions in `pool` of the elements of `r`, strictly increasing: `r` keeps the order of `pool`. */
  ghost predicate InOrderOf(r: seq<string>, pool: seq<string>) {
    forall i, j | 0 <= i < j < |r| :: Precedes(pool, r[i], r[j])
  }

  ghost predicate Precedes(pool: seq<string>, x: string, y: string) {
    exists a, b :: 0 <= a < b < |pool| && pool[a] == x && pool[b] == y
  }

  lemma {:induction false} WithoutInOrder(pool: seq<string>, taken: set<string>)
    ensures InOrderOf(Without(pool, taken), pool)
  {
    if pool != [] {
      var rest := Without(pool[1..], taken);
      WithoutInOrder(pool[1..], taken);
      var r := Without(pool, taken);
      var d := if pool[0] in taken then 0 else 1;
      forall i, j | 0 <= i < j < |r|
        ensures Precedes(pool, r[i], r[j])
      {
        if i >= d {
          assert rest[i - d] == r[i] && rest[j - d] == r[j];
          var a, b :| 0 <= a < b < |pool[1..]| && pool[1..][a] == rest[i - d] && pool[1..][b] == rest[j - d];
          assert pool[a + 1] == r[i] && pool[b + 1] == r[j];
        } else {
          assert r[j] in pool[1..];
          var b :| 0 <= b < |pool[1..]| && pool[1..][b] == r[j];
          assert pool[0] == r[i] && pool[b + 1] == r[j];
        }
      }
    }
  }

  /**
   Recovery against any new duplicate-free pool configuration: every allocation survives
   unchanged, the available list is exactly the configured addresses that nobody holds, in
   configured order, and a second recovery changes nothing but version and time.
   */
  lemma RepairFromAnyConfiguration(pool: seq<string>, s: State, now: int)
    requires NoDuplicates(pool) && WellFormed(s)
    ensures var t := Repair(pool, s, now);
            && WellFormed(t)
            && t.allocations == s.allocations
            && (forall ip :: ip in t.available <==> ip in pool && ip !in Leases(s).Values)
            && InOrderOf(t.available, pool)
            && (forall later :: Repair(pool, t, later) == t.(lastUpdated := later, version := t.version + 1))
  {
    var t := Repair(pool, s, now);
    WithoutNoDuplicates(pool, Leases(s).Values);
    WithoutInOrder(pool, Leases(s).Values);
    assert Leases(t) == Leases(s);
    forall id | id in t.allocations ensures t.allocations[id].ip !in t.available {
      assert Leases(s)[id] == t.allocations[id].ip;
    }
  }

  lemma CutKeepsOrder(a: seq<string>, i: nat)
    requires i < |a|
    ensures InOrderOf(a[..i] + a[i + 1..], a)
  {
    var b := a[..i] + a[i + 1..];
    forall j, k | 0 <= j < k < |b| ensures Precedes(a, b[j], b[k]) {
      var x, y := if j < i then j else j + 1, if k < i then k else k + 1;
      assert a[x] == b[j] && a[y] == b[k];
    }
  }

  /** The free list is a queue: an allocation keeps the order of the rest, and a released address goes to its end. */
  lemma FreeListKeepsOrder(s: State, id: string, pod: string, node: string, seed: nat, now: int)
    ensures s.available != [] ==> InOrderOf(Allocate(s, id, pod, node, seed, now).available, s.available)
    ensures id in s.allocations ==> s.available < Deallocate(s, id, now).available
  {
    if s.available != [] {
      CutKeepsOrder(s.available, SelectIndex(|s.available|, seed));
    }
  }

  // ----- pool accounting -----

  lemma {:induction false} DistinctCount(s: seq<string>)
    requires NoDuplicates(s)
    ensures |set x | x in s| == |s|
  {
    if s != [] {
      DistinctCount(s[1..]);
      assert (set x | x in s) == {s[0]} + set x | x in s[1..];
      assert s[0] !in s[1..];
    }
  }

  lemma {:induction false} InjectiveCount(m: map<string, string>)
    requires Injective(m)
    ensures |m.Values| == |m|
  {
    if m != map[] {
      var id :| id in m;
      var n := m - {id};
      InjectiveCount(n);
      LeaseValuesAfterRelease(m, id);
      assert m[id] in m.Values;
    } else {
      assert m.Values == {};
    }
  }

  lemma SameKeysSameSize<V, W>(m: map<string, V>, n: map<string, W>)
    requires m.Keys == n.Keys
    ensures |m| == |n|
  {
    assert |m| == |m.Keys| && |n| == |n.Keys|;
  }

  lemma PartitionSets(pool: seq<string>, s: State)
    requires Partition(pool, s)
    ensures (set x | x in s.available) !! Leases(s).Values
    ensures (set x | x in pool) == (set x | x in s.available) + Leases(s).Values
  {
    forall ip | ip in Leases(s).Values ensures ip !in s.available {
      var id :| id in Leases(s) && Leases(s)[id] == ip;
    }
  }

  lemma DisjointUnionCount(a: set<string>, b: set<string>)
    requires a !! b
    ensures |a + b| == |a| + |b|
  {
  }

  /** Conservation: available plus leased is always the configured number of machines. */
  lemma PartitionCount(pool: seq<string>, s: State)
    requires NoDuplicates(pool) && Partition(pool, s)
    ensures |s.available| + |s.allocations| == |pool|
  {
    PartitionSets(pool, s);
    DisjointUnionCount((set x | x in s.available), Leases(s).Values);
    DistinctCount(pool);
    DistinctCount(s.available);
    InjectiveCount(Leases(s));
    SameKeysSameSize(Leases(s), s.allocations);
  }
}
