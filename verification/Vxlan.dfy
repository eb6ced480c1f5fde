/**
 The VXLAN tunnels of a worker node: VNIs come from a counter, and each tunnel adds two NOTRACK rules to
 the iptables table "raw", so that every tunnel ever set up has rules of its own to remove.
 */
module Vxlan {
  import opened Decimal
  import I = Iptables

  /** An address, a port and a VNI, as the device of the tunnel records them. */
  datatype Tunnel = Tunnel(addr: string, port: int, id: int)

  datatype Direction = Output | PreRouting

  function Base(d: Direction): string {
    if d == Output then "OUTPUT" else "PREROUTING"
  }

  function Chain(d: Direction): string {
    if d == Output then "peerpod-OUTPUT" else "peerpod-PREROUTING"
  }

  function Comment(id: int): string {
    "peerpod [vni:" + FormatInt(id) + "]"
  }

  function NoTrack(d: Direction, t: Tunnel): I.Rule {
    ["-m", "comment", "--comment", Comment(t.id), if d == Output then "-d" else "-s", t.addr,
     "-p", "udp", "-m", "udp", "--dport", FormatInt(t.port), "-j", "NOTRACK"]
  }

  function EntryOf(d: Direction, t: Tunnel): I.Entry {
    I.Entry(Base(d), Chain(d), NoTrack(d, t))
  }

  function Rules(d: Direction, live: seq<Tunnel>): seq<I.Rule> {
    seq(|live|, i requires 0 <= i < |live| => NoTrack(d, live[i]))
  }

  predicate DistinctIds(live: seq<Tunnel>) {
    forall i, j | 0 <= i < j < |live| :: live[i].id != live[j].id
  }

  /** Each chain and its single jump exist exactly while a tunnel is live, and the chain holds exactly the live tunnels' rules. */
  predicate Reflected(c: I.Chains, live: seq<Tunnel>) {
    && I.Reflects(c, Base(Output), Chain(Output), Rules(Output, live))
    && I.Reflects(c, Base(PreRouting), Chain(PreRouting), Rules(PreRouting, live))
  }

  /** Tunnels with different VNIs have different rules. */
  lemma RulesTellTunnelsApart(d: Direction, t: Tunnel, u: Tunnel)
    requires NoTrack(d, t) == NoTrack(d, u)
    ensures t.id == u.id
  {
    assert Comment(t.id) == NoTrack(d, t)[3] == NoTrack(d, u)[3] == Comment(u.id);
    var prefix := "peerpod [vni:";
    var a, b := Comment(t.id), Comment(u.id);
    assert a[|prefix|..|a| - 1] == FormatInt(t.id);
    assert b[|prefix|..|b| - 1] == FormatInt(u.id);
    FormatIntInjective(t.id, u.id);
  }

  lemma RulesAreDistinct(d: Direction, live: seq<Tunnel>)
    requires DistinctIds(live)
    ensures I.Distinct(Rules(d, live))
  {
    forall i, j | 0 <= i < j < |live| ensures Rules(d, live)[i] != Rules(d, live)[j] {
      if NoTrack(d, live[i]) == NoTrack(d, live[j]) {
        RulesTellTunnelsApart(d, live[i], live[j]);
      }
    }
  }

  lemma RuleIsNew(d: Direction, live: seq<Tunnel>, t: Tunnel)
    requires forall i | 0 <= i < |live| :: live[i].id != t.id
    ensures NoTrack(d, t) !in Rules(d, live) && Rules(d, live + [t]) == Rules(d, live) + [NoTrack(d, t)]
  {
    if NoTrack(d, t) in Rules(d, live) {
      var i :| 0 <= i < |live| && Rules(d, live)[i] == NoTrack(d, t);
      RulesTellTunnelsApart(d, live[i], t);
    }
  }

  lemma EntriesAreDisjoint(t: Tunnel)
    ensures I.Disjoint(EntryOf(Output, t), EntryOf(PreRouting, t))
  {
    assert |"OUTPUT"| == 6 && |"PREROUTING"| == 10 && |"peerpod-OUTPUT"| == 14 && |"peerpod-PREROUTING"| == 18 && |"NOTRACK"| == 7;
  }

  // ----- which packets a rule matches -----

  /** Addresses are compared as texts; `port` is the destination port. */
  datatype Packet = Packet(source: string, destination: string, protocol: string, port: int)

  /** One option of a rule and its value; `-m`, `--comment` and the target put no condition on the packet. */
  predicate Accepts(option: string, value: string, p: Packet) {
    match option
    case "-s" => p.source == value
    case "-d" => p.destination == value
    case "-p" => p.protocol == value
    case "--dport" => FormatInt(p.port) == value
    case "-m" => true
    case "--comment" => true
    case "-j" => true
    case _ => false
  }

  /** A rule is a list of options, each followed by its value; all of them must accept the packet. */
  predicate Matches(rule: I.Rule, p: Packet) {
    |rule| % 2 == 0 && forall i | 0 <= i < |rule| && i % 2 == 0 :: Accepts(rule[i], rule[i + 1], p)
  }

  predicate Concerns(d: Direction, t: Tunnel, p: Packet) {
    (if d == Output then p.destination else p.source) == t.addr && p.protocol == "udp" && p.port == t.port
  }

  lemma AcceptsMeans(value: string, p: Packet)
    ensures Accepts("-s", value, p) <==> p.source == value
    ensures Accepts("-d", value, p) <==> p.destination == value
    ensures Accepts("-p", value, p) <==> p.protocol == value
    ensures Accepts("--dport", value, p) <==> FormatInt(p.port) == value
    ensures Accepts("-m", value, p) && Accepts("--comment", value, p) && Accepts("-j", value, p)
  {
  }

  lemma SevenOptions(rule: I.Rule, p: Packet)
    requires |rule| == 14
    ensures Matches(rule, p) <==>
              && Accepts(rule[0], rule[1], p) && Accepts(rule[2], rule[3], p) && Accepts(rule[4], rule[5], p) && Accepts(rule[6], rule[7], p)
              && Accepts(rule[8], rule[9], p) && Accepts(rule[10], rule[11], p) && Accepts(rule[12], rule[13], p)
  {
  }

  /** A rule takes exactly the UDP packets to the port of the tunnel, to its address or from it, off connection tracking. */
  lemma NoTrackMatchesExactly(d: Direction, t: Tunnel, p: Packet)
    ensures Matches(NoTrack(d, t), p) <==> Concerns(d, t, p)
    ensures I.Targets(NoTrack(d, t), "NOTRACK")
  {
    SevenOptions(NoTrack(d, t), p);
    AcceptsMeans("comment", p);
    AcceptsMeans(Comment(t.id), p);
    AcceptsMeans(t.addr, p);
    AcceptsMeans("udp", p);
    AcceptsMeans(FormatInt(t.port), p);
    AcceptsMeans("NOTRACK", p);
    if FormatInt(p.port) == FormatInt(t.port) {
      FormatIntInjective(p.port, t.port);
    }
  }

  /** A packet in a base chain is sent on to this chain, where a rule takes it off connection tracking. */
  predicate Untracked(c: I.Chains, base: string, chain: string, p: Packet) {
    && base in c && I.Jump(chain) in c[base] && chain in c
    && exists k | 0 <= k < |c[chain]| :: Matches(c[chain][k], p) && I.Targets(c[chain][k], "NOTRACK")
  }

  lemma ReflectedPackets(c: I.Chains, d: Direction, live: seq<Tunnel>, p: Packet)
    requires I.Reflects(c, Base(d), Chain(d), Rules(d, live))
    ensures Untracked(c, Base(d), Chain(d), p) <==> exists i | 0 <= i < |live| :: Concerns(d, live[i], p)
  {
    forall i | 0 <= i < |live| ensures Rules(d, live)[i] == NoTrack(d, live[i]) {}
    forall i | 0 <= i < |live|
      ensures Matches(Rules(d, live)[i], p) <==> Concerns(d, live[i], p)
      ensures I.Targets(Rules(d, live)[i], "NOTRACK")
    {
      NoTrackMatchesExactly(d, live[i], p);
    }
    if i :| 0 <= i < |live| && Concerns(d, live[i], p) {
      assert Matches(c[Chain(d)][i], p) && I.Targets(c[Chain(d)][i], "NOTRACK");
      assert multiset(c[Base(d)])[I.Jump(Chain(d))] == 1;
    }
    if Untracked(c, Base(d), Chain(d), p) {
      var k :| 0 <= k < |c[Chain(d)]| && Matches(c[Chain(d)][k], p);
      assert Concerns(d, live[k], p);
    }
  }

  // ----- set-up and teardown -----

  function Entries(t: Tunnel): seq<I.Entry> {
    [EntryOf(Output, t), EntryOf(PreRouting, t)]
  }

  lemma SetupAddsRules(c: I.Chains, live: seq<Tunnel>, t: Tunnel)
    requires Reflected(c, live) && forall i | 0 <= i < |live| :: live[i].id != t.id
    ensures I.HasBases(c, Entries(t)) && Reflected(I.SetupAll(c, Entries(t)), live + [t])
  {
    RuleIsNew(Output, live, t);
    RuleIsNew(PreRouting, live, t);
    EntriesAreDisjoint(t);
    I.SetupReflects(c, EntryOf(Output, t), EntryOf(PreRouting, t), Rules(Output, live), Rules(PreRouting, live));
  }

  /** The teardown of a live tunnel succeeds and removes exactly its rules. */
  lemma TeardownRemovesRules(c: I.Chains, live: seq<Tunnel>, k: nat)
    requires Reflected(c, live) && DistinctIds(live) && k < |live|
    ensures I.TeardownAll(c, Entries(live[k])).1
    ensures Reflected(I.TeardownAll(c, Entries(live[k])).0, live[..k] + live[k + 1..])
  {
    var t, rest := live[k], live[..k] + live[k + 1..];
    RulesAreDistinct(Output, live);
    RulesAreDistinct(PreRouting, live);
    EntriesAreDisjoint(t);
    I.TeardownReflects(c, EntryOf(Output, t), EntryOf(PreRouting, t), Rules(Output, live), Rules(PreRouting, live), k);
    RulesOfRest(Output, live, k);
    RulesOfRest(PreRouting, live, k);
  }

  lemma RulesOfRest(d: Direction, live: seq<Tunnel>, k: nat)
    requires k < |live|
    ensures Rules(d, live[..k] + live[k + 1..]) == Rules(d, live)[..k] + Rules(d, live)[k + 1..]
  {
  }

  /** The teardown of a tunnel that is not live fails and changes nothing. */
  lemma UnknownTeardownFails(c: I.Chains, live: seq<Tunnel>, t: Tunnel)
    requires Reflected(c, live) && forall i | 0 <= i < |live| :: live[i].id != t.id
    ensures I.TeardownAll(c, Entries(t)) == (c, false)
  {
    RuleIsNew(Output, live, t);
    I.UnknownRuleFails(c, Base(Output), Chain(Output), Rules(Output, live), EntryOf(Output, t));
    I.AllOfTwo(c, EntryOf(Output, t), EntryOf(PreRouting, t));
  }

  /** Set-up followed by teardown leaves the whole table as it was. */
  lemma TeardownUndoesSetup(c: I.Chains, live: seq<Tunnel>, t: Tunnel)
    requires Reflected(c, live) && DistinctIds(live + [t])
    ensures I.HasBases(c, Entries(t)) && I.TeardownAll(I.SetupAll(c, Entries(t)), Entries(t)) == (c, true)
  {
    var all := live + [t];
    forall i | 0 <= i < |live| ensures live[i].id != t.id {
      assert all[i] == live[i] && all[|live|] == t;
    }
    RuleIsNew(Output, live, t);
    RuleIsNew(PreRouting, live, t);
    RulesAreDistinct(Output, all);
    RulesAreDistinct(PreRouting, all);
    EntriesAreDisjoint(t);
    I.TeardownUndoesSetup(c, EntryOf(Output, t), EntryOf(PreRouting, t), Rules(Output, live), Rules(PreRouting, live));
  }

  // ----- VNIs -----

  const VNI_LIMIT: int := 0x100_0000

  /** The VNI of a pod network: its index above the configured minimum. */
  function Configured(minID: int, index: nat): int {
    minID + index
  }

  /** Counts the pod networks since the process has started. */
  class PodIndex {
    var index: nat

    constructor ()
      ensures index == 0
    {
      index := 0;
    }

    method Get() returns (i: nat)
      modifies this
      ensures i == old(index) && index == old(index) + 1
    {
      i := index;
      index := index + 1;
    }
  }

  /** `Inspect` as far as it concerns tunnels: take the next index and configure the VNI from it. */
  method Inspect(manager: PodIndex, minID: int) returns (vni: int)
    modifies manager
    ensures vni == Configured(minID, old(manager.index)) && manager.index == old(manager.index) + 1
  {
    var index := manager.Get();
    vni := minID + index;
  }

  // ----- runs -----

  /**
   `vnis` are those of all pod networks inspected so far, `pods` says which of them have a live tunnel, and
   `failed` records a teardown command that failed.
   */
  datatype System = System(
    minID: int, port: int, index: nat, vnis: seq<int>, pods: seq<nat>, live: seq<Tunnel>, chains: I.Chains, failed: bool)

  datatype Step =
    | Inspect
    | Setup(index: nat, addr: string)
    | Teardown(k: nat)
    | Foreign(chains: I.Chains)       // other programs edit the table

  /** Other programs leave the chains of the tunnels and the jumps to them alone. */
  predicate Minds(c: I.Chains, c2: I.Chains, d: Direction) {
    && I.Same(c, c2, Chain(d)) && Base(d) in c && Base(d) in c2
    && multiset(c2[Base(d)])[I.Jump(Chain(d))] == multiset(c[Base(d)])[I.Jump(Chain(d))]
    && I.OnlyBaseJumps(c2, Base(d), Chain(d))
  }

  predicate HasBases(c: I.Chains) {
    Base(Output) in c && Base(PreRouting) in c
  }

  predicate Enabled(s: System, step: Step) {
    match step
    case Inspect => true
    case Setup(index, _) => HasBases(s.chains) && index < |s.vnis| && index !in s.pods
    case Teardown(k) => HasBases(s.chains) && k < |s.live| == |s.pods|
    case Foreign(chains) => Minds(s.chains, chains, Output) && Minds(s.chains, chains, PreRouting)
  }

  function Apply(s: System, step: Step): System
    requires Enabled(s, step)
  {
    match step
    case Inspect => s.(index := s.index + 1, vnis := s.vnis + [Configured(s.minID, s.index)])
    case Setup(index, addr) =>
      var t := Tunnel(addr, s.port, s.vnis[index]);
      s.(pods := s.pods + [index], live := s.live + [t], chains := I.SetupAll(s.chains, Entries(t)))
    case Teardown(k) =>
      var r := I.TeardownAll(s.chains, Entries(s.live[k]));
      s.(pods := s.pods[..k] + s.pods[k + 1..], live := s.live[..k] + s.live[k + 1..], chains := r.0,
         failed := s.failed || !r.1)
    case Foreign(chains) => s.(chains := chains)
  }

  predicate Possible(s: System, steps: seq<Step>)
    decreases |steps|
  {
    steps == [] || (Enabled(s, steps[0]) && Possible(Apply(s, steps[0]), steps[1..]))
  }

  function Run(s: System, steps: seq<Step>): System
    requires Possible(s, steps)
    decreases |steps|
  {
    if steps == [] then s else Run(Apply(s, steps[0]), steps[1..])
  }

  /** Each live tunnel has the VNI of its pod, and each pod at most one tunnel. */
  predicate Matched(vnis: seq<int>, pods: seq<nat>, live: seq<Tunnel>) {
    && |pods| == |live|
    && (forall i | 0 <= i < |live| :: pods[i] < |vnis| && live[i].id == vnis[pods[i]])
    && (forall i, j | 0 <= i < j < |pods| :: pods[i] != pods[j])
  }

  lemma MatchedWithout(vnis: seq<int>, pods: seq<nat>, live: seq<Tunnel>, k: nat)
    requires Matched(vnis, pods, live) && k < |live|
    ensures Matched(vnis, pods[..k] + pods[k + 1..], live[..k] + live[k + 1..])
  {
  }

  predicate Inv(s: System) {
    && Reflected(s.chains, s.live) && !s.failed
    && s.index == |s.vnis| && (forall i | 0 <= i < |s.vnis| :: s.vnis[i] == Configured(s.minID, i))
    && Matched(s.vnis, s.pods, s.live)
  }

  /** VNIs of live tunnels differ because each is a fresh count above the same minimum. */
  lemma LiveIdsAreDistinct(s: System)
    requires Inv(s)
    ensures DistinctIds(s.live)
  {
    forall i, j | 0 <= i < j < |s.live| ensures s.live[i].id != s.live[j].id {
      assert s.pods[i] != s.pods[j];
    }
  }

  lemma SetupKeepsInv(s: System, step: Step)
    requires Inv(s) && Enabled(s, step) && step.Setup?
    ensures Inv(Apply(s, step))
  {
    SetupAddsRules(s.chains, s.live, Tunnel(step.addr, s.port, s.vnis[step.index]));
  }

  lemma TeardownKeepsInv(s: System, step: Step)
    requires Inv(s) && Enabled(s, step) && step.Teardown?
    ensures Inv(Apply(s, step))
  {
    LiveIdsAreDistinct(s);
    TeardownRemovesRules(s.chains, s.live, step.k);
    MatchedWithout(s.vnis, s.pods, s.live, step.k);
  }

  lemma MindfulEditKeeps(c: I.Chains, c2: I.Chains, d: Direction, rules: seq<I.Rule>)
    requires I.Reflects(c, Base(d), Chain(d), rules) && Minds(c, c2, d)
    ensures I.Reflects(c2, Base(d), Chain(d), rules)
  {
  }

  lemma {:induction false} StepKeepsInv(s: System, step: Step)
    requires Inv(s) && Enabled(s, step)
    ensures Inv(Apply(s, step)) && Apply(s, step).minID == s.minID
  {
    match step
    case Inspect =>
    case Setup(_, _) => SetupKeepsInv(s, step);
    case Teardown(_) => TeardownKeepsInv(s, step);
    case Foreign(chains) =>
      MindfulEditKeeps(s.chains, chains, Output, Rules(Output, s.live));
      MindfulEditKeeps(s.chains, chains, PreRouting, Rules(PreRouting, s.live));
  }

  lemma {:induction false} RunKeepsInv(s: System, steps: seq<Step>)
    requires Inv(s) && Possible(s, steps)
    ensures Inv(Run(s, steps)) && Run(s, steps).minID == s.minID
    decreases |steps|
  {
    if steps != [] {
      StepKeepsInv(s, steps[0]);
      RunKeepsInv(Apply(s, steps[0]), steps[1..]);
    }
  }

  /** A table in which nothing of the tunnels is left. */
  predicate Clean(c: I.Chains) {
    Reflected(c, [])
  }

  function Start(minID: int, port: int, chains: I.Chains): System {
    System(minID, port, 0, [], [], [], chains, false)
  }

  /**
   Over every sequence of set-ups and teardowns since the process has started, while other programs edit
   the table: each chain and its single jump exist exactly while a tunnel is live, each chain holds exactly
   the rules of the live tunnels, and every teardown succeeds.
   */
  lemma TablesReflectTunnels(minID: int, port: int, chains: I.Chains, steps: seq<Step>)
    requires Clean(chains) && Possible(Start(minID, port, chains), steps)
    ensures var t := Run(Start(minID, port, chains), steps);
            Reflected(t.chains, t.live) && !t.failed
  {
    RunKeepsInv(Start(minID, port, chains), steps);
  }

  /**
   At any moment, an outgoing packet is taken off connection tracking exactly if it is a UDP packet to the
   address and port of a live tunnel, and an incoming one exactly if it comes from the address of one, to
   its port.
   */
  lemma TunnelPacketsAreUntracked(minID: int, port: int, chains: I.Chains, steps: seq<Step>, p: Packet)
    requires Clean(chains) && Possible(Start(minID, port, chains), steps)
    ensures var t := Run(Start(minID, port, chains), steps);
            && (Untracked(t.chains, "OUTPUT", "peerpod-OUTPUT", p) <==>
                  p.protocol == "udp" && exists i | 0 <= i < |t.live| :: t.live[i].addr == p.destination && t.live[i].port == p.port)
            && (Untracked(t.chains, "PREROUTING", "peerpod-PREROUTING", p) <==>
                  p.protocol == "udp" && exists i | 0 <= i < |t.live| :: t.live[i].addr == p.source && t.live[i].port == p.port)
  {
    RunKeepsInv(Start(minID, port, chains), steps);
    var t := Run(Start(minID, port, chains), steps);
    ReflectedPackets(t.chains, Output, t.live, p);
    ReflectedPackets(t.chains, PreRouting, t.live, p);
  }

  /**
   The VNIs of all pods inspected since the process has started, with or without a live tunnel, are pairwise
   distinct, and they fit their 24 bits if and only if the minimum and the number of pods leave room.
   */
  lemma VnisAreDistinct(minID: int, port: int, chains: I.Chains, steps: seq<Step>)
    requires Clean(chains) && Possible(Start(minID, port, chains), steps)
    ensures var t := Run(Start(minID, port, chains), steps);
            && (forall i, j | 0 <= i < j < |t.vnis| :: t.vnis[i] != t.vnis[j])
            && (forall i | 0 <= i < |t.live| :: t.live[i].id in t.vnis)
            && ((forall i | 0 <= i < |t.vnis| :: 0 <= t.vnis[i] < VNI_LIMIT) <==>
                t.vnis == [] || (0 <= minID && minID + |t.vnis| <= VNI_LIMIT))
  {
    RunKeepsInv(Start(minID, port, chains), steps);
    var t := Run(Start(minID, port, chains), steps);
    if t.vnis != [] {
      assert t.vnis[0] == minID && t.vnis[|t.vnis| - 1] == minID + |t.vnis| - 1;
    }
  }
}
