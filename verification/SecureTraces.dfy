/** Runs of the secure tunnels in which everything goes well. */
module SecureTraces {
  import opened Results
  import opened SecureComms

  /** `t` is reached from `s` by some run. */
  ghost predicate Leads(s: System, t: System) {
    exists steps :: Possible(s, steps) && Run(s, steps) == t
  }

  lemma LeadsToItself(s: System)
    ensures Leads(s, s)
  {
    assert Possible(s, []) && Run(s, []) == s;
  }

  lemma {:induction false} OneMoreStep(s: System, steps: seq<Step>, step: Step)
    requires Possible(s, steps) && Enabled(Run(s, steps), step)
    ensures Possible(s, steps + [step]) && Run(s, steps + [step]) == Apply(Run(s, steps), step)
    decreases |steps|
  {
    if steps == [] {
      assert [step][1..] == [];
      assert Possible(Apply(s, step), []);
    } else {
      OneMoreStep(Apply(s, steps[0]), steps[1..], step);
      assert (steps + [step])[1..] == steps[1..] + [step];
    }
  }

  lemma LeadsFurther(s: System, t: System, step: Step) returns (u: System)
    requires Leads(s, t) && Enabled(t, step)
    ensures u == Apply(t, step) && Leads(s, u)
  {
    u := Apply(t, step);
    var steps :| Possible(s, steps) && Run(s, steps) == t;
    OneMoreStep(s, steps, step);
  }

  /** A move on one connection, seen from the system. */
  lemma MoveLeads(s: System, t: System, i: nat, m: Move) returns (u: System)
    requires Leads(s, t) && i < |t.conns| && CanMove(t.conns[i], m) && AcceptedBy(t.conns[i], m).None?
    ensures u == t.(conns := t.conns[i := MoveOn(t.conns[i], m)]) && Leads(s, u)
  {
    u := LeadsFurther(s, t, OnConnection(i, m));
  }

  // ----- the handshake of one connection -----

  function ReadyEnd(phase: Phase, tags: Tags): End {
    End(phase, tags, Ready, false, [], Served(tags.inbounds, phase), ByName(tags.outbounds), false, None)
  }

  function ReadyConnection(sid: string, stored: bool, phase: Phase, wn: Tags, pp: Tags): Connection {
    Connection(sid, stored, ReadyEnd(phase, wn), ReadyEnd(phase, pp))
  }

  function NewPair(sid: string, stored: bool, phase: Phase, wn: Tags, pp: Tags): Connection {
    Connection(sid, stored, NewEnd(phase, phase, wn), NewEnd(phase, phase, pp))
  }

  /** Each end answers the phase request of the other and reads the reply to its own. */
  lemma PhasesAgree(s: System, t: System, i: nat, sid: string, stored: bool, phase: Phase, wn: Tags, pp: Tags) returns (u: System)
    requires Leads(s, t) && i < |t.conns| && t.conns[i] == NewPair(sid, stored, phase, wn, pp)
    ensures Leads(s, u)
    ensures var verified := Connection(sid, stored, End(phase, wn, Verified, false, [], [], map[], false, None),
                                       End(phase, pp, Verified, false, [], [], map[], false, None));
            u == t.(conns := t.conns[i := verified])
  {
    var c := t.conns[i];
    var a := MoveLeads(s, t, i, Request(PodVM, 0));
    assert a.conns[i] == c.(pp := c.pp.(inbox := []), wn := c.wn.(inbox := [PhaseRequest(phase), PhaseReply(true, phase)]));
    var b := MoveLeads(s, a, i, Request(WorkerNode, 0));
    assert b.conns[i] == c.(pp := c.pp.(inbox := [PhaseReply(true, phase)]), wn := c.wn.(inbox := [PhaseReply(true, phase)]));
    var d := MoveLeads(s, b, i, Reply(WorkerNode, 0));
    u := MoveLeads(s, d, i, Reply(PodVM, 0));
  }

  /** Two ends in the same phase can always complete the handshake. */
  lemma HandshakeSucceeds(s: System, t: System, i: nat, sid: string, stored: bool, phase: Phase, wn: Tags, pp: Tags) returns (u: System)
    requires Leads(s, t) && i < |t.conns| && t.conns[i] == NewPair(sid, stored, phase, wn, pp)
    ensures Leads(s, u) && u == t.(conns := t.conns[i := ReadyConnection(sid, stored, phase, wn, pp)])
  {
    var a := PhasesAgree(s, t, i, sid, stored, phase, wn, pp);
    var b := MoveLeads(s, a, i, AddTags(WorkerNode));
    var c := MoveLeads(s, b, i, AddTags(PodVM));
    var d := MoveLeads(s, c, i, SetReady(WorkerNode));
    u := MoveLeads(s, d, i, SetReady(PodVM));
  }

  // ----- a tunnel -----

  /** The tags of a tunnel that the worker node may open towards the pod VM in a phase. */
  ghost predicate Matching(wn: Tags, pp: Tags, phase: Phase, inbound: Tag, outbound: Tag) {
    && inbound in wn.inbounds && Admits(inbound.phase, phase)
    && exists k :: LastNamed(pp.outbounds, inbound.name, k) && outbound == pp.outbounds[k] && Admits(outbound.phase, phase)
  }

  lemma TunnelOpens(s: System, t: System, i: nat, sid: string, stored: bool, phase: Phase, wn: Tags, pp: Tags,
                    inbound: Tag, outbound: Tag) returns (u: System)
    requires Leads(s, t) && i < |t.conns| && t.conns[i] == ReadyConnection(sid, stored, phase, wn, pp)
    requires Matching(wn, pp, phase, inbound, outbound)
    ensures Leads(s, u) && u == t.(accepted := t.accepted + [Tunnel(i, WorkerNode, inbound, outbound)])
  {
    ServedAdmit(wn.inbounds, phase);
    var k :| 0 <= k < |t.conns[i].wn.inbounds| && t.conns[i].wn.inbounds[k] == inbound;
    var a := MoveLeads(s, t, i, Open(WorkerNode, k));
    assert a.conns[i] == t.conns[i].(pp := t.conns[i].pp.(inbox := [OpenTunnel(inbound)]));
    ByNameIsLast(pp.outbounds, inbound.name);
    assert AcceptedBy(a.conns[i], Request(PodVM, 0)) == Some((inbound, outbound));
    u := LeadsFurther(s, a, OnConnection(i, Request(PodVM, 0)));
    assert MoveOn(a.conns[i], Request(PodVM, 0)) == t.conns[i];
    assert a.conns[i := t.conns[i]] == t.conns;
  }

  // ----- from attestation to the Kubernetes phase -----

  /** A client instance without a stored secret connects in the attestation phase. */
  lemma Connects(wn: Tags, pp: Tags, sid: string) returns (u: System)
    ensures Leads(Initial(pp, {}), u)
    ensures u == System([NewPair(sid, false, Attestation, wn, pp)], Server(Attesting(Some(0)), None, pp),
                        map[sid := Client(false, false, ClientAttesting(Some(0)), wn)], {sid}, [])
  {
    var s := Initial(pp, {});
    LeadsToItself(s);
    var a := LeadsFurther(s, s, InitPP(sid, wn));
    var b := LeadsFurther(s, a, Start(sid));
    assert b.clients == map[sid := Client(false, false, ClientAttesting(None), wn)];
    u := LeadsFurther(s, b, Connect(sid));
  }

  /** The first connection after the upgrade request was answered. */
  function Upgraded(sid: string, wn: Tags, pp: Tags): Connection {
    var c := ReadyConnection(sid, false, Attestation, wn, pp);
    c.(wn := c.wn.(upgrade := true), pp := c.pp.(inbox := [UpgradeReply(true)]))
  }

  /** The keys arrive, the server asks for the upgrade, and the client agrees. */
  lemma Upgrades(wn: Tags, pp: Tags, sid: string, keys: Keys, s: System) returns (u: System)
    requires Usable(keys) && Leads(Initial(pp, {}), s)
    requires s.conns == [ReadyConnection(sid, false, Attestation, wn, pp)] && s.server == Server(Attesting(Some(0)), None, pp)
    ensures Leads(Initial(pp, {}), u)
    ensures u == s.(conns := [Upgraded(sid, wn, pp)], server := Server(Serving(None), Some(keys), pp))
  {
    var start, c := Initial(pp, {}), s.conns[0];
    var a := LeadsFurther(start, s, FetchKeys(keys, true));
    assert a.conns[0] == c.(wn := c.wn.(inbox := [UpgradeRequest]));
    var b := MoveLeads(start, a, 0, Request(WorkerNode, 0));
    assert b.conns[0] == Upgraded(sid, wn, pp);
    u := LeadsFurther(start, b, UpgradeDone);
  }

  /** The first connection closes, and the client remembers that it has upgraded. */
  lemma ClientGoesOn(wn: Tags, pp: Tags, sid: string, s: System) returns (u: System)
    requires Leads(Initial(pp, {}), s) && s.conns == [Upgraded(sid, wn, pp)]
    requires s.clients == map[sid := Client(false, false, ClientAttesting(Some(0)), wn)]
    ensures Leads(Initial(pp, {}), u) && |u.conns| == 1 && u.conns[0].wn.phase == u.conns[0].pp.phase == Attestation
    ensures u == s.(conns := u.conns, clients := map[sid := Client(false, true, ClientServing(None), wn)])
  {
    var a := MoveLeads(Initial(pp, {}), s, 0, Close(WorkerNode));
    u := LeadsFurther(Initial(pp, {}), a, ClientDone(sid));
    assert u.clients == map[sid := Client(false, true, ClientServing(None), wn)];
  }

  lemma Reconnects(wn: Tags, pp: Tags, sid: string, s: System) returns (u: System)
    requires Leads(Initial(pp, {}), s) && s.server.state == Serving(None) && s.server.tags == pp
    requires s.clients == map[sid := Client(false, true, ClientServing(None), wn)]
    ensures Leads(Initial(pp, {}), u)
    ensures u == s.(conns := s.conns + [NewPair(sid, false, Kubernetes, wn, pp)], server := u.server, clients := u.clients)
    ensures u.server.config == s.server.config
  {
    u := LeadsFurther(Initial(pp, {}), s, Connect(sid));
  }

  /**
   Whatever the tags: there is a run in which a tunnel that the attestation phase admits is accepted in
   that phase, the keys arrive, both sides upgrade, and a tunnel that the Kubernetes phase admits is
   accepted on the next connection, in that phase.
   */
  lemma TunnelsOpenInBothPhases(wn: Tags, pp: Tags, sid: string, keys: Keys, in1: Tag, out1: Tag, in2: Tag, out2: Tag)
    requires Usable(keys)
    requires Matching(wn, pp, Attestation, in1, out1) && Matching(wn, pp, Kubernetes, in2, out2)
    ensures exists t :: Leads(Initial(pp, {}), t)
              && t.accepted == [Tunnel(0, WorkerNode, in1, out1), Tunnel(1, WorkerNode, in2, out2)]
              && |t.conns| == 2 && t.conns[0].wn.phase == t.conns[0].pp.phase == Attestation
              && t.conns[1] == ReadyConnection(sid, false, Kubernetes, wn, pp) && t.server.config == Some(keys)
  {
    var start := Initial(pp, {});
    var a := Connects(wn, pp, sid);
    var b := HandshakeSucceeds(start, a, 0, sid, false, Attestation, wn, pp);
    var c := TunnelOpens(start, b, 0, sid, false, Attestation, wn, pp, in1, out1);
    assert c.conns == [ReadyConnection(sid, false, Attestation, wn, pp)];
    var u := Upgrades(wn, pp, sid, keys, c);
    var v := ClientGoesOn(wn, pp, sid, u);
    var d := Reconnects(wn, pp, sid, v);
    var e := HandshakeSucceeds(start, d, 1, sid, false, Kubernetes, wn, pp);
    var t := TunnelOpens(start, e, 1, sid, false, Kubernetes, wn, pp, in2, out2);
  }
}
