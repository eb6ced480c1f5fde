/**
 The secure tunnels between a worker node (the SSH client) and a pod VM (the SSH server): the phase
 handshake of every connection, the phase filters on tunnels, and the one-way upgrade from the
 attestation phase to the Kubernetes phase.

 Messages on a connection may be delivered in any order, connections may close at any moment, and any
 number of client instances share the server.
 */
module SecureComms {
  import opened Results

  // ----- tags and phases -----

  datatype Phase = Attestation | Kubernetes

  datatype TagPhase = AttestationPhase | KubernetesPhase | BothPhases

  /** An inbound tag (a local listener) or an outbound tag (a local target). */
  datatype Tag = Tag(name: string, phase: TagPhase)

  datatype Tags = Tags(inbounds: seq<Tag>, outbounds: seq<Tag>)

  predicate Admits(tag: TagPhase, phase: Phase) {
    match tag
    case AttestationPhase => phase == Attestation
    case KubernetesPhase => phase == Kubernetes
    case BothPhases => true
  }

  /** The inbounds that a peer serves: those whose tag admits its phase. */
  function Served(inbounds: seq<Tag>, phase: Phase): seq<Tag> {
    if inbounds == [] then []
    else
      var rest := Served(inbounds[..|inbounds| - 1], phase);
      var last := inbounds[|inbounds| - 1];
      if (last.phase == KubernetesPhase && phase == Attestation) || (last.phase == AttestationPhase && phase == Kubernetes)
      then rest else rest + [last]
  }

  /** The outbounds by name; a later tag replaces an earlier one. */
  function ByName(outbounds: seq<Tag>): map<string, Tag> {
    if outbounds == [] then map[]
    else
      var last := outbounds[|outbounds| - 1];
      ByName(outbounds[..|outbounds| - 1])[last.name := last]
  }

  // ----- one connection -----

  /** How far the constructor of a peer, and the process that called it, have come. */
  datatype Stage = Checking | Failed | Verified | Tagged | Ready

  datatype Message =
    | PhaseRequest(phase: Phase)
    | PhaseReply(ok: bool, phase: Phase)
    | UpgradeRequest
    | UpgradeReply(ok: bool)
    | OpenTunnel(inbound: Tag)    // the acceptor reads only the name

  /** `blocked` is the tunnel request on which the loop of this end waits until the end is ready. */
  datatype End = End(
    phase: Phase, tags: Tags, stage: Stage, closed: bool, inbox: seq<Message>,
    inbounds: seq<Tag>, outbounds: map<string, Tag>, upgrade: bool, blocked: Option<Tag>)

  datatype Side = WorkerNode | PodVM

  /** `stored` says whether the client instance had found a stored secret of the peer pod. */
  datatype Connection = Connection(sid: string, stored: bool, wn: End, pp: End)

  function Other(side: Side): Side {
    if side == WorkerNode then PodVM else WorkerNode
  }

  function At(c: Connection, side: Side): End {
    if side == WorkerNode then c.wn else c.pp
  }

  function Put(c: Connection, side: Side, e: End): Connection {
    if side == WorkerNode then c.(wn := e) else c.(pp := e)
  }

  function Send(c: Connection, to: Side, m: Message): Connection {
    Put(c, to, At(c, to).(inbox := At(c, to).inbox + [m]))
  }

  function Take(e: End, i: nat): End
    requires i < |e.inbox|
  {
    e.(inbox := e.inbox[..i] + e.inbox[i + 1..])
  }

  function NewEnd(phase: Phase, peer: Phase, tags: Tags): End {
    End(phase, tags, Checking, false, [PhaseRequest(peer)], [], map[], false, None)
  }

  datatype Move =
    | Request(side: Side, i: nat)     // the loop of an end takes a request or a tunnel channel
    | Unblock(side: Side)             // the loop goes on once the end is ready
    | Reply(side: Side, i: nat)       // a reply reaches the sender of a request
    | AddTags(side: Side)
    | SetReady(side: Side)
    | Open(side: Side, k: nat)        // a local client connects to a served inbound
    | Fail(side: Side)                // the phase request of an end fails
    | Close(side: Side)

  predicate LoopRuns(e: End) {
    !e.closed && e.blocked.None?
  }

  predicate CanMove(c: Connection, m: Move) {
    var e := At(c, m.side);
    match m
    case Request(_, i) => LoopRuns(e) && i < |e.inbox| && !e.inbox[i].PhaseReply? && !e.inbox[i].UpgradeReply?
    case Unblock(_) => !e.closed && e.blocked.Some? && e.stage == Ready
    case Reply(_, i) => i < |e.inbox| && (e.inbox[i].UpgradeReply? || (e.inbox[i].PhaseReply? && e.stage == Checking))
    case AddTags(_) => e.stage == Verified
    case SetReady(_) => e.stage == Tagged
    case Open(_, k) => !e.closed && k < |e.inbounds|
    case Fail(_) => e.stage == Checking
    case Close(_) => !e.closed
  }

  /** The outbound through which a ready end accepts a tunnel, if it does. */
  function Accepting(e: End, inbound: Tag): Option<Tag> {
    if inbound.name !in e.outbounds then None
    else
      var outbound := e.outbounds[inbound.name];
      if || (outbound.phase == AttestationPhase && e.phase != Attestation)
         || (outbound.phase == KubernetesPhase && e.phase != Kubernetes)
      then None else Some(outbound)
  }

  function HandleRequest(c: Connection, side: Side, i: nat): Connection
    requires i < |At(c, side).inbox|
  {
    var e := Take(At(c, side), i);
    match At(c, side).inbox[i]
    case PhaseRequest(_) => Send(Put(c, side, e), Other(side), PhaseReply(true, e.phase))
    case UpgradeRequest =>
      if e.phase == Attestation then Send(Put(c, side, e.(upgrade := true)), Other(side), UpgradeReply(true))
      else Send(Put(c, side, e), Other(side), UpgradeReply(false))
    case OpenTunnel(inbound) => if e.stage == Ready then Put(c, side, e) else Put(c, side, e.(blocked := Some(inbound)))
    case _ => Put(c, side, e)
  }

  function HandleReply(e: End, i: nat): End
    requires i < |e.inbox|
  {
    match e.inbox[i]
    case PhaseReply(ok, phase) =>
      if ok && phase == e.phase then Take(e, i).(stage := Verified) else Take(e, i).(stage := Failed, closed := true)
    case _ => Take(e, i)
  }

  function MoveOn(c: Connection, m: Move): Connection
    requires CanMove(c, m)
  {
    var e := At(c, m.side);
    match m
    case Request(side, i) => HandleRequest(c, side, i)
    case Unblock(side) => Put(c, side, e.(blocked := None))
    case Reply(side, i) => Put(c, side, HandleReply(e, i))
    case AddTags(side) =>
      Put(c, side, e.(stage := Tagged, inbounds := Served(e.tags.inbounds, e.phase), outbounds := ByName(e.tags.outbounds)))
    case SetReady(side) => Put(c, side, e.(stage := Ready))
    case Open(side, k) => Send(c, Other(side), OpenTunnel(e.inbounds[k]))
    case Fail(side) => Put(c, side, e.(stage := Failed, closed := true))
    case Close(side) => Put(c, side, e.(closed := true))
  }

  /** The inbound tag of the tunnel request that a move hands to a ready end, if it hands one. */
  function Offered(c: Connection, m: Move): Option<Tag>
    requires CanMove(c, m)
  {
    var e := At(c, m.side);
    if m.Unblock? then e.blocked
    else if m.Request? && e.inbox[m.i].OpenTunnel? && e.stage == Ready then Some(e.inbox[m.i].inbound)
    else None
  }

  /** The inbound and outbound tags of the tunnel that a move accepts, if it accepts one. */
  function AcceptedBy(c: Connection, m: Move): Option<(Tag, Tag)>
    requires CanMove(c, m)
  {
    var inbound := Offered(c, m);
    if inbound.None? then None
    else match Accepting(At(c, m.side), inbound.value)
      case None => None
      case Some(outbound) => Some((inbound.value, outbound))
  }

  // ----- the processes -----

  datatype Keys = Keys(ppPrivate: seq<bv8>, wnPublic: seq<bv8>)

  /** Each state names the connection on which the server works, if any. */
  datatype ServerState =
    | Attesting(conn: Option<nat>)
    | Upgrading(on: nat)
    | Serving(conn: Option<nat>)

  datatype Server = Server(state: ServerState, config: Option<Keys>, tags: Tags)

  datatype ClientState = Idle | ClientAttesting(conn: Option<nat>) | ClientServing(conn: Option<nat>)

  datatype Client = Client(stored: bool, kubernetesPhase: bool, state: ClientState, tags: Tags)

  datatype Tunnel = Tunnel(conn: nat, opener: Side, inbound: Tag, outbound: Tag)

  datatype System = System(
    conns: seq<Connection>, server: Server, clients: map<string, Client>, secrets: set<string>, accepted: seq<Tunnel>)

  datatype Step =
    | InitPP(sid: string, tags: Tags)
    | Start(sid: string)
    | Connect(sid: string)
    | ClientDone(sid: string)                     // the wait for the peer ends
    | FetchKeys(keys: Keys, parsed: bool)         // `parsed`: both keys are well-formed
    | UpgradeDone
    | ServerNext
    | OnConnection(conn: nat, move: Move)

  /** The constructor of the peer has failed, or the peer was ready and its connection has closed. */
  predicate Over(e: End) {
    e.stage == Failed || (e.stage == Ready && e.closed)
  }

  predicate HasConn(s: System, conn: Option<nat>) {
    conn.Some? && conn.value < |s.conns|
  }

  predicate Enabled(s: System, step: Step) {
    match step
    case InitPP(_, _) => true
    case Start(sid) => sid in s.clients && s.clients[sid].state == Idle
    case Connect(sid) =>
      && sid in s.clients && s.clients[sid].state in {ClientAttesting(None), ClientServing(None)}
      && s.server.state in {Attesting(None), Serving(None)}
    case ClientDone(sid) =>
      && sid in s.clients && !s.clients[sid].state.Idle?
      && HasConn(s, s.clients[sid].state.conn) && Over(s.conns[s.clients[sid].state.conn.value].wn)
    case FetchKeys(_, _) =>
      && s.server.state.Attesting? && HasConn(s, s.server.state.conn)
      && s.conns[s.server.state.conn.value].pp.stage == Ready
    case UpgradeDone => s.server.state.Upgrading?
    case ServerNext =>
      match s.server.state {
        case Attesting(conn) => HasConn(s, conn) && s.conns[conn.value].pp.stage == Failed
        case Serving(conn) => HasConn(s, conn) && Over(s.conns[conn.value].pp)
        case _ => false
      }
    case OnConnection(conn, move) => conn < |s.conns| && CanMove(s.conns[conn], move)
  }

  predicate Usable(keys: Keys) {
    keys.ppPrivate != [] && keys.wnPublic != []
  }

  function NewConnection(sid: string, client: Client, server: Server): Connection
    requires !client.state.Idle? && !server.state.Upgrading?
  {
    var wn := if client.state.ClientServing? then Kubernetes else Attestation;
    var pp := if server.state.Serving? then Kubernetes else Attestation;
    Connection(sid, client.stored, NewEnd(wn, pp, client.tags), NewEnd(pp, wn, server.tags))
  }

  function AfterDone(client: Client, e: End): Client {
    if client.state.ClientServing? then client.(state := ClientServing(None))
    else if e.stage == Ready && e.upgrade then client.(kubernetesPhase := true, state := ClientServing(None))
    else client.(state := Idle)
  }

  function ApplyConnect(s: System, sid: string): System
    requires Enabled(s, Connect(sid))
  {
    var id := Some(|s.conns|);
    s.(conns := s.conns + [NewConnection(sid, s.clients[sid], s.server)],
       clients := s.clients[sid := s.clients[sid].(state := s.clients[sid].state.(conn := id))],
       server := s.server.(state := s.server.state.(conn := id)))
  }

  function ApplyKeys(s: System, keys: Keys, parsed: bool): System
    requires Enabled(s, FetchKeys(keys, parsed))
  {
    if !Usable(keys) || !parsed then s
    else
      var conn := s.server.state.conn.value;
      s.(server := s.server.(state := Upgrading(conn), config := Some(keys)),
         conns := s.conns[conn := Send(s.conns[conn], WorkerNode, UpgradeRequest)])
  }

  function ApplyMove(s: System, conn: nat, move: Move): System
    requires Enabled(s, OnConnection(conn, move))
  {
    var c := s.conns[conn];
    var tunnel := AcceptedBy(c, move);
    s.(conns := s.conns[conn := MoveOn(c, move)],
       accepted := if tunnel.None? then s.accepted
       else s.accepted + [Tunnel(conn, Other(move.side), tunnel.value.0, tunnel.value.1)])
  }

  function Apply(s: System, step: Step): System
    requires Enabled(s, step)
  {
    match step
    case InitPP(sid, tags) =>
      s.(clients := s.clients[sid := Client(sid in s.secrets, sid in s.secrets, Idle, tags)], secrets := s.secrets + {sid})
    case Start(sid) =>
      var client := s.clients[sid];
      s.(clients := s.clients[sid := client.(state := if client.kubernetesPhase then ClientServing(None) else ClientAttesting(None))])
    case Connect(sid) => ApplyConnect(s, sid)
    case ClientDone(sid) =>
      s.(clients := s.clients[sid := AfterDone(s.clients[sid], s.conns[s.clients[sid].state.conn.value].wn)])
    case FetchKeys(keys, parsed) => ApplyKeys(s, keys, parsed)
    case UpgradeDone => s.(server := s.server.(state := Serving(None)))
    case ServerNext => s.(server := s.server.(state := s.server.state.(conn := None)))
    case OnConnection(conn, move) => ApplyMove(s, conn, move)
  }

  /** `secrets` holds the names of the peer pods that had a stored secret before the run. */
  function Initial(tags: Tags, secrets: set<string>): System {
    System([], Server(Attesting(None), None, tags), map[], secrets, [])
  }

  predicate Possible(s: System, steps: seq<Step>)
    decreases |steps|
  {
    steps == [] || (Enabled(s, steps[0]) && Possible(Apply(s, steps[0]), steps[1..]))
  }

  function Run(s: System, steps: seq<Step>): System
    requires Possible(s, steps)
    decreases |steps|
  {
    if steps == [] then s else Run(Apply(s, steps[0]), steps[1..])
  }

  // ----- the invariant -----

  predicate PastCheck(e: End) {
    e.stage == Verified || e.stage == Tagged || e.stage == Ready
  }

  predicate PastTags(e: End) {
    e.stage == Tagged || e.stage == Ready
  }

  /** What a message on its way to an end says about the sender `o`. */
  predicate Truthful(m: Message, o: End, configured: bool) {
    match m
    case PhaseReply(_, phase) => phase == o.phase
    case UpgradeRequest => configured
    case OpenTunnel(inbound) => PastTags(o) && Admits(inbound.phase, o.phase)
    case _ => true
  }

  predicate EndOk(e: End, o: End, configured: bool) {
    && (PastCheck(e) ==> e.phase == o.phase)
    && (forall i | 0 <= i < |e.inbox| :: Truthful(e.inbox[i], o, configured))
    && (e.blocked.Some? ==> Truthful(OpenTunnel(e.blocked.value), o, configured))
    && (e.inbounds != [] ==> PastTags(e))
    && (forall k | 0 <= k < |e.inbounds| :: Admits(e.inbounds[k].phase, e.phase))
    && (PastTags(e) ==> e.inbounds == Served(e.tags.inbounds, e.phase) && e.outbounds == ByName(e.tags.outbounds))
    && (forall name | name in e.outbounds :: e.outbounds[name].name == name)
    && (e.upgrade ==> configured)
  }

  predicate ConnOk(c: Connection, configured: bool) {
    && EndOk(c.wn, c.pp, configured) && EndOk(c.pp, c.wn, configured)
    && (c.pp.phase == Kubernetes ==> configured)
    && (c.wn.phase == Kubernetes && !c.stored ==> configured)
  }

  predicate ClientOk(client: Client, configured: bool) {
    && (client.kubernetesPhase && !client.stored ==> configured)
    && (client.state.ClientServing? ==> client.kubernetesPhase)
    && (client.state.ClientAttesting? ==> !client.kubernetesPhase)
  }

  predicate TunnelOk(s: System, t: Tunnel) {
    && t.conn < |s.conns|
    && var c := s.conns[t.conn];
      && c.wn.phase == c.pp.phase
      && t.outbound.name == t.inbound.name
      && Admits(t.inbound.phase, At(c, t.opener).phase)
      && Admits(t.outbound.phase, At(c, Other(t.opener)).phase)
  }

  predicate Configured(s: System) {
    s.server.config.Some? && Usable(s.server.config.value)
  }

  predicate Inv(s: System) {
    && (!s.server.state.Attesting? ==> Configured(s))
    && (s.server.config.Some? ==> Configured(s))
    && (forall i | 0 <= i < |s.conns| :: ConnOk(s.conns[i], Configured(s)))
    && (forall sid | sid in s.clients :: ClientOk(s.clients[sid], Configured(s)))
    && (forall k | 0 <= k < |s.accepted| :: TunnelOk(s, s.accepted[k]))
  }

  // ----- tags -----

  lemma {:induction false} ServedAdmit(inbounds: seq<Tag>, phase: Phase)
    ensures forall tag | tag in Served(inbounds, phase) :: tag in inbounds && Admits(tag.phase, phase)
    ensures forall tag | tag in inbounds && Admits(tag.phase, phase) :: tag in Served(inbounds, phase)
  {
    if inbounds != [] {
      ServedAdmit(inbounds[..|inbounds| - 1], phase);
    }
  }

  lemma {:induction false} ByNameKeepsNames(outbounds: seq<Tag>)
    ensures forall name | name in ByName(outbounds) :: ByName(outbounds)[name].name == name && ByName(outbounds)[name] in outbounds
  {
    if outbounds != [] {
      ByNameKeepsNames(outbounds[..|outbounds| - 1]);
    }
  }

  /** The k-th outbound is the last one of that name. */
  predicate LastNamed(outbounds: seq<Tag>, name: string, k: int) {
    && 0 <= k < |outbounds| && outbounds[k].name == name
    && (forall j | k < j < |outbounds| :: outbounds[j].name != name)
  }

  lemma {:induction false} ByNameIsLast(outbounds: seq<Tag>, name: string)
    ensures name in ByName(outbounds) <==> exists k :: LastNamed(outbounds, name, k)
    ensures forall k | LastNamed(outbounds, name, k) :: name in ByName(outbounds) && ByName(outbounds)[name] == outbounds[k]
  {
    if outbounds != [] {
      var n := |outbounds| - 1;
      ByNameIsLast(outbounds[..n], name);
      if outbounds[n].name == name {
        assert LastNamed(outbounds, name, n);
      } else {
        forall k ensures LastNamed(outbounds, name, k) <==> LastNamed(outbounds[..n], name, k) {}
      }
    }
  }

  // ----- preservation, one connection -----

  /** Two ends that suit each other, as seen from either. */
  predicate PairOk(e: End, o: End, configured: bool) {
    EndOk(e, o, configured) && EndOk(o, e, configured)
  }

  lemma PutKeepsOk(c: Connection, side: Side, f: End, configured: bool)
    requires ConnOk(c, configured) && f.phase == At(c, side).phase && PairOk(f, At(c, Other(side)), configured)
    ensures ConnOk(Put(c, side, f), configured)
  {
  }

  /** A change of an end that the other end cannot see, besides its progress. */
  lemma {:induction false} UnseenChange(e: End, o: End, f: End, configured: bool)
    requires PairOk(e, o, configured) && EndOk(f, o, configured) && f.phase == e.phase && (PastTags(e) ==> PastTags(f))
    ensures PairOk(f, o, configured)
  {
    forall i | 0 <= i < |o.inbox| ensures Truthful(o.inbox[i], f, configured) {
      assert Truthful(o.inbox[i], e, configured);
    }
  }

  lemma {:induction false} MessageIsOk(e: End, o: End, m: Message, configured: bool)
    requires PairOk(e, o, configured) && Truthful(m, o, configured)
    ensures PairOk(e.(inbox := e.inbox + [m]), o, configured)
  {
    UnseenChange(e, o, e.(inbox := e.inbox + [m]), configured);
  }

  lemma SendKeepsOk(c: Connection, to: Side, m: Message, configured: bool)
    requires ConnOk(c, configured) && Truthful(m, At(c, Other(to)), configured)
    ensures ConnOk(Send(c, to, m), configured)
  {
    MessageIsOk(At(c, to), At(c, Other(to)), m, configured);
    PutKeepsOk(c, to, At(c, to).(inbox := At(c, to).inbox + [m]), configured);
  }

  lemma {:induction false} TakeIsOk(e: End, o: End, i: nat, configured: bool)
    requires PairOk(e, o, configured) && i < |e.inbox|
    ensures PairOk(Take(e, i), o, configured)
  {
    var f := Take(e, i);
    forall k | 0 <= k < |f.inbox| ensures Truthful(f.inbox[k], o, configured) {
      assert f.inbox[k] == e.inbox[if k < i then k else k + 1];
    }
    UnseenChange(e, o, f, configured);
  }

  lemma {:induction false} UpgradeIsOk(e: End, o: End, i: nat, configured: bool)
    requires PairOk(e, o, configured) && i < |e.inbox| && e.inbox[i].UpgradeRequest?
    ensures PairOk(Take(e, i).(upgrade := true), o, configured)
  {
    assert Truthful(e.inbox[i], o, configured);
    TakeIsOk(e, o, i, configured);
    UnseenChange(Take(e, i), o, Take(e, i).(upgrade := true), configured);
  }

  lemma {:induction false} BlockIsOk(e: End, o: End, i: nat, configured: bool)
    requires PairOk(e, o, configured) && i < |e.inbox| && e.inbox[i].OpenTunnel?
    ensures PairOk(Take(e, i).(blocked := Some(e.inbox[i].inbound)), o, configured)
  {
    assert Truthful(e.inbox[i], o, configured);
    TakeIsOk(e, o, i, configured);
    UnseenChange(Take(e, i), o, Take(e, i).(blocked := Some(e.inbox[i].inbound)), configured);
  }

  lemma {:induction false} ReplyIsOk(e: End, o: End, i: nat, configured: bool)
    requires PairOk(e, o, configured) && i < |e.inbox| && (e.inbox[i].UpgradeReply? || (e.inbox[i].PhaseReply? && e.stage == Checking))
    ensures PairOk(HandleReply(e, i), o, configured)
  {
    assert Truthful(e.inbox[i], o, configured);
    TakeIsOk(e, o, i, configured);
    UnseenChange(Take(e, i), o, HandleReply(e, i), configured);
  }

  lemma {:induction false} RequestKeepsOk(c: Connection, side: Side, i: nat, configured: bool)
    requires ConnOk(c, configured) && CanMove(c, Request(side, i))
    ensures ConnOk(HandleRequest(c, side, i), configured)
  {
    var e, o := At(c, side), At(c, Other(side));
    TakeIsOk(e, o, i, configured);
    PutKeepsOk(c, side, Take(e, i), configured);
    match e.inbox[i]
    case PhaseRequest(_) => SendKeepsOk(Put(c, side, Take(e, i)), Other(side), PhaseReply(true, e.phase), configured);
    case UpgradeRequest => UpgradeRequestKeepsOk(c, side, i, configured);
    case OpenTunnel(inbound) =>
      BlockIsOk(e, o, i, configured);
      PutKeepsOk(c, side, Take(e, i).(blocked := Some(inbound)), configured);
    case _ =>
  }

  lemma {:induction false} UpgradeRequestKeepsOk(c: Connection, side: Side, i: nat, configured: bool)
    requires ConnOk(c, configured) && i < |At(c, side).inbox| && At(c, side).inbox[i].UpgradeRequest?
    ensures ConnOk(HandleRequest(c, side, i), configured)
  {
    var e, o := At(c, side), At(c, Other(side));
    if e.phase == Attestation {
      UpgradeIsOk(e, o, i, configured);
      PutKeepsOk(c, side, Take(e, i).(upgrade := true), configured);
      SendKeepsOk(Put(c, side, Take(e, i).(upgrade := true)), Other(side), UpgradeReply(true), configured);
    } else {
      TakeIsOk(e, o, i, configured);
      PutKeepsOk(c, side, Take(e, i), configured);
      SendKeepsOk(Put(c, side, Take(e, i)), Other(side), UpgradeReply(false), configured);
    }
  }

  lemma {:induction false} ReplyKeepsOk(c: Connection, side: Side, i: nat, configured: bool)
    requires ConnOk(c, configured) && CanMove(c, Reply(side, i))
    ensures ConnOk(Put(c, side, HandleReply(At(c, side), i)), configured)
  {
    ReplyIsOk(At(c, side), At(c, Other(side)), i, configured);
    PutKeepsOk(c, side, HandleReply(At(c, side), i), configured);
  }

  lemma {:induction false} AddTagsKeepsOk(c: Connection, side: Side, configured: bool)
    requires ConnOk(c, configured) && CanMove(c, AddTags(side))
    ensures ConnOk(MoveOn(c, AddTags(side)), configured)
  {
    var e, f := At(c, side), At(MoveOn(c, AddTags(side)), side);
    ServedAdmit(e.tags.inbounds, e.phase);
    ByNameKeepsNames(e.tags.outbounds);
    UnseenChange(e, At(c, Other(side)), f, configured);
    PutKeepsOk(c, side, f, configured);
  }

  /** The end goes on, or stops. */
  predicate Progressed(e: End, f: End) {
    || f == e.(blocked := None)
    || (e.stage == Tagged && f == e.(stage := Ready))
    || (e.stage == Checking && f == e.(stage := Failed, closed := true))
    || f == e.(closed := true)
  }

  lemma {:induction false} ProgressIsOk(e: End, o: End, f: End, configured: bool)
    requires PairOk(e, o, configured) && Progressed(e, f)
    ensures PairOk(f, o, configured)
  {
    UnseenChange(e, o, f, configured);
  }

  lemma {:induction false} StageKeepsOk(c: Connection, m: Move, configured: bool)
    requires ConnOk(c, configured) && CanMove(c, m) && (m.Unblock? || m.SetReady? || m.Fail? || m.Close?)
    ensures ConnOk(MoveOn(c, m), configured)
  {
    var e, f := At(c, m.side), At(MoveOn(c, m), m.side);
    ProgressIsOk(e, At(c, Other(m.side)), f, configured);
    PutKeepsOk(c, m.side, f, configured);
  }

  lemma MoveKeepsOk(c: Connection, m: Move, configured: bool)
    requires ConnOk(c, configured) && CanMove(c, m)
    ensures ConnOk(MoveOn(c, m), configured)
  {
    match m
    case Request(side, i) => RequestKeepsOk(c, side, i, configured);
    case Reply(side, i) => ReplyKeepsOk(c, side, i, configured);
    case AddTags(side) => AddTagsKeepsOk(c, side, configured);
    case Open(side, k) => SendKeepsOk(c, Other(side), OpenTunnel(At(c, side).inbounds[k]), configured);
    case _ => StageKeepsOk(c, m, configured);
  }

  predicate SameIdentity(c: Connection, d: Connection) {
    d.sid == c.sid && d.stored == c.stored && d.wn.phase == c.wn.phase && d.pp.phase == c.pp.phase
  }

  lemma RequestKeepsIdentity(c: Connection, side: Side, i: nat)
    requires i < |At(c, side).inbox|
    ensures SameIdentity(c, HandleRequest(c, side, i))
  {
  }

  lemma MoveKeepsIdentity(c: Connection, m: Move)
    requires CanMove(c, m)
    ensures SameIdentity(c, MoveOn(c, m))
  {
    if m.Request? {
      RequestKeepsIdentity(c, m.side, m.i);
    }
  }

  /** A tunnel is accepted only by a ready end, and so only when both ends are in the same phase. */
  lemma AcceptedTunnelMatches(c: Connection, m: Move, configured: bool)
    requires ConnOk(c, configured) && CanMove(c, m) && AcceptedBy(c, m).Some?
    ensures c.wn.phase == c.pp.phase
    ensures AcceptedBy(c, m).value.0.name == AcceptedBy(c, m).value.1.name
    ensures Admits(AcceptedBy(c, m).value.0.phase, At(c, Other(m.side)).phase)
    ensures Admits(AcceptedBy(c, m).value.1.phase, At(c, m.side).phase)
  {
    if m.Request? {
      assert Truthful(At(c, m.side).inbox[m.i], At(c, Other(m.side)), configured);
    }
  }

  /**
   A ready end accepts a tunnel if and only if one of its outbounds has the name of the tunnel and the
   last one of that name admits the phase of the end; the tunnel goes to that outbound.
   */
  lemma OfferedTunnelIsAcceptedExactly(c: Connection, m: Move, configured: bool)
    requires ConnOk(c, configured) && CanMove(c, m) && Offered(c, m).Some?
    ensures var e, inbound := At(c, m.side), Offered(c, m).value;
            && (AcceptedBy(c, m).Some? <==>
                  exists k :: LastNamed(e.tags.outbounds, inbound.name, k) && Admits(e.tags.outbounds[k].phase, e.phase))
            && (forall k | LastNamed(e.tags.outbounds, inbound.name, k) && Admits(e.tags.outbounds[k].phase, e.phase) ::
                  AcceptedBy(c, m) == Some((inbound, e.tags.outbounds[k])))
  {
    ByNameIsLast(At(c, m.side).tags.outbounds, Offered(c, m).value.name);
  }

  /** Ends in different phases close as soon as they learn of it. */
  lemma MismatchClosesEnd(c: Connection, side: Side, i: nat, configured: bool)
    requires ConnOk(c, configured) && c.wn.phase != c.pp.phase && CanMove(c, Reply(side, i)) && At(c, side).inbox[i].PhaseReply?
    ensures var e := At(MoveOn(c, Reply(side, i)), side); e.stage == Failed && e.closed
  {
    assert Truthful(At(c, side).inbox[i], At(c, Other(side)), configured);
  }

  /**
   A tunnel request that comes before its end is ready is neither accepted nor lost: the end takes nothing
   else until it is ready, and then this request.
   */
  lemma EarlyTunnelWaits(c: Connection, side: Side, i: nat)
    requires CanMove(c, Request(side, i)) && At(c, side).inbox[i].OpenTunnel? && At(c, side).stage != Ready
    ensures AcceptedBy(c, Request(side, i)).None?
    ensures var d := MoveOn(c, Request(side, i));
            && (forall j: nat :: !CanMove(d, Request(side, j))) && !CanMove(d, Unblock(side))
            && (At(c, side).stage == Tagged ==>
                  && CanMove(d, SetReady(side))
                  && var e := MoveOn(d, SetReady(side));
                    && CanMove(e, Unblock(side)) && Offered(e, Unblock(side)) == Some(At(c, side).inbox[i].inbound)
                    && LoopRuns(At(MoveOn(e, Unblock(side)), side)))
  {
  }

  // ----- preservation, whole system -----

  lemma ConnOkMonotone(c: Connection, configured: bool)
    requires ConnOk(c, configured)
    ensures ConnOk(c, true)
  {
  }

  /** What a tunnel says about its connection stays true as long as the phases of the ends do. */
  lemma TunnelStaysOk(s: System, t: System, tunnel: Tunnel)
    requires TunnelOk(s, tunnel) && |s.conns| <= |t.conns|
    requires SameIdentity(s.conns[tunnel.conn], t.conns[tunnel.conn])
    ensures TunnelOk(t, tunnel)
  {
  }

  lemma MoveKeepsTunnels(s: System, conn: nat, move: Move)
    requires Inv(s) && Enabled(s, OnConnection(conn, move))
    ensures var t := ApplyMove(s, conn, move); forall k | 0 <= k < |t.accepted| :: TunnelOk(t, t.accepted[k])
  {
    var c := s.conns[conn];
    var t := ApplyMove(s, conn, move);
    MoveKeepsIdentity(c, move);
    if AcceptedBy(c, move).Some? {
      AcceptedTunnelMatches(c, move, Configured(s));
    }
    forall k | 0 <= k < |t.accepted| ensures TunnelOk(t, t.accepted[k]) {
      if k < |s.accepted| {
        TunnelStaysOk(s, t, s.accepted[k]);
      }
    }
  }

  lemma MoveStepKeepsInv(s: System, conn: nat, move: Move)
    requires Inv(s) && Enabled(s, OnConnection(conn, move))
    ensures Inv(Apply(s, OnConnection(conn, move)))
  {
    MoveKeepsOk(s.conns[conn], move, Configured(s));
    MoveKeepsTunnels(s, conn, move);
  }

  lemma KeysStepKeepsInv(s: System, keys: Keys, parsed: bool)
    requires Inv(s) && Enabled(s, FetchKeys(keys, parsed))
    ensures Inv(Apply(s, FetchKeys(keys, parsed)))
  {
    if Usable(keys) && parsed {
      var conn := s.server.state.conn.value;
      var t := ApplyKeys(s, keys, parsed);
      forall i | 0 <= i < |t.conns| ensures ConnOk(t.conns[i], true) {
        ConnOkMonotone(s.conns[i], Configured(s));
        if i == conn {
          SendKeepsOk(s.conns[i], WorkerNode, UpgradeRequest, true);
        }
      }
      forall k | 0 <= k < |t.accepted| ensures TunnelOk(t, t.accepted[k]) {
        assert TunnelOk(s, s.accepted[k]);
      }
    }
  }

  lemma ConnectStepKeepsInv(s: System, sid: string)
    requires Inv(s) && Enabled(s, Connect(sid))
    ensures Inv(Apply(s, Connect(sid)))
  {
    var t := ApplyConnect(s, sid);
    assert ClientOk(s.clients[sid], Configured(s));
    assert ConnOk(NewConnection(sid, s.clients[sid], s.server), Configured(s));
    forall k | 0 <= k < |t.accepted| ensures TunnelOk(t, t.accepted[k]) {
      assert TunnelOk(s, s.accepted[k]);
    }
  }

  lemma ProcessStepKeepsInv(s: System, step: Step)
    requires Inv(s) && Enabled(s, step)
    requires step.InitPP? || step.Start? || step.ClientDone? || step.UpgradeDone? || step.ServerNext?
    ensures Inv(Apply(s, step))
  {
    var t := Apply(s, step);
    if step.ClientDone? {
      var client := s.clients[step.sid];
      assert ConnOk(s.conns[client.state.conn.value], Configured(s));
      assert ClientOk(client, Configured(s));
    }
    forall sid | sid in t.clients ensures ClientOk(t.clients[sid], Configured(t)) {
      if sid in s.clients {
        assert ClientOk(s.clients[sid], Configured(s));
      }
    }
    forall k | 0 <= k < |t.accepted| ensures TunnelOk(t, t.accepted[k]) {
      assert TunnelOk(s, s.accepted[k]);
    }
  }

  lemma StepKeepsInv(s: System, step: Step)
    requires Inv(s) && Enabled(s, step)
    ensures Inv(Apply(s, step))
  {
    match step
    case OnConnection(conn, move) => MoveStepKeepsInv(s, conn, move);
    case FetchKeys(keys, parsed) => KeysStepKeepsInv(s, keys, parsed);
    case Connect(sid) => ConnectStepKeepsInv(s, sid);
    case _ => ProcessStepKeepsInv(s, step);
  }

  lemma {:induction false} RunKeepsInv(s: System, steps: seq<Step>)
    requires Inv(s) && Possible(s, steps)
    ensures Inv(Run(s, steps))
    decreases |steps|
  {
    if steps != [] {
      StepKeepsInv(s, steps[0]);
      RunKeepsInv(Apply(s, steps[0]), steps[1..]);
    }
  }

  // ----- main results -----

  /**
   In every run, every tunnel ever accepted is on a connection whose two ends are in the same phase, and
   that phase is admitted by the inbound tag of the opener and by the outbound tag of the acceptor.
   */
  lemma TunnelsStayInPhase(tags: Tags, secrets: set<string>, steps: seq<Step>)
    requires Possible(Initial(tags, secrets), steps)
    ensures var t := Run(Initial(tags, secrets), steps);
            forall k | 0 <= k < |t.accepted| :: TunnelOk(t, t.accepted[k])
  {
    RunKeepsInv(Initial(tags, secrets), steps);
  }

  /** In every run, an offered tunnel is accepted, through the last outbound of its name, exactly if that one admits the phase. */
  lemma TunnelsAreAcceptedExactly(tags: Tags, secrets: set<string>, steps: seq<Step>, conn: nat, move: Move)
    requires Possible(Initial(tags, secrets), steps)
    requires var s := Run(Initial(tags, secrets), steps);
             conn < |s.conns| && CanMove(s.conns[conn], move) && Offered(s.conns[conn], move).Some?
    ensures var s := Run(Initial(tags, secrets), steps);
            var e, inbound := At(s.conns[conn], move.side), Offered(s.conns[conn], move).value;
            var accepted := Apply(s, OnConnection(conn, move)).accepted;
            && (accepted != s.accepted <==>
                  exists k :: LastNamed(e.tags.outbounds, inbound.name, k) && Admits(e.tags.outbounds[k].phase, e.phase))
            && (forall k | LastNamed(e.tags.outbounds, inbound.name, k) && Admits(e.tags.outbounds[k].phase, e.phase) ::
                  accepted == s.accepted + [Tunnel(conn, Other(move.side), inbound, e.tags.outbounds[k])])
  {
    RunKeepsInv(Initial(tags, secrets), steps);
    var s := Run(Initial(tags, secrets), steps);
    assert ConnOk(s.conns[conn], Configured(s));
    OfferedTunnelIsAcceptedExactly(s.conns[conn], move, Configured(s));
  }

  /** In every run, an end that has its tags serves exactly those of its inbounds that admit its phase. */
  lemma InboundsAreServedExactly(tags: Tags, secrets: set<string>, steps: seq<Step>, conn: nat, side: Side, tag: Tag)
    requires Possible(Initial(tags, secrets), steps) && conn < |Run(Initial(tags, secrets), steps).conns|
    ensures var e := At(Run(Initial(tags, secrets), steps).conns[conn], side);
            tag in e.inbounds <==> PastTags(e) && tag in e.tags.inbounds && Admits(tag.phase, e.phase)
  {
    RunKeepsInv(Initial(tags, secrets), steps);
    var s := Run(Initial(tags, secrets), steps);
    assert ConnOk(s.conns[conn], Configured(s));
    ServedAdmit(At(s.conns[conn], side).tags.inbounds, At(s.conns[conn], side).phase);
  }

  // ----- where tags and keys come from -----

  /** Two non-empty and well-formed keys that the server has fetched. */
  ghost predicate Fetched(keys: Keys, past: seq<Step>) {
    keys.ppPrivate != [] && keys.wnPublic != [] && FetchKeys(keys, true) in past
  }

  /** The pod VM's end has the tags of the server; the worker node's has those given to an instance of its pod. */
  ghost predicate Traced(s: System, tags: Tags, past: seq<Step>) {
    && s.server.tags == tags
    && (s.server.config.Some? ==> Fetched(s.server.config.value, past))
    && (forall sid | sid in s.clients :: InitPP(sid, s.clients[sid].tags) in past)
    && (forall i | 0 <= i < |s.conns| :: s.conns[i].pp.tags == tags && InitPP(s.conns[i].sid, s.conns[i].wn.tags) in past)
  }

  lemma MoveKeepsTags(c: Connection, m: Move)
    requires CanMove(c, m)
    ensures MoveOn(c, m).sid == c.sid && MoveOn(c, m).wn.tags == c.wn.tags && MoveOn(c, m).pp.tags == c.pp.tags
  {
  }

  lemma {:induction false} StepKeepsTraced(s: System, step: Step, tags: Tags, past: seq<Step>)
    requires Traced(s, tags, past) && Enabled(s, step)
    ensures Traced(Apply(s, step), tags, past + [step])
  {
    assert forall x | x in past :: x in past + [step];
    assert (past + [step])[|past|] == step;
    if step.OnConnection? {
      MoveKeepsTags(s.conns[step.conn], step.move);
    }
  }

  lemma {:induction false} RunKeepsTraced(s: System, steps: seq<Step>, tags: Tags, past: seq<Step>)
    requires Traced(s, tags, past) && Possible(s, steps)
    ensures Traced(Run(s, steps), tags, past + steps)
    decreases |steps|
  {
    if steps == [] {
      assert past + steps == past;
    } else {
      StepKeepsTraced(s, steps[0], tags, past);
      RunKeepsTraced(Apply(s, steps[0]), steps[1..], tags, past + [steps[0]]);
      assert past + [steps[0]] + steps[1..] == past + steps;
    }
  }

  lemma EndsHaveConfiguredTags(tags: Tags, secrets: set<string>, steps: seq<Step>, conn: nat)
    requires Possible(Initial(tags, secrets), steps) && conn < |Run(Initial(tags, secrets), steps).conns|
    ensures var c := Run(Initial(tags, secrets), steps).conns[conn];
            c.pp.tags == tags && InitPP(c.sid, c.wn.tags) in steps
  {
    RunKeepsTraced(Initial(tags, secrets), steps, tags, []);
    assert [] + steps == steps;
  }

  lemma ConfigurationIsFetched(tags: Tags, secrets: set<string>, steps: seq<Step>)
    requires Possible(Initial(tags, secrets), steps) && Configured(Run(Initial(tags, secrets), steps))
    ensures Fetched(Run(Initial(tags, secrets), steps).server.config.value, steps)
  {
    RunKeepsTraced(Initial(tags, secrets), steps, tags, []);
    assert [] + steps == steps;
  }

  /**
   In every run, a client instance that found no stored secret has a Kubernetes-phase connection only if
   the server has built its configuration from two non-empty, well-formed keys that it has fetched.
   */
  lemma KubernetesPhaseFollowsConfiguration(tags: Tags, secrets: set<string>, steps: seq<Step>, i: nat)
    requires Possible(Initial(tags, secrets), steps)
    requires var t := Run(Initial(tags, secrets), steps);
             i < |t.conns| && t.conns[i].wn.phase == Kubernetes && !t.conns[i].stored
    ensures var config := Run(Initial(tags, secrets), steps).server.config;
            config.Some? && Fetched(config.value, steps)
  {
    RunKeepsInv(Initial(tags, secrets), steps);
    var t := Run(Initial(tags, secrets), steps);
    assert ConnOk(t.conns[i], Configured(t));
    ConfigurationIsFetched(tags, secrets, steps);
  }

  /** Whatever secrets were stored, no tunnel for the Kubernetes phase alone is accepted before that configuration. */
  lemma KubernetesTunnelsFollowConfiguration(tags: Tags, secrets: set<string>, steps: seq<Step>, k: nat)
    requires Possible(Initial(tags, secrets), steps)
    requires var t := Run(Initial(tags, secrets), steps);
             k < |t.accepted| && (t.accepted[k].inbound.phase == KubernetesPhase || t.accepted[k].outbound.phase == KubernetesPhase)
    ensures var config := Run(Initial(tags, secrets), steps).server.config;
            config.Some? && Fetched(config.value, steps)
  {
    RunKeepsInv(Initial(tags, secrets), steps);
    var t := Run(Initial(tags, secrets), steps);
    assert TunnelOk(t, t.accepted[k]);
    assert ConnOk(t.conns[t.accepted[k].conn], Configured(t));
    ConfigurationIsFetched(tags, secrets, steps);
  }

  /** The server leaves the attestation phase exactly on two non-empty and well-formed keys; any others change nothing. */
  lemma KeysUpgradeExactly(s: System, keys: Keys, parsed: bool)
    requires Enabled(s, FetchKeys(keys, parsed))
    ensures var t := Apply(s, FetchKeys(keys, parsed));
            && (t != s <==> keys.ppPrivate != [] && keys.wnPublic != [] && parsed)
            && (t != s ==> t.server.state.Upgrading? && UpgradeRequest in t.conns[s.server.state.conn.value].wn.inbox)
  {
    var i := s.server.state.conn.value;
    var inbox := s.conns[i].wn.inbox;
    assert (inbox + [UpgradeRequest])[|inbox|] == UpgradeRequest;
  }

  /** A client whose wait has ended connects again exactly if it is, or has just been upgraded to, the Kubernetes phase. */
  lemma ClientReconnectsExactly(tags: Tags, secrets: set<string>, steps: seq<Step>, sid: string)
    requires Possible(Initial(tags, secrets), steps) && Enabled(Run(Initial(tags, secrets), steps), ClientDone(sid))
    ensures var s := Run(Initial(tags, secrets), steps);
            var e := s.conns[s.clients[sid].state.conn.value].wn;
            var client := Apply(s, ClientDone(sid)).clients[sid];
            && (client.kubernetesPhase <==> s.clients[sid].kubernetesPhase || (e.stage == Ready && e.upgrade))
            && client.state == if client.kubernetesPhase then ClientServing(None) else Idle
  {
    RunKeepsInv(Initial(tags, secrets), steps);
    var s := Run(Initial(tags, secrets), steps);
    assert ClientOk(s.clients[sid], Configured(s));
  }

  /** The phase check of an end is never starved: the loop that must answer it is not waiting for a tunnel to be served. */
  lemma PhaseCheckIsAnswered(tags: Tags, secrets: set<string>, steps: seq<Step>, i: nat, side: Side)
    requires Possible(Initial(tags, secrets), steps)
    requires var t := Run(Initial(tags, secrets), steps);
             i < |t.conns| && At(t.conns[i], side).stage == Checking
    ensures At(Run(Initial(tags, secrets), steps).conns[i], Other(side)).blocked.None?
  {
    RunKeepsInv(Initial(tags, secrets), steps);
    var t := Run(Initial(tags, secrets), steps);
    assert ConnOk(t.conns[i], Configured(t));
  }

  // ----- no way back -----

  /** What `t` may be after `s`: connections keep their phases, and new ones follow the phases of the processes. */
  predicate NoWayBack(s: System, t: System) {
    && (s.server.state.Serving? ==> t.server.state.Serving?)
    && (!s.server.state.Attesting? ==> !t.server.state.Attesting?)
    && (forall sid | sid in s.clients && s.clients[sid].kubernetesPhase :: sid in t.clients && t.clients[sid].kubernetesPhase)
    && s.secrets <= t.secrets
    && |s.conns| <= |t.conns|
    && (forall i | 0 <= i < |s.conns| ::
          t.conns[i].sid == s.conns[i].sid && t.conns[i].wn.phase == s.conns[i].wn.phase && t.conns[i].pp.phase == s.conns[i].pp.phase)
    && (!s.server.state.Attesting? ==> forall i | |s.conns| <= i < |t.conns| :: t.conns[i].pp.phase == Kubernetes)
    && (forall i | |s.conns| <= i < |t.conns| && t.conns[i].sid in s.clients && s.clients[t.conns[i].sid].kubernetesPhase ::
          t.conns[i].wn.phase == Kubernetes)
  }

  /** Every client instance has its secret stored, so that a later instance resumes in the Kubernetes phase. */
  predicate SecretsKept(s: System) {
    forall sid | sid in s.clients :: sid in s.secrets
  }

  lemma ConnectHasNoWayBack(s: System, sid: string)
    requires Inv(s) && Enabled(s, Connect(sid))
    ensures NoWayBack(s, ApplyConnect(s, sid))
  {
    assert ClientOk(s.clients[sid], Configured(s));
  }

  lemma MoveHasNoWayBack(s: System, conn: nat, move: Move)
    requires Enabled(s, OnConnection(conn, move))
    ensures NoWayBack(s, ApplyMove(s, conn, move))
  {
    MoveKeepsIdentity(s.conns[conn], move);
  }

  lemma StepHasNoWayBack(s: System, step: Step)
    requires Inv(s) && SecretsKept(s) && Enabled(s, step)
    ensures NoWayBack(s, Apply(s, step)) && SecretsKept(Apply(s, step))
  {
    match step
    case OnConnection(conn, move) => MoveHasNoWayBack(s, conn, move);
    case Connect(sid) => ConnectHasNoWayBack(s, sid);
    case Start(sid) => assert ClientOk(s.clients[sid], Configured(s));
    case _ =>
  }

  lemma NoWayBackComposes(s: System, t: System, u: System)
    requires NoWayBack(s, t) && NoWayBack(t, u)
    ensures NoWayBack(s, u)
  {
    forall i | |s.conns| <= i < |u.conns| && u.conns[i].sid in s.clients && s.clients[u.conns[i].sid].kubernetesPhase
      ensures u.conns[i].wn.phase == Kubernetes
    {
      if i < |t.conns| {
        assert t.conns[i].sid == u.conns[i].sid;
      }
    }
  }

  lemma {:induction false} RunHasNoWayBack(s: System, steps: seq<Step>)
    requires Inv(s) && SecretsKept(s) && Possible(s, steps)
    ensures NoWayBack(s, Run(s, steps)) && SecretsKept(Run(s, steps)) && Inv(Run(s, steps))
    decreases |steps|
  {
    if steps != [] {
      var t := Apply(s, steps[0]);
      StepKeepsInv(s, steps[0]);
      StepHasNoWayBack(s, steps[0]);
      RunHasNoWayBack(t, steps[1..]);
      NoWayBackComposes(s, t, Run(t, steps[1..]));
    }
  }

  /** Between any two moments of a run, neither the server nor any client returns to the attestation phase. */
  lemma NeitherSideReturns(tags: Tags, secrets: set<string>, before: seq<Step>, after: seq<Step>)
    requires Possible(Initial(tags, secrets), before)
    requires Possible(Run(Initial(tags, secrets), before), after)
    ensures NoWayBack(Run(Initial(tags, secrets), before), Run(Run(Initial(tags, secrets), before), after))
  {
    RunHasNoWayBack(Initial(tags, secrets), before);
    RunHasNoWayBack(Run(Initial(tags, secrets), before), after);
  }

  /** A stored secret is no evidence of an attestation: such a client starts in the Kubernetes phase at once. */
  lemma StoredSecretSkipsAttestation(tags: Tags, sid: string)
    ensures var steps := [InitPP(sid, tags), Start(sid), Connect(sid)];
            && Possible(Initial(tags, {sid}), steps)
            && var t := Run(Initial(tags, {sid}), steps);
              |t.conns| == 1 && t.conns[0].wn.phase == Kubernetes && t.server.config.None?
  {
    var s0 := Initial(tags, {sid});
    var tail, rest, steps := [Connect(sid)], [Start(sid), Connect(sid)], [InitPP(sid, tags), Start(sid), Connect(sid)];
    assert tail[1..] == [] && rest[1..] == tail && steps[1..] == rest;
    var s1 := Apply(s0, steps[0]);
    var s2 := Apply(s1, rest[0]);
    var s3 := Apply(s2, tail[0]);
    assert Possible(s3, []) && Run(s3, []) == s3;
    assert Possible(s2, tail) && Run(s2, tail) == s3;
    assert Possible(s1, rest) && Run(s1, rest) == s3;
    assert Possible(s0, steps) && Run(s0, steps) == s3;
  }
}
