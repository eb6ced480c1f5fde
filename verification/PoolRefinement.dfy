/** The operations of a pool manager, as the code runs them among the writes of frame, are runs of the protocol. */
module PoolRefinement {
  import opened Results
  import opened PoolStates
  import opened PoolProtocol
  import M = PoolManager

  /** A step of the protocol, or a write that somebody else gets in. */
  datatype Move = Own(step: Step) | Foreign(next: State)

  function AsSet(foreign: Option<State>): set<State> {
    if foreign.Some? then {foreign.value} else {}
  }

  /** The states that others write during an operation. */
  function Others(env: M.Env): set<State> {
    AsSet(env.earlier) + AsSet(env.meanwhile) + AttemptOthers(env.attempts)
  }

  function AttemptOthers(attempts: seq<M.Attempt>): set<State> {
    set a | a in attempts && a.foreign.Some? :: a.foreign.value
  }

  /** Manager `m` is called for `op` only, and others write only these states. */
  datatype Frame = Frame(m: nat, op: Op, others: set<State>)

  predicate CanMove(frame: Frame, s: System, move: Move) {
    match move
    case Own(step) => step.m == frame.m && (step.Call? ==> step.op == frame.op) && Enabled(s, step)
    case Foreign(next) => next in frame.others
  }

  function MoveOn(pool: seq<string>, frame: Frame, s: System, move: Move): System
    requires CanMove(frame, s, move)
  {
    match move
    case Own(step) => Apply(pool, s, step)
    case Foreign(next) => s.(store := Write(s.store, next))
  }

  predicate AllCan(pool: seq<string>, frame: Frame, s: System, moves: seq<Move>)
    decreases |moves|
  {
    moves == [] || (CanMove(frame, s, moves[0]) && AllCan(pool, frame, MoveOn(pool, frame, s, moves[0]), moves[1..]))
  }

  function After(pool: seq<string>, frame: Frame, s: System, moves: seq<Move>): System
    requires AllCan(pool, frame, s, moves)
    decreases |moves|
  {
    if moves == [] then s else After(pool, frame, MoveOn(pool, frame, s, moves[0]), moves[1..])
  }

  /** Some steps of the protocol, and writes of others, within the frame, lead from `s` to `t`. */
  ghost predicate Leads(pool: seq<string>, frame: Frame, s: System, t: System) {
    exists moves :: AllCan(pool, frame, s, moves) && After(pool, frame, s, moves) == t
  }

  lemma LeadsToItself(pool: seq<string>, frame: Frame, s: System)
    ensures Leads(pool, frame, s, s)
  {
    assert AllCan(pool, frame, s, []) && After(pool, frame, s, []) == s;
  }

  lemma {:induction false} OneMoreMove(pool: seq<string>, frame: Frame, s: System, moves: seq<Move>, move: Move)
    requires AllCan(pool, frame, s, moves) && CanMove(frame, After(pool, frame, s, moves), move)
    ensures AllCan(pool, frame, s, moves + [move]) && After(pool, frame, s, moves + [move]) == MoveOn(pool, frame, After(pool, frame, s, moves), move)
    decreases |moves|
  {
    if moves == [] {
      assert [move][1..] == [];
      assert AllCan(pool, frame, MoveOn(pool, frame, s, move), []);
    } else {
      OneMoreMove(pool, frame, MoveOn(pool, frame, s, moves[0]), moves[1..], move);
      assert (moves + [move])[1..] == moves[1..] + [move];
    }
  }

  lemma LeadsFurther(pool: seq<string>, frame: Frame, s: System, t: System, step: Step) returns (u: System)
    requires Leads(pool, frame, s, t) && Enabled(t, step) && step.m == frame.m && (step.Call? ==> step.op == frame.op)
    ensures u == Apply(pool, t, step) && Leads(pool, frame, s, u)
  {
    u := Apply(pool, t, step);
    var moves :| AllCan(pool, frame, s, moves) && After(pool, frame, s, moves) == t;
    OneMoreMove(pool, frame, s, moves, Own(step));
  }

  lemma ForeignLeads(pool: seq<string>, frame: Frame, s: System, t: System, foreign: Option<State>) returns (u: System)
    requires Leads(pool, frame, s, t) && AsSet(foreign) <= frame.others
    ensures u == t.(store := M.AfterForeign(t.store, foreign)) && Leads(pool, frame, s, u)
  {
    u := t;
    if foreign.Some? {
      u := t.(store := Write(t.store, foreign.value));
      var moves :| AllCan(pool, frame, s, moves) && After(pool, frame, s, moves) == t;
      OneMoreMove(pool, frame, s, moves, Foreign(foreign.value));
    }
  }

  /**
   One round of the update loop of the code, with a foreign write between its get and its put, is a fetch
   and then a commit, or a conflict after which the manager writes the same state again, or gives up if it
   has lost the race to create the ConfigMap.
   */
  lemma UpdateRoundIsProtocol(pool: seq<string>, s: System, m: nat, attempts: seq<M.Attempt>, k: nat)
    requires m in s.managers && s.managers[m].Computed? && k < M.MAX_ATTEMPTS && M.AttemptAt(attempts, k).getOK
    ensures Enabled(s, Fetch(m))
    ensures var a, next := M.AttemptAt(attempts, k), s.managers[m].next;
            var t := Apply(pool, s, Fetch(m));
            var u := t.(store := M.AfterForeign(t.store, a.foreign));
            var result := M.UpdateRun(s.store, next, attempts, k);
            if Version(u.store) == Version(s.store) then
              && Enabled(u, Commit(m, a.put.Acknowledged?))
              && result.0 == (if a.put.Refused? then u else Apply(pool, u, Commit(m, a.put.Acknowledged?))).store
              && (result.1.None? <==> a.put.Acknowledged?)
            else
              && Enabled(u, Conflict(m))
              && var v := Apply(pool, u, Conflict(m));
                && v.store == u.store
                && (if v.managers[m].Idle? then result == (v.store, Some(M.AlreadyExists))
                    else v.managers[m] == s.managers[m] && result == M.UpdateRun(v.store, next, attempts, k + 1))
  {
  }

  /** What a manager that has computed a state leaves behind when its update is over. */
  ghost predicate Updated(t: System, m: nat, result: (Option<ConfigMap>, Option<M.UpdateError>), u: System)
    requires m in t.managers && t.managers[m].Computed?
  {
    var task := t.managers[m];
    && u.managers == t.managers[m := Idle] && u.store == result.0
    && (result.1.None? && task.op.Alloc? && task.op.id in task.next.allocations ==>
          u.held == t.held[task.op.id := task.next.allocations[task.op.id].ip])
  }

  /** The update loop, with all its rounds, failures and foreign writes. */
  lemma {:induction false} UpdateIsRun(pool: seq<string>, frame: Frame, s: System, t: System, m: nat, attempts: seq<M.Attempt>, k: nat) returns (u: System)
    requires Leads(pool, frame, s, t) && m == frame.m && m in t.managers && t.managers[m].Computed? && k <= M.MAX_ATTEMPTS && AttemptOthers(attempts) <= frame.others
    ensures Leads(pool, frame, s, u) && Updated(t, m, M.UpdateRun(t.store, t.managers[m].next, attempts, k), u)
    decreases M.MAX_ATTEMPTS - k
  {
    var a := M.AttemptAt(attempts, k);
    if k == M.MAX_ATTEMPTS || !a.getOK {
      u := LeadsFurther(pool, frame, s, t, GiveUp(m));
    } else {
      UpdateRoundIsProtocol(pool, t, m, attempts, k);
      u := LeadsFurther(pool, frame, s, t, Fetch(m));
      assert AsSet(a.foreign) <= frame.others by {
        assert k < |attempts| ==> a in attempts;
      }
      u := ForeignLeads(pool, frame, s, u, a.foreign);
      if Version(u.store) != Version(t.store) {
        u := LeadsFurther(pool, frame, s, u, Conflict(m));
        if u.managers[m].Computed? {
          u := UpdateIsRun(pool, frame, s, u, m, attempts, k + 1);
        }
      } else if a.put.Refused? {
        u := LeadsFurther(pool, frame, s, u, GiveUp(m));
      } else {
        u := LeadsFurther(pool, frame, s, u, Commit(m, a.put.Acknowledged?));
      }
    }
  }

  /** The system after an operation: its manager is idle again, and the others have only written. */
  ghost predicate Outcome(pool: seq<string>, frame: Frame, s: System, store: Option<ConfigMap>, u: System) {
    Leads(pool, frame, s, u) && u.managers == s.managers && u.store == store
  }

  /** Undisturbed, an operation is a run of the protocol alone. */
  lemma {:induction false} QuietLeadsAreRuns(pool: seq<string>, frame: Frame, s: System, moves: seq<Move>)
    requires frame.others == {} && AllCan(pool, frame, s, moves)
    ensures exists steps :: Possible(pool, s, steps) && Run(pool, s, steps) == After(pool, frame, s, moves)
    decreases |moves|
  {
    if moves == [] {
      assert Possible(pool, s, []) && Run(pool, s, []) == s;
    } else {
      var t := Apply(pool, s, moves[0].step);
      QuietLeadsAreRuns(pool, frame, t, moves[1..]);
      var rest :| Possible(pool, t, rest) && Run(pool, t, rest) == After(pool, frame, t, moves[1..]);
      var steps := [moves[0].step] + rest;
      assert steps[1..] == rest;
      assert Possible(pool, s, steps) && Run(pool, s, steps) == Run(pool, t, rest);
    }
  }

  /** Any allocation, whatever fails and whoever writes; if it succeeds, its caller holds what is leased to the ID. */
  lemma AllocateIsRun(config: M.Config, s: System, m: nat, id: string, pod: string, env: M.Env) returns (u: System)
    requires m in s.managers && s.managers[m] == Idle
    ensures Outcome(config.pool, Frame(m, Alloc(id, pod), Others(env)), s, M.AllocateRun(config, s.store, id, pod, env).0, u)
    ensures M.AllocateRun(config, s.store, id, pod, env).1.Ok? ==>
              id in u.held && id in StoredLeases(u.store) && u.held[id] == StoredLeases(u.store)[id]
  {
    var pool, frame := config.pool, Frame(m, Alloc(id, pod), Others(env));
    LeadsToItself(pool, frame, s);
    var t := LeadsFurther(pool, frame, s, s, Call(m, Alloc(id, pod)));
    t := ForeignLeads(pool, frame, s, t, env.earlier);
    var cur := Current(pool, t.store, env.now);
    if !env.readOK {
      u := LeadsFurther(pool, frame, s, t, ReadFails(m, env.now));
    } else if id !in cur.allocations && cur.available != [] && (env.nodeName.None? || (!config.skipReadiness && !env.vmReady)) {
      u := LeadsFurther(pool, frame, s, t, GiveUp(m));
    } else {
      var node := if env.nodeName.Some? then env.nodeName.value else "";
      u := LeadsFurther(pool, frame, s, t, Read(m, config.seed(id), node, env.now));
      if u.managers[m].Computed? {
        u := ForeignLeads(pool, frame, s, u, env.meanwhile);
        M.UpdateIsAllOrNothing(u.store, u.managers[m].next, env.attempts, 0);
        u := UpdateIsRun(pool, frame, s, u, m, env.attempts, 0);
      }
    }
    assert u.managers == s.managers;
  }

  lemma DeallocateIsRun(config: M.Config, s: System, m: nat, id: string, env: M.Env) returns (u: System)
    requires m in s.managers && s.managers[m] == Idle
    ensures Outcome(config.pool, Frame(m, Dealloc(id), Others(env)), s, M.DeallocateRun(config, s.store, id, env).0, u)
  {
    var pool, frame := config.pool, Frame(m, Dealloc(id), Others(env));
    LeadsToItself(pool, frame, s);
    var t := LeadsFurther(pool, frame, s, s, Call(m, Dealloc(id)));
    t := ForeignLeads(pool, frame, s, t, env.earlier);
    if !env.readOK {
      u := LeadsFurther(pool, frame, s, t, ReadFails(m, env.now));
    } else {
      u := LeadsFurther(pool, frame, s, t, Read(m, 0, "", env.now));
      if u.managers[m].Computed? {
        u := ForeignLeads(pool, frame, s, u, env.meanwhile);
        u := UpdateIsRun(pool, frame, s, u, m, env.attempts, 0);
      }
    }
    assert u.managers == s.managers;
  }

  lemma RepairIsRun(config: M.Config, frame: Frame, s: System, t: System, m: nat, env: M.Env) returns (u: System)
    requires Leads(config.pool, frame, s, t) && m == frame.m && m in t.managers && t.managers[m] == Repairing && Others(env) <= frame.others
    ensures Leads(config.pool, frame, s, u) && u.managers == t.managers[m := Idle] && u.store == M.RepairRun(config, t.store, env).0
  {
    var pool := config.pool;
    u := ForeignLeads(pool, frame, s, t, env.earlier);
    if !env.readOK {
      u := LeadsFurther(pool, frame, s, u, ReadFails(m, env.now));
    } else {
      u := LeadsFurther(pool, frame, s, u, Read(m, 0, "", env.now));
      u := ForeignLeads(pool, frame, s, u, env.meanwhile);
      u := UpdateIsRun(pool, frame, s, u, m, env.attempts, 0);
    }
  }

  /** Any recovery: it reads, reads again and repairs, or after a failed first read starts anew. */
  lemma RecoverIsRun(config: M.Config, s: System, m: nat, env: M.Env, repair: M.Env) returns (u: System)
    requires m in s.managers && s.managers[m] == Idle
    ensures Outcome(config.pool, Frame(m, Recover, Others(env) + Others(repair)), s, M.RecoverRun(config, s.store, env, repair).0, u)
  {
    var pool, frame := config.pool, Frame(m, Recover, Others(env) + Others(repair));
    LeadsToItself(pool, frame, s);
    var t := LeadsFurther(pool, frame, s, s, Call(m, Recover));
    if env.nodeName.None? {
      u := LeadsFurther(pool, frame, s, t, GiveUp(m));
    } else {
      t := ForeignLeads(pool, frame, s, t, env.earlier);
      if env.readOK {
        t := LeadsFurther(pool, frame, s, t, Read(m, 0, "", env.now));
        u := RepairIsRun(config, frame, s, t, m, repair);
      } else {
        t := LeadsFurther(pool, frame, s, t, ReadFails(m, env.now));
        t := ForeignLeads(pool, frame, s, t, env.meanwhile);
        u := UpdateIsRun(pool, frame, s, t, m, env.attempts, 0);
      }
    }
    assert u.managers == s.managers;
  }
}
