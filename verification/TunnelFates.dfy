/** What becomes of public connections and of tunnels, told from the operations
    alone: statements that do not look at how the manager keeps its tables. */
module TunnelFates {
  import opened Collections
  import opened PortPolicy
  import opened TunnelManager
  import opened TunnelRuns

  // ---- reachable states ----------------------------------------------------------------

  lemma {:induction false} RunSnoc(w: World, ops: seq<Op>, op: Op)
    requires Possible(w, ops) && (op.Open? ==> Openable(Run(w, ops), op.t, op.connID))
    ensures Possible(w, ops + [op]) && Run(w, ops + [op]) == Step(Run(w, ops), op)
    decreases |ops|
  {
    if ops == [] {
      assert [] + [op] == [op] && [op][1..] == [];
    } else {
      assert (ops + [op])[1..] == ops[1..] + [op];
      RunSnoc(Step(w, ops[0]), ops[1..], op);
    }
  }

  lemma ReachableStep(w: World, op: Op)
    requires Reachable(w) && (op.Open? ==> Openable(w, op.t, op.connID))
    ensures Reachable(Step(w, op))
  {
    var ops :| Possible(Start, ops) && w == Run(Start, ops);
    RunSnoc(Start, ops, op);
  }

  lemma {:induction false} ReachableRun(w: World, ops: seq<Op>)
    requires Reachable(w) && Possible(w, ops)
    ensures Reachable(Run(w, ops))
    decreases |ops|
  {
    if ops != [] {
      ReachableStep(w, ops[0]);
      ReachableRun(Step(w, ops[0]), ops[1..]);
    }
  }

  /** The next tunnel's id is new. */
  lemma NextIsNew(w: World, id: TunnelID)
    requires Reachable(w) && id in w.made
    ensures id != TunnelName(w.s.seqNo + 1)
  {
    ReachableIssued(w);
    NextNameIsNew(w.made, w.s.seqNo);
  }

  lemma WaitingWasOpened(w: World, c: ConnID)
    requires Reachable(w) && c in w.s.pending
    ensures c in w.begun
  {
    ReachableKeeps(w);
  }

  lemma RegisteredWasMade(w: World, id: TunnelID)
    requires Reachable(w) && id in w.s.tunnels
    ensures id in w.made && w.made[id] == w.s.tunnels[id] && w.made[id].id == id
  {
    ReachableKeeps(w);
  }

  lemma RegisterLeaves(s: State, q: Request, listens: bool)
    ensures var (s', r) := AfterRegister(s, q, listens);
      && s'.pending == s.pending && s'.exits == s.exits
      && (r.Ok? ==> r.value.id == TunnelName(s.seqNo + 1))
      && (s'.tunnels == s.tunnels || (r.Ok? && s'.tunnels == s.tunnels[TunnelName(s.seqNo + 1) := r.value]))
  {
  }

  lemma AddVhostLeaves(s: State, name: string, host: string, maxTunnels: int)
    ensures var (s', r) := AfterAddVhost(s, name, host, maxTunnels);
      && s'.pending == s.pending && s'.exits == s.exits
      && (r.Ok? ==> r.value.id == TunnelName(s.seqNo + 1))
      && (s'.tunnels == s.tunnels || (r.Ok? && s'.tunnels == s.tunnels[TunnelName(s.seqNo + 1) := r.value]))
  {
  }

  /** What one step does to a tunnel that was made: nothing, unless it is
      unregistered. */
  lemma TunnelStep(w: World, op: Op, id: TunnelID)
    requires id in w.made && id != TunnelName(w.s.seqNo + 1)
    ensures var v := Step(w, op);
      && id in v.made && v.made[id] == w.made[id]
      && (id in v.s.tunnels <==> id in w.s.tunnels && op != Unregister(id))
      && (id in v.s.tunnels ==> v.s.tunnels[id] == w.s.tunnels[id])
  {
    match op
    case Register(q, listens) => RegisterLeaves(w.s, q, listens);
    case AddVhost(name, host, maxTunnels) => AddVhostLeaves(w.s, name, host, maxTunnels);
    case _ =>
  }

  // ---- the fate of one connection -----------------------------------------------------

  /** Waiting still, handed to the claim made at `at`, or closed. */
  datatype Fate = Waits | Reached(at: int) | Dropped

  /** What becomes of a connection, by what is done after it was opened: a claim
      reaches it until its deadline, if its tunnel is still there; a late claim, a
      claim without the tunnel, a clean-up after the deadline and the end of the
      tunnel close it; nothing else concerns it. */
  ghost function FateOf(c: ConnID, tid: TunnelID, deadline: int, alive: bool, ops: seq<Op>): Fate
    decreases |ops|
  {
    if ops == [] then Waits
    else
      match ops[0]
      case Claim(id, now) =>
        if id != c then FateOf(c, tid, deadline, alive, ops[1..])
        else if alive && now <= deadline then Reached(now) else Dropped
      case Cleanup(now) => if now > deadline then Dropped else FateOf(c, tid, deadline, alive, ops[1..])
      case Unregister(id) => if alive && id == tid then Dropped else FateOf(c, tid, deadline, alive, ops[1..])
      case _ => FateOf(c, tid, deadline, alive, ops[1..])
  }

  /** The state agrees with the fate. */
  ghost predicate Agrees(s: State, c: ConnID, conn: Option<nat>, t: Tunnel, deadline: int, fate: Fate) {
    match fate
    case Waits => c in s.pending && s.pending[c] == Pending(conn, t.id, deadline)
    case Reached(at) => c !in s.pending && Handed(c, conn, t, at) in s.exits
    case Dropped => c !in s.pending && Closed(c, conn) in s.exits
  }

  lemma FateOfOne(c: ConnID, tid: TunnelID, deadline: int, alive: bool, op: Op)
    ensures FateOf(c, tid, deadline, alive, [op])
         == match op
            case Claim(id, now) => if id != c then Waits else if alive && now <= deadline then Reached(now) else Dropped
            case Cleanup(now) => if now > deadline then Dropped else Waits
            case Unregister(id) => if alive && id == tid then Dropped else Waits
            case _ => Waits
  {
    assert [op][1..] == [];
    assert FateOf(c, tid, deadline, alive, []) == Waits;
  }

  /** What one step does to a waiting connection. */
  lemma FateStep(w: World, op: Op, c: ConnID, t: Tunnel)
    requires c in w.s.pending && w.s.pending[c].tunnelID == t.id
    requires t.id in w.s.tunnels ==> w.s.tunnels[t.id] == t
    requires op.Open? ==> op.connID != c
    ensures var pc := w.s.pending[c];
      Agrees(Step(w, op).s, c, pc.conn, t, pc.deadline, FateOf(c, t.id, pc.deadline, t.id in w.s.tunnels, [op]))
  {
    FateOfOne(c, t.id, w.s.pending[c].deadline, t.id in w.s.tunnels, op);
    match op
    case Register(q, listens) => RegisterLeaves(w.s, q, listens);
    case AddVhost(name, host, maxTunnels) => AddVhostLeaves(w.s, name, host, maxTunnels);
    case Unregister(id) => FateUnregister(w, id, c, t);
    case Claim(id, now) => FateClaim(w.s, id, now, c, t);
    case Cleanup(now) => ClosedByDrop(w.s, Overdue(w.s.pending, now), c);
    case _ =>
  }

  lemma FateClaim(s: State, id: ConnID, now: int, c: ConnID, t: Tunnel)
    requires c in s.pending && s.pending[c].tunnelID == t.id && (t.id in s.tunnels ==> s.tunnels[t.id] == t)
    ensures var s', pc := AfterClaim(s, id, now).0, s.pending[c];
      if id != c then c in s'.pending && s'.pending[c] == pc
      else
        && c !in s'.pending
        && (if t.id in s.tunnels && now <= pc.deadline
            then Handed(c, pc.conn, t, now) in s'.exits else Closed(c, pc.conn) in s'.exits)
  {
  }

  lemma FateUnregister(w: World, id: TunnelID, c: ConnID, t: Tunnel)
    requires c in w.s.pending && w.s.pending[c].tunnelID == t.id
    ensures var s := AfterUnregister(w.s, id);
      if id in w.s.tunnels && id == t.id then c !in s.pending && Closed(c, w.s.pending[c].conn) in s.exits
      else c in s.pending && s.pending[c] == w.s.pending[c]
  {
    if id in w.s.tunnels {
      ClosedByDrop(w.s, OfTunnel(w.s.pending, id), c);
    }
  }

  lemma ClosedByDrop(s: State, doomed: set<ConnID>, c: ConnID)
    requires c in s.pending
    ensures var t := Drop(s, doomed);
      if c in doomed then c !in t.pending && Closed(c, s.pending[c].conn) in t.exits
      else c in t.pending && t.pending[c] == s.pending[c]
  {
    if c in doomed {
      assert Closed(c, s.pending[c].conn) in (set k | k in doomed && k in s.pending :: Closed(k, s.pending[k].conn));
    }
  }

  /** Exits are never taken back, and what was opened is not opened again. */
  lemma ExitStep(w: World, op: Op, c: ConnID, e: Exit)
    requires c in w.begun && c !in w.s.pending && e in w.s.exits && (op.Open? ==> op.connID !in w.begun)
    ensures var v := Step(w, op); c in v.begun && c !in v.s.pending && e in v.s.exits
  {
    match op
    case Register(q, listens) => RegisterLeaves(w.s, q, listens);
    case AddVhost(name, host, maxTunnels) => AddVhostLeaves(w.s, name, host, maxTunnels);
    case _ =>
  }

  /** What has left stays as it left. */
  lemma {:induction false} ExitsStay(w: World, ops: seq<Op>, c: ConnID, e: Exit)
    requires Possible(w, ops) && c in w.begun && c !in w.s.pending && e in w.s.exits
    ensures c !in Run(w, ops).s.pending && e in Run(w, ops).s.exits
    decreases |ops|
  {
    if ops != [] {
      ExitStep(w, ops[0], c, e);
      ExitsStay(Step(w, ops[0]), ops[1..], c, e);
    }
  }

  /** A waiting connection and the tunnel it was opened for. */
  ghost predicate WaitsFor(w: World, c: ConnID, pc: Pending, t: Tunnel) {
    && c in w.s.pending && w.s.pending[c] == pc && pc.tunnelID == t.id && c in w.begun
    && t.id in w.made && w.made[t.id] == t
    && (t.id in w.s.tunnels ==> w.s.tunnels[t.id] == t)
  }

  lemma BegunStays(w: World, op: Op, c: ConnID)
    requires c in w.begun
    ensures c in Step(w, op).begun
  {
  }

  lemma {:induction false} FateRuns(w: World, ops: seq<Op>, c: ConnID, pc: Pending, t: Tunnel)
    requires Reachable(w) && Possible(w, ops) && WaitsFor(w, c, pc, t)
    ensures var fate := FateOf(c, t.id, pc.deadline, t.id in w.s.tunnels, ops);
      && Agrees(Run(w, ops).s, c, pc.conn, t, pc.deadline, fate)
      && (fate == Waits ==> (t.id in Run(w, ops).s.tunnels <==> t.id in w.s.tunnels))
      && (fate == Waits && t.id in w.s.tunnels ==> Run(w, ops).s.tunnels[t.id] == t)
    decreases |ops|
  {
    if ops != [] {
      var w' := Step(w, ops[0]);
      FateHead(c, t.id, pc.deadline, t.id in w.s.tunnels, ops);
      FateStep(w, ops[0], c, t);
      NextIsNew(w, t.id);
      TunnelStep(w, ops[0], t.id);
      BegunStays(w, ops[0], c);
      ReachableStep(w, ops[0]);
      match FateOf(c, t.id, pc.deadline, t.id in w.s.tunnels, [ops[0]])
      case Waits => FateRuns(w', ops[1..], c, pc, t);
      case Reached(at) => ExitsStay(w', ops[1..], c, Handed(c, pc.conn, t, at));
      case Dropped => ExitsStay(w', ops[1..], c, Closed(c, pc.conn));
    }
  }

  lemma FateHead(c: ConnID, tid: TunnelID, deadline: int, alive: bool, ops: seq<Op>)
    requires ops != []
    ensures var head := FateOf(c, tid, deadline, alive, [ops[0]]);
      FateOf(c, tid, deadline, alive, ops) == if head == Waits then FateOf(c, tid, deadline, alive, ops[1..]) else head
  {
    assert [ops[0]][1..] == [];
  }

  lemma OpenedWaits(w: World, t: Tunnel, conn: Option<nat>, c: ConnID, timeout: int, now: int)
    requires Reachable(w) && Openable(w, t, c)
    ensures var w' := Step(w, Open(t, conn, c, timeout, now));
      && WaitsFor(w', c, Pending(conn, t.id, if timeout > 0 then now + timeout else now + TEN_SECONDS), t)
      && w'.s.tunnels == w.s.tunnels && Reachable(w')
  {
    ReachableStep(w, Open(t, conn, c, timeout, now));
    if t.id in w.s.tunnels {
      RegisteredWasMade(w, t.id);
    }
  }

  /** A connection opened in any reachable state, with the deadline it was given,
      meets exactly the fate that the operations after it decide: it is handed
      over itself, to its tunnel, to the first claim in time, or it is closed, or
      it waits unchanged. */
  lemma FateIsDecided(w: World, t: Tunnel, conn: Option<nat>, c: ConnID, timeout: int, now: int, ops: seq<Op>)
    requires Reachable(w) && Openable(w, t, c) && Possible(Step(w, Open(t, conn, c, timeout, now)), ops)
    ensures var deadline := if timeout > 0 then now + timeout else now + TEN_SECONDS;
      Agrees(Run(Step(w, Open(t, conn, c, timeout, now)), ops).s, c, conn, t, deadline,
             FateOf(c, t.id, deadline, t.id in w.s.tunnels, ops))
  {
    var deadline := if timeout > 0 then now + timeout else now + TEN_SECONDS;
    OpenedWaits(w, t, conn, c, timeout, now);
    FateRuns(Step(w, Open(t, conn, c, timeout, now)), ops, c, Pending(conn, t.id, deadline), t);
  }

  /** What a claim answers after any such operations: the connection and its
      tunnel while it waits, in time and with the tunnel there; too late; the
      tunnel gone; and nothing once it has met its fate. */
  lemma ClaimAnswers(w: World, t: Tunnel, conn: Option<nat>, c: ConnID, timeout: int, now: int, ops: seq<Op>,
                     later: int)
    requires Reachable(w) && Openable(w, t, c) && Possible(Step(w, Open(t, conn, c, timeout, now)), ops)
    ensures var deadline := if timeout > 0 then now + timeout else now + TEN_SECONDS;
      AfterClaim(Run(Step(w, Open(t, conn, c, timeout, now)), ops).s, c, later).1
      == if FateOf(c, t.id, deadline, t.id in w.s.tunnels, ops) != Waits then Refused(UnknownConn)
         else if later > deadline then Refused(ClaimTimeout)
         else if t.id !in w.s.tunnels then Refused(TunnelGone)
         else Ok((conn, t))
  {
    var deadline := if timeout > 0 then now + timeout else now + TEN_SECONDS;
    OpenedWaits(w, t, conn, c, timeout, now);
    FateRuns(Step(w, Open(t, conn, c, timeout, now)), ops, c, Pending(conn, t.id, deadline), t);
  }

  // ---- registrations ------------------------------------------------------------------

  /** When a registration succeeds, and what it changes: exactly below a positive
      limit, for a port number the policy admits, that is free, and that the
      system lets it listen on. */
  lemma RegisterOutcome(s: State, q: Request, listens: bool)
    ensures var (s', r) := AfterRegister(s, q, listens);
      && (r.Ok? <==>
            && (q.maxTunnels > 0 ==> |s.tunnels| < q.maxTunnels)
            && 1 <= q.port <= 65535 && Admitted(q.allowed, q.port) && q.port !in s.ports && listens)
      && (r.Ok? ==>
            && r.value.name == q.name && r.value.typ == q.typ && r.value.remotePort == q.port && r.value.vhostHost == ""
            && s'.tunnels == s.tunnels[r.value.id := r.value] && s'.ports == s.ports[q.port := r.value.id])
      && (r.Refused? ==> s'.tunnels == s.tunnels && s'.ports == s.ports)
      && s'.pending == s.pending && s'.exits == s.exits
  {
  }

  /** Why a registration is refused: for the first thing wrong with it. */
  lemma RegisterRefusals(s: State, q: Request, listens: bool)
    requires AfterRegister(s, q, listens).1.Refused?
    ensures var why := AfterRegister(s, q, listens).1.why;
      var full := q.maxTunnels > 0 && |s.tunnels| >= q.maxTunnels;
      var valid := 1 <= q.port <= 65535;
      && (why == LimitReached <==> full)
      && (why == InvalidPort <==> !full && !valid)
      && (why == NotAllowed <==> !full && valid && !Admitted(q.allowed, q.port))
      && (why == PortInUse <==> !full && valid && Admitted(q.allowed, q.port) && q.port in s.ports)
      && (why == ListenFailed <==> !full && valid && Admitted(q.allowed, q.port) && q.port !in s.ports && !listens)
  {
  }

  lemma VhostOutcome(s: State, name: string, host: string, maxTunnels: int)
    ensures var (s', r) := AfterAddVhost(s, name, host, maxTunnels);
      && (r.Ok? <==> maxTunnels <= 0 || |s.tunnels| < maxTunnels)
      && (r.Refused? ==> r.why == LimitReached && s' == s)
      && (r.Ok? ==>
            && r.value.name == name && r.value.vhostHost == host && r.value.typ == "http" && r.value.remotePort == 0
            && s'.tunnels == s.tunnels[r.value.id := r.value] && s'.ports == s.ports
            && s'.pending == s.pending && s'.exits == s.exits)
  {
  }

  ghost predicate Unregisters(ops: seq<Op>, id: TunnelID) {
    exists i :: 0 <= i < |ops| && ops[i] == Unregister(id)
  }

  /** A tunnel registered at some point is there, with its port, exactly until it
      is unregistered; from then on its id is never registered again. */
  lemma TunnelLivesUntilUnregistered(w: World, ops: seq<Op>, id: TunnelID)
    requires Reachable(w) && Possible(w, ops) && id in w.s.tunnels
    ensures var s, t := Run(w, ops).s, w.s.tunnels[id];
      && (id in s.tunnels <==> !Unregisters(ops, id))
      && (id in s.tunnels ==> s.tunnels[id] == t)
      && (id in s.tunnels && t.remotePort != 0 ==> t.remotePort in s.ports && s.ports[t.remotePort] == id)
  {
    RegisteredWasMade(w, id);
    LivesOn(w, ops, id);
    ReachableRun(w, ops);
    RegistryHolds(Run(w, ops));
  }

  lemma {:induction false} LivesOn(w: World, ops: seq<Op>, id: TunnelID)
    requires Reachable(w) && Possible(w, ops) && id in w.made
    ensures id in Run(w, ops).s.tunnels <==> id in w.s.tunnels && !Unregisters(ops, id)
    ensures id in Run(w, ops).s.tunnels ==> Run(w, ops).s.tunnels[id] == w.s.tunnels[id]
    decreases |ops|
  {
    if ops != [] {
      NextIsNew(w, id);
      TunnelStep(w, ops[0], id);
      ReachableStep(w, ops[0]);
      UnregistersHead(ops, id);
      LivesOn(Step(w, ops[0]), ops[1..], id);
    }
  }

  lemma UnregistersHead(ops: seq<Op>, id: TunnelID)
    requires ops != []
    ensures Unregisters(ops, id) <==> ops[0] == Unregister(id) || Unregisters(ops[1..], id)
  {
    if Unregisters(ops[1..], id) {
      var i :| 0 <= i < |ops[1..]| && ops[1..][i] == Unregister(id);
      assert ops[i + 1] == Unregister(id);
    }
    if Unregisters(ops, id) && ops[0] != Unregister(id) {
      var i :| 0 <= i < |ops| && ops[i] == Unregister(id);
      assert ops[1..][i - 1] == Unregister(id);
    }
  }

  /** Once a tunnel is unregistered its port can be registered again. */
  lemma UnregisterFreesPort(w: World, id: TunnelID)
    requires Reachable(w) && id in w.s.tunnels && w.s.tunnels[id].remotePort != 0
    ensures var s := Step(w, Unregister(id)).s;
      && s.tunnels == w.s.tunnels - {id} && w.s.tunnels[id].remotePort !in s.ports
      && (forall p :: p in w.s.ports && p != w.s.tunnels[id].remotePort ==> p in s.ports && s.ports[p] == w.s.ports[p])
  {
  }

  // ---- the policy, end to end ----------------------------------------------------------

  /** Every registration carries a list that start-up accepted. */
  ghost predicate UnderPolicy(ops: seq<Op>, ctlPort: int, enrollPort: int) {
    forall i :: 0 <= i < |ops| && ops[i].Register? ==> Configured(ops[i].q.allowed, ctlPort, enrollPort)
  }

  ghost predicate Configured(allowed: seq<string>, ctlPort: int, enrollPort: int) {
    exists configured :: allowed == EffectivePorts(configured) && AcceptedPorts(allowed, ctlPort, enrollPort)
  }

  /** No run under an accepted configuration ever gives a client the control port
      or a configured enroll port. */
  lemma {:induction false} ListenersNeverClaimed(w: World, ops: seq<Op>, ctlPort: int, enrollPort: int)
    requires UnderPolicy(ops, ctlPort, enrollPort)
    requires ctlPort !in w.s.ports && (enrollPort != 0 ==> enrollPort !in w.s.ports)
    ensures ctlPort !in Run(w, ops).s.ports && (enrollPort != 0 ==> enrollPort !in Run(w, ops).s.ports)
    decreases |ops|
  {
    if ops != [] {
      if ops[0].Register? {
        var configured :| ops[0].q.allowed == EffectivePorts(configured)
          && AcceptedPorts(ops[0].q.allowed, ctlPort, enrollPort);
        ListenersNeverAdmitted(configured, ctlPort, enrollPort);
        RegisterOutcome(w.s, ops[0].q, ops[0].listens);
      }
      ListenersNeverClaimed(Step(w, ops[0]), ops[1..], ctlPort, enrollPort);
    }
  }
}
