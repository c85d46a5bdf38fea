/** Whole runs of the tunnel manager: any interleaving of registrations,
    un-registrations, public connections, claims and clean-ups. */
module TunnelRuns {
  import opened Collections
  import opened TunnelManager

  datatype Op =
    | Register(q: Request, listens: bool)
    | AddVhost(name: string, host: string, maxTunnels: int)
    | Unregister(id: TunnelID)
    | Open(t: Tunnel, conn: Option<nat>, connID: ConnID, timeout: int, now: int)
    | Claim(connID: ConnID, now: int)
    | Cleanup(now: int)

  /** The manager with its history: every conn id ever opened, and every tunnel
      ever handed out. */
  datatype World = World(s: State, begun: map<ConnID, Pending>, made: map<TunnelID, Tunnel>)

  const Start: World := World(Empty, map[], map[])

  ghost function Created(w: World, r: (State, Outcome<Tunnel>)): World {
    w.(s := r.0, made := if r.1.Ok? then w.made[r.1.value.id := r.1.value] else w.made)
  }

  const TEN_SECONDS := 10_000_000_000

  /** What the table must hold for a connection: the connection itself, its
      tunnel, and a deadline after the timeout asked for, or after ten seconds if
      none was. */
  ghost function Opened(t: Tunnel, conn: Option<nat>, timeout: int, now: int): Pending {
    Pending(conn, t.id, if timeout > 0 then now + timeout else now + TEN_SECONDS)
  }

  ghost function Step(w: World, op: Op): World {
    match op
    case Register(q, listens) => Created(w, AfterRegister(w.s, q, listens))
    case AddVhost(name, host, maxTunnels) => Created(w, AfterAddVhost(w.s, name, host, maxTunnels))
    case Unregister(id) => w.(s := AfterUnregister(w.s, id))
    case Open(t, conn, connID, timeout, now) =>
      w.(s := AfterOpen(w.s, t, conn, connID, timeout, now), begun := w.begun[connID := Opened(t, conn, timeout, now)])
    case Claim(connID, now) => w.(s := AfterClaim(w.s, connID, now).0)
    case Cleanup(now) => w.(s := Drop(w.s, Overdue(w.s.pending, now)))
  }

  ghost function Run(w: World, ops: seq<Op>): World
    decreases |ops|
  {
    if ops == [] then w else Run(Step(w, ops[0]), ops[1..])
  }

  /** Connections are opened for tunnels the manager once returned (they may be
      gone by now), under conn ids the random source has not produced before. */
  ghost predicate Possible(w: World, ops: seq<Op>)
    decreases |ops|
  {
    ops != [] ==>
      && (ops[0].Open? ==> Openable(w, ops[0].t, ops[0].connID))
      && Possible(Step(w, ops[0]), ops[1..])
  }

  ghost predicate Openable(w: World, t: Tunnel, connID: ConnID) {
    t.id in w.made && w.made[t.id] == t && connID !in w.begun
  }

  // ---- the registry ------------------------------------------------------------

  ghost predicate Issued(id: TunnelID, seqNo: nat) {
    exists n: nat :: n <= seqNo && id == TunnelName(n)
  }

  /** Dedicated-port tunnels and `ports` are inverse maps; vhost tunnels have
      port 0 and no entry. */
  ghost predicate Registry(tunnels: map<TunnelID, Tunnel>, ports: map<int, TunnelID>) {
    && (forall id :: id in tunnels ==> tunnels[id].id == id)
    && (forall p :: p in ports ==>
          1 <= p <= 65535 && ports[p] in tunnels && tunnels[ports[p]].remotePort == p)
    && (forall id :: id in tunnels && tunnels[id].remotePort != 0 ==>
          tunnels[id].remotePort in ports && ports[tunnels[id].remotePort] == id)
  }

  ghost predicate AllIssued(made: map<TunnelID, Tunnel>, seqNo: nat) {
    forall id :: id in made ==> Issued(id, seqNo)
  }

  ghost predicate FromMade(tunnels: map<TunnelID, Tunnel>, made: map<TunnelID, Tunnel>) {
    forall id :: id in tunnels ==> id in made && made[id] == tunnels[id]
  }

  ghost predicate ForMade(begun: map<ConnID, Pending>, made: map<TunnelID, Tunnel>) {
    forall c :: c in begun ==> begun[c].tunnelID in made
  }

  lemma NextNameIsNew(made: map<TunnelID, Tunnel>, seqNo: nat)
    requires AllIssued(made, seqNo)
    ensures TunnelName(seqNo + 1) !in made
    ensures AllIssued(made, seqNo + 1) && Issued(TunnelName(seqNo + 1), seqNo + 1)
  {
    var name := TunnelName(seqNo + 1);
    if name in made {
      var n: nat :| n <= seqNo && name == TunnelName(n);
      TunnelNameInjective(n, seqNo + 1);
    }
    forall id | id in made
      ensures Issued(id, seqNo + 1)
    {
      var n: nat :| n <= seqNo && id == TunnelName(n);
    }
  }

  lemma RegistryMore(tunnels: map<TunnelID, Tunnel>, ports: map<int, TunnelID>, t: Tunnel, ports': map<int, TunnelID>)
    requires Registry(tunnels, ports) && t.id !in tunnels
    requires if t.remotePort == 0 then ports' == ports
             else 1 <= t.remotePort <= 65535 && t.remotePort !in ports && ports' == ports[t.remotePort := t.id]
    ensures Registry(tunnels[t.id := t], ports')
  {
  }

  /** Entering a tunnel under a new id, on a free port or on none. */
  lemma Enlist(w: World, t: Tunnel, ports: map<int, TunnelID>)
    requires Inv(w) && t.id !in w.made && AllIssued(w.made, w.s.seqNo + 1) && Issued(t.id, w.s.seqNo + 1)
    requires if t.remotePort == 0 then ports == w.s.ports
             else 1 <= t.remotePort <= 65535 && t.remotePort !in w.s.ports && ports == w.s.ports[t.remotePort := t.id]
    ensures Inv(w.(s := w.s.(seqNo := w.s.seqNo + 1, tunnels := w.s.tunnels[t.id := t], ports := ports),
                   made := w.made[t.id := t]))
  {
    RegistryMore(w.s.tunnels, w.s.ports, t, ports);
    PunctualMore(w.s.exits, w.begun, w.made, t);
  }

  lemma Delist(tunnels: map<TunnelID, Tunnel>, ports: map<int, TunnelID>, id: TunnelID)
    requires Registry(tunnels, ports) && id in tunnels
    ensures Registry(tunnels - {id}, ports - {tunnels[id].remotePort})
  {
    var ports' := ports - {tunnels[id].remotePort};
    forall p | p in ports'
      ensures ports'[p] in tunnels - {id}
    {
      assert tunnels[ports[p]].remotePort == p;
    }
  }

  // ---- the pending ledger ----------------------------------------------------------

  /** Every conn id ever opened is still pending, or has left exactly once with
      the connection it was opened with. */
  ghost predicate Accounted(pending: map<ConnID, Pending>, exits: multiset<Exit>, begun: map<ConnID, Pending>) {
    && (forall c :: c in pending ==> c in begun && begun[c] == pending[c])
    && (forall e :: e in exits ==>
          exits[e] == 1 && e.connID in begun && e.connID !in pending && e.conn == begun[e.connID].conn)
    && (forall e, f :: e in exits && f in exits && e.connID == f.connID ==> e == f)
    && (forall c :: c in begun && c !in pending ==> Gone(c, exits))
  }

  ghost predicate Gone(c: ConnID, exits: multiset<Exit>) {
    exists e :: e in exits && e.connID == c
  }

  /** A hand-over is in time, and goes to the tunnel the connection was opened
      for. */
  ghost predicate Punctual(exits: multiset<Exit>, begun: map<ConnID, Pending>, made: map<TunnelID, Tunnel>) {
    forall e :: e in exits && e.Handed? ==>
      && e.connID in begun
      && e.at <= begun[e.connID].deadline
      && begun[e.connID].tunnelID in made
      && e.tunnel == made[begun[e.connID].tunnelID]
  }

  lemma LeaveOnce(pending: map<ConnID, Pending>, exits: multiset<Exit>, begun: map<ConnID, Pending>, e: Exit)
    requires Accounted(pending, exits, begun)
    requires e.connID in pending && e.conn == pending[e.connID].conn
    ensures Accounted(pending - {e.connID}, exits + multiset{e}, begun)
  {
    var exits' := exits + multiset{e};
    assert e !in exits;
    forall c | c in begun && c !in pending - {e.connID}
      ensures Gone(c, exits')
    {
      if c == e.connID {
        assert e in exits';
      } else {
        assert Gone(c, exits);
        var f :| f in exits && f.connID == c;
        assert f in exits';
      }
    }
  }

  lemma PunctualMore(exits: multiset<Exit>, begun: map<ConnID, Pending>, made: map<TunnelID, Tunnel>, t: Tunnel)
    requires Punctual(exits, begun, made) && t.id !in made
    ensures Punctual(exits, begun, made[t.id := t])
  {
  }

  lemma {:induction false} DropAccounted(pending: map<ConnID, Pending>, exits: multiset<Exit>,
                                         begun: map<ConnID, Pending>, doomed: set<ConnID>)
    requires doomed <= pending.Keys && Accounted(pending, exits, begun)
    ensures Accounted(pending - doomed, exits + Closings(pending, doomed), begun)
    decreases |doomed|
  {
    if doomed == {} {
      assert pending - {} == pending;
      assert exits + Closings(pending, {}) == exits;
    } else {
      var k :| k in doomed;
      var done := doomed - {k};
      var e := Closed(k, pending[k].conn);
      DropAccounted(pending, exits, begun, done);
      LeaveOnce(pending - done, exits + Closings(pending, done), begun, e);
      DropOneMore(pending, exits, doomed, k);
    }
  }

  lemma DropOneMore(pending: map<ConnID, Pending>, exits: multiset<Exit>, doomed: set<ConnID>, k: ConnID)
    requires doomed <= pending.Keys && k in doomed
    ensures pending - (doomed - {k}) - {k} == pending - doomed
    ensures exits + Closings(pending, doomed - {k}) + multiset{Closed(k, pending[k].conn)}
         == exits + Closings(pending, doomed)
  {
    var done := doomed - {k};
    ClosingsOne(pending, done, k);
    assert done + {k} == doomed;
  }

  lemma DropPunctual(pending: map<ConnID, Pending>, exits: multiset<Exit>, begun: map<ConnID, Pending>,
                     made: map<TunnelID, Tunnel>, doomed: set<ConnID>)
    requires Punctual(exits, begun, made)
    ensures Punctual(exits + Closings(pending, doomed), begun, made)
  {
  }

  // ---- every run --------------------------------------------------------------------

  ghost predicate Inv(w: World) {
    && Registry(w.s.tunnels, w.s.ports)
    && AllIssued(w.made, w.s.seqNo)
    && FromMade(w.s.tunnels, w.made)
    && ForMade(w.begun, w.made)
    && Accounted(w.s.pending, w.s.exits, w.begun)
    && Punctual(w.s.exits, w.begun, w.made)
  }

  lemma EnlistNext(w: World, t: Tunnel, ports: map<int, TunnelID>)
    requires Inv(w) && t.id == TunnelName(w.s.seqNo + 1)
    requires if t.remotePort == 0 then ports == w.s.ports
             else 1 <= t.remotePort <= 65535 && t.remotePort !in w.s.ports && ports == w.s.ports[t.remotePort := t.id]
    ensures Inv(w.(s := w.s.(seqNo := w.s.seqNo + 1, tunnels := w.s.tunnels[t.id := t], ports := ports),
                   made := w.made[t.id := t]))
  {
    NextNameIsNew(w.made, w.s.seqNo);
    Enlist(w, t, ports);
  }

  /** A number drawn for a listener that was not granted is never used. */
  lemma SkipNumber(w: World)
    requires Inv(w)
    ensures Inv(w.(s := w.s.(seqNo := w.s.seqNo + 1)))
  {
    NextNameIsNew(w.made, w.s.seqNo);
  }

  /** The three ways a registration can change the state. */
  lemma RegisterEffects(w: World, q: Request, listens: bool)
    ensures var name, n := TunnelName(w.s.seqNo + 1), w.s.seqNo + 1;
            var t := Tunnel(name, q.name, q.typ, q.port, "");
            var w' := Created(w, AfterRegister(w.s, q, listens));
      || w' == w
      || w' == w.(s := w.s.(seqNo := n))
      || (1 <= q.port <= 65535 && q.port !in w.s.ports
          && w' == w.(s := w.s.(seqNo := n, tunnels := w.s.tunnels[name := t], ports := w.s.ports[q.port := name]),
                      made := w.made[name := t]))
  {
  }

  lemma RegisterKeeps(w: World, q: Request, listens: bool)
    requires Inv(w)
    ensures Inv(Created(w, AfterRegister(w.s, q, listens)))
  {
    var name := TunnelName(w.s.seqNo + 1);
    var t := Tunnel(name, q.name, q.typ, q.port, "");
    RegisterEffects(w, q, listens);
    SkipNumber(w);
    if 1 <= q.port <= 65535 && q.port !in w.s.ports {
      EnlistNext(w, t, w.s.ports[q.port := name]);
    }
  }

  lemma AddVhostKeeps(w: World, name: string, host: string, maxTunnels: int)
    requires Inv(w)
    ensures Inv(Created(w, AfterAddVhost(w.s, name, host, maxTunnels)))
  {
    var r := AfterAddVhost(w.s, name, host, maxTunnels);
    if r.1.Ok? {
      EnlistNext(w, r.1.value, r.0.ports);
    }
  }

  lemma DropKeeps(w: World, doomed: set<ConnID>)
    requires Inv(w) && doomed <= w.s.pending.Keys
    ensures Inv(w.(s := Drop(w.s, doomed)))
  {
    DropAccounted(w.s.pending, w.s.exits, w.begun, doomed);
    DropPunctual(w.s.pending, w.s.exits, w.begun, w.made, doomed);
  }

  lemma UnregisterKeeps(w: World, id: TunnelID)
    requires Inv(w)
    ensures Inv(Step(w, Unregister(id)))
  {
    if id in w.s.tunnels {
      var s := w.s.(tunnels := w.s.tunnels - {id}, ports := w.s.ports - {w.s.tunnels[id].remotePort});
      Delist(w.s.tunnels, w.s.ports, id);
      DropKeeps(w.(s := s), OfTunnel(w.s.pending, id));
    }
  }

  lemma OpenAccounted(pending: map<ConnID, Pending>, exits: multiset<Exit>, begun: map<ConnID, Pending>,
                      c: ConnID, pc: Pending)
    requires Accounted(pending, exits, begun) && c !in begun
    ensures Accounted(pending[c := pc], exits, begun[c := pc])
  {
    forall k | k in begun[c := pc] && k !in pending[c := pc]
      ensures Gone(k, exits)
    {
      assert k in begun && k !in pending;
    }
  }

  lemma OpenKeeps(w: World, t: Tunnel, connID: ConnID, pc: Pending)
    requires Inv(w) && Openable(w, t, connID) && pc.tunnelID == t.id
    ensures Inv(w.(s := w.s.(pending := w.s.pending[connID := pc]), begun := w.begun[connID := pc]))
  {
    OpenAccounted(w.s.pending, w.s.exits, w.begun, connID, pc);
    assert Punctual(w.s.exits, w.begun[connID := pc], w.made);
    assert ForMade(w.begun[connID := pc], w.made);
  }

  lemma LeaveKeeps(w: World, e: Exit)
    requires Inv(w) && e.connID in w.s.pending && e.conn == w.s.pending[e.connID].conn
    requires e.Handed? ==>
      && e.at <= w.s.pending[e.connID].deadline
      && w.s.pending[e.connID].tunnelID in w.s.tunnels
      && e.tunnel == w.s.tunnels[w.s.pending[e.connID].tunnelID]
    ensures Inv(w.(s := w.s.(pending := w.s.pending - {e.connID}, exits := w.s.exits + multiset{e})))
  {
    LeaveOnce(w.s.pending, w.s.exits, w.begun, e);
    assert Punctual(w.s.exits + multiset{e}, w.begun, w.made);
  }

  lemma ClaimKeeps(w: World, connID: ConnID, now: int)
    requires Inv(w)
    ensures Inv(Step(w, Claim(connID, now)))
  {
    if connID in w.s.pending {
      var pc := w.s.pending[connID];
      if now > pc.deadline || pc.tunnelID !in w.s.tunnels {
        LeaveKeeps(w, Closed(connID, pc.conn));
      } else {
        LeaveKeeps(w, Handed(connID, pc.conn, w.s.tunnels[pc.tunnelID], now));
      }
    }
  }

  lemma StepKeeps(w: World, op: Op)
    requires Inv(w) && (op.Open? ==> Openable(w, op.t, op.connID))
    ensures Inv(Step(w, op))
  {
    match op
    case Register(q, listens) => RegisterKeeps(w, q, listens);
    case AddVhost(name, host, maxTunnels) => AddVhostKeeps(w, name, host, maxTunnels);
    case Unregister(id) => UnregisterKeeps(w, id);
    case Open(t, conn, connID, timeout, now) =>
      OpenKeeps(w, t, connID, Opened(t, conn, timeout, now));
    case Claim(connID, now) => ClaimKeeps(w, connID, now);
    case Cleanup(now) => DropKeeps(w, Overdue(w.s.pending, now));
  }

  lemma {:induction false} RunKeeps(w: World, ops: seq<Op>)
    requires Inv(w) && Possible(w, ops)
    ensures Inv(Run(w, ops))
    decreases |ops|
  {
    if ops != [] {
      StepKeeps(w, ops[0]);
      RunKeeps(Step(w, ops[0]), ops[1..]);
    }
  }

  ghost predicate Reachable(w: World) {
    exists ops :: Possible(Start, ops) && w == Run(Start, ops)
  }

  lemma ReachableKeeps(w: World)
    requires Reachable(w)
    ensures Inv(w)
  {
    var ops :| Possible(Start, ops) && w == Run(Start, ops);
    RunKeeps(Start, ops);
  }

  /** Conservation: in every reachable state each opened conn id is pending or
      has left exactly once, handed over in time to the tunnel it was opened
      for, or closed. */
  lemma EveryConnectionLeavesOnce(w: World)
    requires Reachable(w)
    ensures Accounted(w.s.pending, w.s.exits, w.begun)
    ensures Punctual(w.s.exits, w.begun, w.made)
  {
    ReachableKeeps(w);
  }

  /** A claim that succeeds yields a tunnel that is registered now and is the
      one the connection was opened for; and whatever happens next, that conn id
      can never be claimed again. */
  lemma ClaimsAreExclusive(w: World, connID: ConnID, now: int, more: seq<Op>, later: int)
    requires Reachable(w) && AfterClaim(w.s, connID, now).1.Ok?
    requires Possible(Step(w, Claim(connID, now)), more)
    ensures var (conn, t) := AfterClaim(w.s, connID, now).1.value;
      && t.id in w.s.tunnels && w.s.tunnels[t.id] == t
      && connID in w.begun && w.begun[connID].conn == conn && w.begun[connID].tunnelID == t.id
      && now <= w.begun[connID].deadline
    ensures AfterClaim(Run(Step(w, Claim(connID, now)), more).s, connID, later).1 == Refused(UnknownConn)
  {
    ReachableKeeps(w);
    ClaimYieldsOwn(w, connID, now);
    StaysGone(Step(w, Claim(connID, now)), more, connID);
  }

  lemma ClaimYieldsOwn(w: World, connID: ConnID, now: int)
    requires Inv(w) && AfterClaim(w.s, connID, now).1.Ok?
    ensures var (conn, t) := AfterClaim(w.s, connID, now).1.value;
      && t.id in w.s.tunnels && w.s.tunnels[t.id] == t
      && connID in w.begun && w.begun[connID].conn == conn && w.begun[connID].tunnelID == t.id
      && now <= w.begun[connID].deadline
    ensures connID !in Step(w, Claim(connID, now)).s.pending
  {
    assert w.begun[connID] == w.s.pending[connID];
  }

  lemma {:induction false} StaysGone(w: World, ops: seq<Op>, c: ConnID)
    requires Possible(w, ops) && c in w.begun && c !in w.s.pending
    ensures c !in Run(w, ops).s.pending
    decreases |ops|
  {
    if ops != [] {
      StaysGone(Step(w, ops[0]), ops[1..], c);
    }
  }

  /** In every reachable state `ports` and the dedicated-port tunnels are
      inverse maps. */
  lemma RegistryHolds(w: World)
    requires Reachable(w)
    ensures Registry(w.s.tunnels, w.s.ports)
  {
    ReachableKeeps(w);
  }

  lemma ReachableIssued(w: World)
    requires Reachable(w)
    ensures AllIssued(w.made, w.s.seqNo)
  {
    ReachableKeeps(w);
  }

  /** A registration that succeeds takes a free port and an id no tunnel ever
      had. */
  lemma RegistrationIsFresh(w: World, q: Request, listens: bool, t: Tunnel)
    requires Reachable(w) && AfterRegister(w.s, q, listens).1 == Ok(t)
    ensures t.id !in w.made && q.port !in w.s.ports
  {
    ReachableIssued(w);
    NextNameIsNew(w.made, w.s.seqNo);
    GrantsNextName(w.s, q, listens);
  }

  lemma GrantsNextName(s: State, q: Request, listens: bool)
    requires AfterRegister(s, q, listens).1.Ok?
    ensures AfterRegister(s, q, listens).1.value.id == TunnelName(s.seqNo + 1) && q.port !in s.ports
  {
  }

  ghost predicate FixedLimit(ops: seq<Op>, limit: int) {
    forall i :: 0 <= i < |ops| ==>
      && (ops[i].Register? ==> ops[i].q.maxTunnels == limit)
      && (ops[i].AddVhost? ==> ops[i].maxTunnels == limit)
  }

  /** With one positive limit throughout, the tunnel count never exceeds it. */
  lemma {:induction false} LimitHolds(w: World, ops: seq<Op>, limit: int)
    requires 0 < limit && FixedLimit(ops, limit) && |w.s.tunnels| <= limit
    ensures |Run(w, ops).s.tunnels| <= limit
    decreases |ops|
  {
    if ops != [] {
      LimitStep(w, ops[0], limit);
      LimitHolds(Step(w, ops[0]), ops[1..], limit);
    }
  }

  lemma LimitStep(w: World, op: Op, limit: int)
    requires 0 < limit && |w.s.tunnels| <= limit
    requires op.Register? ==> op.q.maxTunnels == limit
    requires op.AddVhost? ==> op.maxTunnels == limit
    ensures |Step(w, op).s.tunnels| <= limit
  {
    match op
    case Register(q, listens) => LimitRegister(w.s, q, listens);
    case AddVhost(name, host, maxTunnels) => LimitAddVhost(w.s, name, host, maxTunnels);
    case Unregister(id) => RemovedOne(w.s, id);
    case _ =>
  }

  lemma LimitRegister(s: State, q: Request, listens: bool)
    requires 0 < q.maxTunnels && |s.tunnels| <= q.maxTunnels
    ensures |AfterRegister(s, q, listens).0.tunnels| <= q.maxTunnels
  {
    OneMore(s.tunnels, TunnelName(s.seqNo + 1), Tunnel(TunnelName(s.seqNo + 1), q.name, q.typ, q.port, ""));
  }

  lemma LimitAddVhost(s: State, name: string, host: string, maxTunnels: int)
    requires 0 < maxTunnels && |s.tunnels| <= maxTunnels
    ensures |AfterAddVhost(s, name, host, maxTunnels).0.tunnels| <= maxTunnels
  {
    OneMore(s.tunnels, TunnelName(s.seqNo + 1), Tunnel(TunnelName(s.seqNo + 1), name, "http", 0, host));
  }

  lemma OneMore(tunnels: map<TunnelID, Tunnel>, id: TunnelID, t: Tunnel)
    ensures |tunnels[id := t]| <= |tunnels| + 1
  {
    assert tunnels[id := t].Keys == tunnels.Keys + {id};
  }

  lemma RemovedOne(s: State, id: TunnelID)
    ensures |AfterUnregister(s, id).tunnels| <= |s.tunnels|
  {
    var t := AfterUnregister(s, id).tunnels;
    assert t.Keys <= s.tunnels.Keys;
    SubsetSize(t.Keys, s.tunnels.Keys);
  }

  lemma SubsetSize<T>(a: set<T>, b: set<T>)
    requires a <= b
    ensures |a| <= |b|
  {
    assert b == a + (b - a);
  }
}
