/** The server-side tunnel manager (internal/tunnel/server.go): registration,
    pending public connections, claiming and clean-up. Every method below holds
    the manager's lock, or touches it from one registering caller at a time, so
    a call is one step. */
module TunnelManager {
  import opened Collections
  import opened GoStrings
  import opened PortPolicy

  datatype ConnID = ConnID(text: string)

  datatype Tunnel = Tunnel(id: TunnelID, name: string, typ: string, remotePort: int, vhostHost: string)

  /** A public connection (None for a UDP channel pre-opening) waiting for the
      client's data connection. */
  datatype Pending = Pending(conn: Option<nat>, tunnelID: TunnelID, deadline: int)

  /** How a conn id leaves the pending table. */
  datatype Exit =
    | Handed(connID: ConnID, conn: Option<nat>, tunnel: Tunnel, at: int)
    | Closed(connID: ConnID, conn: Option<nat>)

  datatype Refusal =
    | LimitReached | InvalidPort | NotAllowed | PortInUse | ListenFailed
    | UnknownConn | ClaimTimeout | TunnelGone

  datatype Outcome<T> = Ok(value: T) | Refused(why: Refusal)

  datatype State = State(
    seqNo: nat,
    tunnels: map<TunnelID, Tunnel>,
    ports: map<int, TunnelID>,
    pending: map<ConnID, Pending>,
    exits: multiset<Exit>)

  const Empty: State := State(0, map[], map[], map[], multiset{})

  /** fmt.Sprintf("t_%d", n). */
  function TunnelName(n: nat): TunnelID {
    TunnelID("t_" + Decimal(n))
  }

  lemma TunnelNameInjective(m: nat, n: nat)
    requires TunnelName(m) == TunnelName(n)
    ensures m == n
  {
    assert TunnelName(m).text[2..] == Decimal(m) && TunnelName(n).text[2..] == Decimal(n);
    DecimalInjective(m, n);
  }

  datatype Request = Request(name: string, typ: string, port: int, allowed: seq<string>, maxTunnels: int)

  // ---- the steps as functions ------------------------------------------------

  /** `listens` is whether the operating system grants the listener. */
  ghost function AfterRegister(s: State, q: Request, listens: bool): (r: (State, Outcome<Tunnel>))
  {
    if q.maxTunnels > 0 && |s.tunnels| >= q.maxTunnels then (s, Refused(LimitReached))
    else if q.port < 1 || q.port > 65535 then (s, Refused(InvalidPort))
    else if !Admitted(q.allowed, q.port) then (s, Refused(NotAllowed))
    else if q.port in s.ports then (s, Refused(PortInUse))
    else
      var t := Tunnel(TunnelName(s.seqNo + 1), q.name, q.typ, q.port, "");
      if !listens then (s.(seqNo := s.seqNo + 1), Refused(ListenFailed))
      else (s.(seqNo := s.seqNo + 1, tunnels := s.tunnels[t.id := t], ports := s.ports[q.port := t.id]), Ok(t))
  }

  function AfterAddVhost(s: State, name: string, host: string, maxTunnels: int): (r: (State, Outcome<Tunnel>))
  {
    if maxTunnels > 0 && |s.tunnels| >= maxTunnels then (s, Refused(LimitReached))
    else
      var t := Tunnel(TunnelName(s.seqNo + 1), name, "http", 0, host);
      (s.(seqNo := s.seqNo + 1, tunnels := s.tunnels[t.id := t]), Ok(t))
  }

  ghost function Closings(pending: map<ConnID, Pending>, doomed: set<ConnID>): multiset<Exit> {
    multiset(set k | k in doomed && k in pending :: Closed(k, pending[k].conn))
  }

  /** Close and forget the pending connections in `doomed`. */
  ghost function Drop(s: State, doomed: set<ConnID>): (r: State)
  {
    s.(pending := s.pending - doomed, exits := s.exits + Closings(s.pending, doomed))
  }

  ghost function OfTunnel(pending: map<ConnID, Pending>, id: TunnelID): set<ConnID> {
    set k | k in pending && pending[k].tunnelID == id
  }

  ghost function Overdue(pending: map<ConnID, Pending>, now: int): set<ConnID> {
    set k | k in pending && now > pending[k].deadline
  }

  ghost function AfterUnregister(s: State, id: TunnelID): (r: State)
  {
    if id !in s.tunnels then s
    else
      Drop(s.(tunnels := s.tunnels - {id}, ports := s.ports - {s.tunnels[id].remotePort}), OfTunnel(s.pending, id))
  }

  /** A non-positive claim timeout means ten seconds. */
  function AfterOpen(s: State, t: Tunnel, conn: Option<nat>, connID: ConnID, timeout: int, now: int): (r: State)
  {
    var wait := if timeout <= 0 then 10_000_000_000 else timeout;
    s.(pending := s.pending[connID := Pending(conn, t.id, now + wait)])
  }

  function AfterClaim(s: State, connID: ConnID, now: int): (r: (State, Outcome<(Option<nat>, Tunnel)>))
  {
    if connID !in s.pending then (s, Refused(UnknownConn))
    else
      var pc := s.pending[connID];
      var left := s.(pending := s.pending - {connID});
      if now > pc.deadline then
        (left.(exits := s.exits + multiset{Closed(connID, pc.conn)}), Refused(ClaimTimeout))
      else if pc.tunnelID !in s.tunnels then
        (left.(exits := s.exits + multiset{Closed(connID, pc.conn)}), Refused(TunnelGone))
      else
        var t := s.tunnels[pc.tunnelID];
        (left.(exits := s.exits + multiset{Handed(connID, pc.conn, t, now)}), Ok((pc.conn, t)))
  }

  lemma ClosingsOne(pending: map<ConnID, Pending>, done: set<ConnID>, k: ConnID)
    requires k in pending && k !in done
    ensures Closings(pending, done + {k}) == Closings(pending, done) + multiset{Closed(k, pending[k].conn)}
  {
    var a := set j | j in done && j in pending :: Closed(j, pending[j].conn);
    var b := set j | j in done + {k} && j in pending :: Closed(j, pending[j].conn);
    var c := Closed(k, pending[k].conn);
    assert c !in a;
    assert b == a + {c};
    assert multiset(b) == multiset(a) + multiset{c};
  }

  /** The pending table part-way through a sweep that has visited all but
      `todo` and closes the connections in `doomed`. */
  ghost predicate Swept(now: State, was: State, doomed: set<ConnID>, todo: set<ConnID>)
  {
    && todo <= was.pending.Keys
    && now == Drop(was, doomed - todo)
  }

  lemma SweptStart(s: State, doomed: set<ConnID>)
    requires doomed <= s.pending.Keys
    ensures Swept(s, s, doomed, s.pending.Keys)
  {
    assert doomed - s.pending.Keys == {};
    assert s.pending - {} == s.pending;
  }

  /** Visiting k closes it if it is doomed and leaves the rest alone. */
  lemma SweptStep(now: State, was: State, doomed: set<ConnID>, todo: set<ConnID>, k: ConnID)
    requires Swept(now, was, doomed, todo) && k in todo
    ensures k in now.pending && now.pending[k] == was.pending[k]
    ensures k !in doomed ==> Swept(now, was, doomed, todo - {k})
    ensures k in doomed ==>
      Swept(now.(pending := now.pending - {k}, exits := now.exits + multiset{Closed(k, was.pending[k].conn)}),
            was, doomed, todo - {k})
  {
    var done := doomed - todo;
    if k in doomed {
      assert doomed - (todo - {k}) == done + {k};
      ClosingsOne(was.pending, done, k);
      assert was.pending - (done + {k}) == was.pending - done - {k};
    } else {
      assert doomed - (todo - {k}) == done;
    }
  }

  lemma SweptEnd(now: State, was: State, doomed: set<ConnID>)
    requires Swept(now, was, doomed, {})
    ensures now == Drop(was, doomed)
  {
    assert doomed - {} == doomed;
  }

  // ---- the manager as implemented -----------------------------------------------

  class Manager {
    var seqNo: nat
    var tunnels: map<TunnelID, Tunnel>
    var ports: map<int, TunnelID>
    var pending: map<ConnID, Pending>
    /** Effects on public connections: handed to a claimer, or closed. */
    var exits: multiset<Exit>

    ghost function Abs(): (s: State)
      reads this
    {
      State(seqNo, tunnels, ports, pending, exits)
    }

    constructor ()
      ensures Abs() == Empty
    {
      seqNo, tunnels, ports, pending, exits := 0, map[], map[], map[], multiset{};
    }

    method NextSeq() returns (n: nat)
      modifies this
      ensures Abs() == old(Abs()).(seqNo := old(seqNo) + 1) && n == seqNo
    {
      seqNo := seqNo + 1;
      n := seqNo;
    }

    method Register(q: Request, listens: bool) returns (r: Outcome<Tunnel>)
      modifies this
      ensures (Abs(), r) == AfterRegister(old(Abs()), q, listens)
    {
      if q.maxTunnels > 0 && |tunnels| >= q.maxTunnels {
        return Refused(LimitReached);
      }
      if q.port < 1 || q.port > 65535 {
        return Refused(InvalidPort);
      }
      var allowed := PortAllowed(q.allowed, q.port);
      if !allowed {
        return Refused(NotAllowed);
      }
      if q.port in ports {
        return Refused(PortInUse);
      }
      var n := NextSeq();
      var t := Tunnel(TunnelName(n), q.name, q.typ, q.port, "");
      if !listens {
        return Refused(ListenFailed);
      }
      tunnels := tunnels[t.id := t];
      ports := ports[q.port := t.id];
      return Ok(t);
    }

    method AddVhostTunnel(name: string, host: string, maxTunnels: int) returns (r: Outcome<Tunnel>)
      modifies this
      ensures (Abs(), r) == AfterAddVhost(old(Abs()), name, host, maxTunnels)
    {
      if maxTunnels > 0 && |tunnels| >= maxTunnels {
        return Refused(LimitReached);
      }
      var n := NextSeq();
      var t := Tunnel(TunnelName(n), name, "http", 0, host);
      tunnels := tunnels[t.id := t];
      return Ok(t);
    }

    method Unregister(id: TunnelID)
      modifies this
      ensures Abs() == AfterUnregister(old(Abs()), id)
    {
      if id !in tunnels {
        return;
      }
      var t := tunnels[id];
      tunnels := tunnels - {id};
      ports := ports - {t.remotePort};
      ghost var s := Abs();
      ghost var doomed := OfTunnel(s.pending, id);
      SweptStart(s, doomed);
      var todo := pending.Keys;
      while todo != {}
        invariant Swept(Abs(), s, doomed, todo)
        decreases todo
      {
        var k :| k in todo;
        SweptStep(Abs(), s, doomed, todo, k);
        var pc := pending[k];
        if pc.tunnelID == id {
          CloseOne(k);
        }
        todo := todo - {k};
      }
      SweptEnd(Abs(), s, doomed);
    }

    /** closePendingConn and the delete that goes with it. */
    method CloseOne(k: ConnID)
      requires k in pending
      modifies this
      ensures Abs() == old(Abs()).(pending := old(pending) - {k},
                                   exits := old(exits) + multiset{Closed(k, old(pending)[k].conn)})
    {
      exits := exits + multiset{Closed(k, pending[k].conn)};
      pending := pending - {k};
    }

    /** `connID` is what NewConnID yields; None when the random source fails. */
    method OpenConnection(t: Tunnel, conn: Option<nat>, connID: Option<ConnID>, timeout: int, now: int)
      returns (r: Option<ConnID>)
      modifies this
      ensures r == connID
      ensures Abs() == if connID.None? then old(Abs()) else AfterOpen(old(Abs()), t, conn, connID.value, timeout, now)
    {
      if connID.None? {
        return None;
      }
      var wait := timeout;
      if wait <= 0 {
        wait := 10_000_000_000;
      }
      pending := pending[connID.value := Pending(conn, t.id, now + wait)];
      return connID;
    }

    method ClaimData(connID: ConnID, now: int) returns (r: Outcome<(Option<nat>, Tunnel)>)
      modifies this
      ensures (Abs(), r) == AfterClaim(old(Abs()), connID, now)
    {
      if connID !in pending {
        return Refused(UnknownConn);
      }
      var pc := pending[connID];
      if now > pc.deadline {
        CloseOne(connID);
        return Refused(ClaimTimeout);
      }
      pending := pending - {connID};
      if pc.tunnelID !in tunnels {
        exits := exits + multiset{Closed(connID, pc.conn)};
        return Refused(TunnelGone);
      }
      var t := tunnels[pc.tunnelID];
      exits := exits + multiset{Handed(connID, pc.conn, t, now)};
      return Ok((pc.conn, t));
    }

    method CleanupExpired(now: int)
      modifies this
      ensures Abs() == Drop(old(Abs()), Overdue(old(pending), now))
    {
      ghost var s := Abs();
      ghost var doomed := Overdue(s.pending, now);
      SweptStart(s, doomed);
      var todo := pending.Keys;
      while todo != {}
        invariant Swept(Abs(), s, doomed, todo)
        decreases todo
      {
        var k :| k in todo;
        SweptStep(Abs(), s, doomed, todo, k);
        var pc := pending[k];
        if now > pc.deadline {
          CloseOne(k);
        }
        todo := todo - {k};
      }
      SweptEnd(Abs(), s, doomed);
    }
  }
}
