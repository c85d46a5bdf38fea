/** What every run of the UDP session table keeps: no peer or session id is
    listed twice, the capacity holds, and with a clock that does not go back
    the list stays in order of last activity. */
module UdpSessionRuns {
  import opened Collections
  import opened UdpSessions

  datatype Op =
    | Packet(peer: Peer, id: Option<seq<byte>>, now: int)
    | Sweep(now: int)
    | Shut

  function Step(l: seq<Entry>, op: Op, cap: nat, idle: int): (r: seq<Entry>)
  {
    match op
    case Packet(peer, id, now) => Admit(l, cap, peer, id, now)
    case Sweep(now) => Expire(l, now, idle)
    case Shut => []
  }

  function Run(l: seq<Entry>, ops: seq<Op>, cap: nat, idle: int): (r: seq<Entry>)
    decreases |ops|
  {
    if ops == [] then l else Run(Step(l, ops[0], cap, idle), ops[1..], cap, idle)
  }

  /** The random source never repeats a session id. */
  ghost predicate FreshIds(issued: set<seq<byte>>, ops: seq<Op>)
    decreases |ops|
  {
    ops != [] ==>
      if ops[0].Packet? && ops[0].id.Some?
      then ops[0].id.value !in issued && FreshIds(issued + {ops[0].id.value}, ops[1..])
      else FreshIds(issued, ops[1..])
  }

  /** Clock readings do not decrease from t on. */
  ghost predicate Clocked(t: int, ops: seq<Op>)
    decreases |ops|
  {
    ops != [] ==>
      if ops[0].Shut? then Clocked(t, ops[1..])
      else t <= ops[0].now && Clocked(ops[0].now, ops[1..])
  }

  ghost predicate Apart(a: Entry, b: Entry) {
    a.peer != b.peer && a.id != b.id
  }

  ghost predicate NotLater(a: Entry, b: Entry) {
    a.lastActive <= b.lastActive
  }

  ghost predicate Pairwise(l: seq<Entry>, r: (Entry, Entry) -> bool) {
    forall i, j :: 0 <= i < j < |l| ==> r(l[i], l[j])
  }

  /** A list within capacity, each peer and each id at most once. */
  ghost predicate Sound(l: seq<Entry>, cap: nat, issued: set<seq<byte>>) {
    && |l| <= cap
    && Pairwise(l, Apart)
    && (forall i :: 0 <= i < |l| ==> l[i].id in issued)
  }

  /** In order of last activity, none later than t. */
  ghost predicate Recency(l: seq<Entry>, t: int) {
    && Pairwise(l, NotLater)
    && (forall i :: 0 <= i < |l| ==> l[i].lastActive <= t)
  }

  // ---- filters keep order -------------------------------------------------

  lemma {:induction false} KeepMembers(l: seq<Entry>, gone: set<Peer>)
    ensures |Keep(l, gone)| <= |l|
    ensures forall i :: 0 <= i < |Keep(l, gone)| ==> Keep(l, gone)[i] in l && Keep(l, gone)[i].peer !in gone
  {
    if l != [] {
      KeepMembers(l[1..], gone);
    }
  }

  lemma {:induction false} KeepPairwise(l: seq<Entry>, gone: set<Peer>, r: (Entry, Entry) -> bool)
    requires Pairwise(l, r)
    ensures Pairwise(Keep(l, gone), r)
  {
    if l != [] {
      KeepPairwise(l[1..], gone, r);
      KeepMembers(l[1..], gone);
      var t := Keep(l[1..], gone);
      forall j | 0 <= j < |t|
        ensures r(l[0], t[j])
      {
        assert t[j] in l[1..];
      }
    }
  }

  ghost function IdleAt(l: seq<Entry>, now: int, idle: int): set<Peer> {
    set e | e in l && now - e.lastActive > idle :: e.peer
  }

  lemma ExpireByPeers(l: seq<Entry>, now: int, idle: int)
    requires Pairwise(l, Apart)
    ensures Expire(l, now, idle) == Keep(l, IdleAt(l, now, idle))
  {
    forall e | e in l
      ensures e.peer in IdleAt(l, now, idle) <==> now - e.lastActive > idle
    {
      if e.peer in IdleAt(l, now, idle) {
        var f :| f in l && now - f.lastActive > idle && f.peer == e.peer;
        var i :| 0 <= i < |l| && l[i] == e;
        var j :| 0 <= j < |l| && l[j] == f;
        assert !Apart(l[i], l[j]) && !Apart(l[j], l[i]);
      }
    }
    ExpireIsKeep(l, now, idle, IdleAt(l, now, idle));
  }

  /** Keeping entries keeps soundness and recency. */
  lemma KeepSound(l: seq<Entry>, cap: nat, issued: set<seq<byte>>, gone: set<Peer>, t: int)
    ensures Sound(l, cap, issued) ==> Sound(Keep(l, gone), cap, issued)
    ensures Recency(l, t) ==> Recency(Keep(l, gone), t)
  {
    KeepMembers(l, gone);
    if Sound(l, cap, issued) {
      KeepPairwise(l, gone, Apart);
    }
    if Recency(l, t) {
      KeepPairwise(l, gone, NotLater);
    }
  }

  lemma {:induction false} KeepShorter(l: seq<Entry>, e: Entry, gone: set<Peer>)
    requires e in l && e.peer in gone
    ensures |Keep(l, gone)| < |l|
  {
    if l[0] == e {
      KeepMembers(l[1..], gone);
    } else {
      KeepShorter(l[1..], e, gone);
    }
  }

  // ---- one step -----------------------------------------------------------

  lemma TouchSound(l: seq<Entry>, cap: nat, issued: set<seq<byte>>, e: Entry, now: int)
    requires Sound(l, cap, issued) && e in l
    ensures Sound(Keep(l, {e.peer}) + [e.(lastActive := now)], cap, issued)
  {
    var k := Keep(l, {e.peer});
    KeepSound(l, cap, issued, {e.peer}, now);
    KeepShorter(l, e, {e.peer});
    KeepMembers(l, {e.peer});
    var i :| 0 <= i < |l| && l[i] == e;
    forall j | 0 <= j < |k|
      ensures Apart(k[j], e.(lastActive := now))
    {
      var m :| 0 <= m < |l| && l[m] == k[j];
      assert m != i;
      assert Apart(l[m], l[i]) || Apart(l[i], l[m]);
    }
  }

  lemma StepSound(l: seq<Entry>, op: Op, cap: nat, idle: int, issued: set<seq<byte>>)
    requires 0 < cap && Sound(l, cap, issued)
    requires op.Packet? && op.id.Some? ==> op.id.value !in issued
    ensures var issued' := if op.Packet? && op.id.Some? then issued + {op.id.value} else issued;
            Sound(Step(l, op, cap, idle), cap, issued')
  {
    match op
    case Packet(peer, id, now) =>
      if Find(l, peer).Some? {
        TouchSound(l, cap, issued, Find(l, peer).value, now);
      } else {
        assert forall i :: 0 <= i < |l| ==> l[i] in l && l[i].peer != peer;
      }
    case Sweep(now) =>
      ExpireByPeers(l, now, idle);
      KeepSound(l, cap, issued, IdleAt(l, now, idle), now);
    case Shut =>
  }

  lemma StepRecency(l: seq<Entry>, op: Op, cap: nat, idle: int, issued: set<seq<byte>>, t: int)
    requires Sound(l, cap, issued) && Recency(l, t)
    requires !op.Shut? ==> t <= op.now
    ensures Recency(Step(l, op, cap, idle), if op.Shut? then t else op.now)
  {
    match op
    case Packet(peer, id, now) =>
      KeepSound(l, cap, issued, {peer}, t);
    case Sweep(now) =>
      ExpireByPeers(l, now, idle);
      KeepSound(l, cap, issued, IdleAt(l, now, idle), t);
    case Shut =>
  }

  // ---- every run ----------------------------------------------------------

  /** Every run keeps the capacity and the uniqueness of peers and ids, also
      when the random source fails right after an eviction. */
  lemma {:induction false} RunsStaySound(l: seq<Entry>, ops: seq<Op>, cap: nat, idle: int, issued: set<seq<byte>>)
    requires 0 < cap && Sound(l, cap, issued) && FreshIds(issued, ops)
    ensures |Run(l, ops, cap, idle)| <= cap && Pairwise(Run(l, ops, cap, idle), Apart)
    decreases |ops|
  {
    if ops != [] {
      StepSound(l, ops[0], cap, idle, issued);
      var issued' := if ops[0].Packet? && ops[0].id.Some? then issued + {ops[0].id.value} else issued;
      RunsStaySound(Step(l, ops[0], cap, idle), ops[1..], cap, idle, issued');
    }
  }

  /** With a non-decreasing clock every run stays in order of last activity. */
  lemma {:induction false} RunsStayInOrder(l: seq<Entry>, ops: seq<Op>, cap: nat, idle: int, issued: set<seq<byte>>,
                                           t: int)
    requires 0 < cap && Sound(l, cap, issued) && FreshIds(issued, ops)
    requires Recency(l, t) && Clocked(t, ops)
    ensures Pairwise(Run(l, ops, cap, idle), NotLater)
    decreases |ops|
  {
    if ops != [] {
      StepSound(l, ops[0], cap, idle, issued);
      StepRecency(l, ops[0], cap, idle, issued, t);
      var issued' := if ops[0].Packet? && ops[0].id.Some? then issued + {ops[0].id.value} else issued;
      RunsStayInOrder(Step(l, ops[0], cap, idle), ops[1..], cap, idle, issued', if ops[0].Shut? then t else ops[0].now);
    }
  }

  /** A sweep of an ordered list removes exactly a prefix: everything before
      the cut is idle, everything after it is kept in place. */
  lemma {:induction false} SweepCutsPrefix(l: seq<Entry>, now: int, idle: int)
    requires Pairwise(l, NotLater)
    ensures var cut := |l| - |Expire(l, now, idle)|;
      && 0 <= cut <= |l|
      && Expire(l, now, idle) == l[cut..]
      && (forall i :: 0 <= i < |l| ==> (i < cut <==> now - l[i].lastActive > idle))
  {
    if l != [] {
      if now - l[0].lastActive > idle {
        SweepCutsPrefix(l[1..], now, idle);
        var c := |l[1..]| - |Expire(l[1..], now, idle)|;
        assert l[1..][c..] == l[c + 1..];
        assert forall i :: 1 <= i < |l| ==> l[i] == l[1..][i - 1];
      } else {
        forall i | 0 <= i < |l|
          ensures now - l[i].lastActive <= idle
        {
          assert i > 0 ==> NotLater(l[0], l[i]);
        }
        NoneExpired(l, now, idle);
      }
    }
  }

  lemma {:induction false} NoneExpired(l: seq<Entry>, now: int, idle: int)
    requires forall i :: 0 <= i < |l| ==> now - l[i].lastActive <= idle
    ensures Expire(l, now, idle) == l
  {
    if l != [] {
      NoneExpired(l[1..], now, idle);
    }
  }

  /** The evicted session is one that has been inactive the longest. */
  lemma EvictedIsOldest(l: seq<Entry>, cap: nat, e: Entry)
    requires 0 < cap && Pairwise(l, NotLater) && |l| >= cap && e in l
    ensures l == [l[0]] + Evict(l, cap) && l[0].lastActive <= e.lastActive
  {
    var i :| 0 <= i < |l| && l[i] == e;
    assert i > 0 ==> NotLater(l[0], l[i]);
  }

  lemma {:induction false} KeepHas(l: seq<Entry>, gone: set<Peer>, e: Entry)
    requires e in l && e.peer !in gone
    ensures e in Keep(l, gone)
  {
    if l[0] != e {
      KeepHas(l[1..], gone, e);
    }
  }

  /** A packet that gets a session makes its peer the most recent one, under its
      old id if it had one; and whatever a packet's fate, no other session is
      changed or lost, except the oldest one of a full table, to a new peer. */
  lemma AdmitServesPeerSparesOthers(l: seq<Entry>, cap: nat, peer: Peer, id: Option<seq<byte>>, now: int)
    ensures var r, was := Admit(l, cap, peer, id, now), Find(l, peer);
            was.Some? || id.Some? ==>
              r != [] && r[|r| - 1] == Entry(peer, if was.Some? then was.value.id else id.value, now)
    ensures forall e :: e in l && e.peer != peer && (|l| >= cap && Find(l, peer).None? ==> e != l[0]) ==>
      e in Admit(l, cap, peer, id, now)
    ensures forall e :: e in Admit(l, cap, peer, id, now) ==> e in l || e.peer == peer
  {
    KeepMembers(l, {peer});
    forall e | e in l && e.peer != peer && (|l| >= cap && Find(l, peer).None? ==> e != l[0])
      ensures e in Admit(l, cap, peer, id, now)
    {
      if Find(l, peer).Some? {
        KeepHas(l, {peer}, e);
      }
    }
  }

  // ---- the table itself, over every run ------------------------------------------

  /** Any run of calls on the table: it goes through the states of the list, so
      it never exceeds its capacity and never holds a peer or an id twice, and
      with a clock that does not go back it stays in order of last activity. */
  method Drive(t: UdpTable, ops: seq<Op>, ghost issued: set<seq<byte>>, ghost start: int)
    requires t.Valid() && Sound(t.Contents(), t.maxSessions, issued) && FreshIds(issued, ops)
    modifies t
    ensures t.Valid() && t.Contents() == Run(old(t.Contents()), ops, t.maxSessions, t.sessionIdle)
    ensures |t.Contents()| <= t.maxSessions && Pairwise(t.Contents(), Apart)
    ensures Recency(old(t.Contents()), start) && Clocked(start, ops) ==> Pairwise(t.Contents(), NotLater)
  {
    ghost var l := t.Contents();
    ghost var drawn := issued;
    for i := 0 to |ops|
      invariant t.Valid() && Sound(t.Contents(), t.maxSessions, drawn) && FreshIds(drawn, ops[i..])
      invariant Run(t.Contents(), ops[i..], t.maxSessions, t.sessionIdle) == Run(l, ops, t.maxSessions, t.sessionIdle)
    {
      assert ops[i..][0] == ops[i] && ops[i..][1..] == ops[i + 1..];
      StepSound(t.Contents(), ops[i], t.maxSessions, t.sessionIdle, drawn);
      if ops[i].Packet? && ops[i].id.Some? {
        drawn := drawn + {ops[i].id.value};
      }
      Perform(t, ops[i]);
    }
    if Recency(l, start) && Clocked(start, ops) {
      RunsStayInOrder(l, ops, t.maxSessions, t.sessionIdle, issued, start);
    }
  }

  method Perform(t: UdpTable, op: Op)
    requires t.Valid()
    requires op.Packet? && op.id.Some? ==> FindId(t.Contents(), op.id.value).None?
    modifies t
    ensures t.Valid() && t.Contents() == Step(old(t.Contents()), op, t.maxSessions, t.sessionIdle)
  {
    match op
    case Packet(peer, id, now) => var _ := t.SessionFor(peer, id, now);
    case Sweep(now) => var _ := t.ExpireIdle(now);
    case Shut => t.Close();
  }
}
