/** Whole runs of the token store with one writing process: creations,
    consumptions, revocations, reloads, failed saves, crashes in the middle of a
    save and restarts, in any order. */
module TokenRuns {
  import opened Collections
  import opened AtomicFile
  import opened TokenStore

  datatype Op =
    | Create(id: TokenID, minting: Option<Hash>, ttl: int, now: int, io: Io)
    | Consume(hash: Hash, found: Option<TokenID>, now: int, readable: bool, io: Io)
    | Revoke(id: TokenID, io: Io)
    | Crash

  /** History: hashes of all tokens ever created, of the consumptions that
      succeeded (in order), and of the tokens whose revocation succeeded. */
  datatype World = World(s: Store, minted: set<Hash>, granted: seq<Hash>, barred: set<Hash>)

  ghost function Settle(s: Store, died: bool, statOk: bool): Store {
    if died then AfterRestart(s, statOk) else s
  }

  /** One operation; when the process dies in it, the next one starts from what
      the file holds. */
  ghost function Step(w: World, op: Op, statOk: bool): World
    requires Fits(w, op)
  {
    match op
    case Create(id, hash, ttl, now, io) =>
      var (s, r) := AfterCreate(w.s, id, hash, ttl, now, io);
      w.(s := Settle(s, r.CreateDied?, statOk), minted := w.minted + if hash.Some? then {hash.value} else {})
    case Consume(hash, found, now, readable, io) =>
      var (s, r) := AfterConsume(AfterReload(w.s, readable), found, now, io);
      w.(s := Settle(s, r.ConsumeDied?, statOk), granted := w.granted + if r.Success? then [hash] else [])
    case Revoke(id, io) =>
      var (s, r) := AfterRevoke(w.s, id, io);
      w.(s := Settle(s, r.RevokeDied?, statOk), barred := w.barred + if r.RevokeOk? then {w.s.mem[id].hash} else {})
    case Crash => w.(s := AfterRestart(w.s, statOk))
  }

  /** Tokens are random and hashes do not collide, so a created token's hash is
      new; a look-up finds a matching record if there is one. */
  ghost predicate Fits(w: World, op: Op) {
    && (op.Create? && op.minting.Some? ==> op.minting.value !in w.minted)
    && (op.Consume? ==> Matches(AfterReload(w.s, op.readable).mem, op.hash, op.found))
  }

  ghost predicate Possible(w: World, ops: seq<(Op, bool)>)
    decreases |ops|
  {
    ops != [] ==> Fits(w, ops[0].0) && Possible(Step(w, ops[0].0, ops[0].1), ops[1..])
  }

  ghost function Run(w: World, ops: seq<(Op, bool)>): World
    requires Possible(w, ops)
    decreases |ops|
  {
    if ops == [] then w else Run(Step(w, ops[0].0, ops[0].1), ops[1..])
  }

  // ---- the invariant ------------------------------------------------------------

  /** Copies of spent tokens are marked used, copies of revoked tokens revoked,
      and no two records share a hash. */
  ghost predicate Faithful(m: map<TokenID, Record>, minted: set<Hash>, granted: seq<Hash>, barred: set<Hash>) {
    && (forall k :: k in m ==> m[k].hash in minted)
    && (forall k :: k in m && m[k].hash in granted ==> m[k].used)
    && (forall k :: k in m && m[k].hash in barred ==> m[k].revoked)
    && (forall j, k :: j in m && k in m && m[j].hash == m[k].hash ==> j == k)
  }

  ghost predicate Inv(w: World) {
    && Faithful(w.s.mem, w.minted, w.granted, w.barred)
    && (w.s.file.Some? ==> Faithful(w.s.file.value.recs, w.minted, w.granted, w.barred))
    && (forall h :: h in w.granted || h in w.barred ==> h in w.minted)
    && NoDup(w.granted)
  }

  /** Saving, reloading and restarting only copy one side over the other. */
  lemma CopyKeeps(w: World, s: Store, io: Io, readable: bool, statOk: bool, died: bool)
    requires Inv(w.(s := s))
    ensures Inv(w.(s := AfterSave(s, io))) && Inv(w.(s := AfterReload(s, readable)))
    ensures Inv(w.(s := Settle(s, died, statOk)))
    ensures Inv(w.(s := Settle(AfterSave(s, io), died, statOk)))
  {
    assert Faithful(map[], w.minted, w.granted, w.barred);
  }

  lemma PurgeKeeps(w: World, now: int)
    requires Inv(w)
    ensures Inv(w.(s := AfterPurge(w.s, now)))
  {
  }

  lemma CreateKeeps(w: World, op: Op, statOk: bool)
    requires Inv(w) && op.Create? && Fits(w, op)
    ensures Inv(Step(w, op, statOk))
  {
    var (s, r) := AfterCreate(w.s, op.id, op.minting, op.ttl, op.now, op.io);
    if op.minting.Some? {
      var w' := w.(minted := w.minted + {op.minting.value});
      assert Inv(w');
      if s != w.s {
        var rec := Record(op.id, op.minting.value, op.now + op.ttl, false, false);
        var s' := w.s.(mem := w.s.mem[op.id := rec]);
        assert Inv(w'.(s := s'));
        CopyKeeps(w', s', op.io, true, statOk, r.CreateDied?);
      } else {
        CopyKeeps(w', w.s, op.io, true, statOk, r.CreateDied?);
      }
    }
  }

  /** Marking the one record with the hash used, and saving it. */
  lemma SpendKeeps(w: World, id: TokenID, io: Io)
    requires Inv(w) && id in w.s.mem && !w.s.mem[id].used
    ensures var m := w.s.mem[id := w.s.mem[id].(used := true)];
      && Faithful(m, w.minted, w.granted, w.barred)
      && Faithful(m, w.minted, w.granted + [w.s.mem[id].hash], w.barred)
      && w.s.mem[id].hash !in w.granted
  {
  }

  ghost function MarkUsed(s: Store, id: TokenID): Store
    requires id in s.mem
  {
    s.(mem := s.mem[id := s.mem[id].(used := true)])
  }

  /** Unsaved, the mark is harmless; saved, the token counts as spent. */
  lemma SpendPath(w: World, id: TokenID, io: Io, died: bool, statOk: bool)
    requires Inv(w) && id in w.s.mem && !w.s.mem[id].used
    ensures Inv(w.(s := Settle(AfterSave(MarkUsed(w.s, id), io), died, statOk)))
    ensures io.dirOk && Replaces(io.trouble) ==>
      Inv(w.(s := AfterSave(MarkUsed(w.s, id), io), granted := w.granted + [w.s.mem[id].hash]))
  {
    SpendKeeps(w, id, io);
    CopyKeeps(w, MarkUsed(w.s, id), io, true, statOk, died);
  }

  lemma PurgePath(w: World, now: int, io: Io, died: bool, statOk: bool)
    requires Inv(w)
    ensures Inv(w.(s := Settle(AfterSave(AfterPurge(w.s, now), io), died, statOk)))
  {
    PurgeKeeps(w, now);
    CopyKeeps(w, AfterPurge(w.s, now), io, true, statOk, died);
  }

  lemma ConsumeKeeps(w: World, hash: Hash, found: Option<TokenID>, now: int, io: Io, statOk: bool)
    requires Inv(w) && Matches(w.s.mem, hash, found)
    ensures var (s, r) := AfterConsume(w.s, found, now, io);
            Inv(w.(s := Settle(s, r.ConsumeDied?, statOk), granted := w.granted + if r.Success? then [hash] else []))
  {
    var r := AfterConsume(w.s, found, now, io).1;
    PurgePath(w, now, io, r.ConsumeDied?, statOk);
    if found.Some? && !w.s.mem[found.value].used {
      SpendPath(w, found.value, io, r.ConsumeDied?, statOk);
    }
    assert w.granted + [] == w.granted;
  }

  lemma RevokePath(w: World, id: TokenID, io: Io, died: bool, statOk: bool)
    requires Inv(w) && id in w.s.mem
    ensures var s := w.s.(mem := w.s.mem[id := w.s.mem[id].(revoked := true)]);
      && Inv(w.(s := Settle(AfterSave(s, io), died, statOk)))
      && (io.dirOk && Replaces(io.trouble) ==>
            Inv(w.(s := AfterSave(s, io), barred := w.barred + {w.s.mem[id].hash})))
  {
    var m := w.s.mem[id := w.s.mem[id].(revoked := true)];
    assert Faithful(m, w.minted, w.granted, w.barred);
    assert Faithful(m, w.minted, w.granted, w.barred + {w.s.mem[id].hash});
    CopyKeeps(w, w.s.(mem := m), io, true, statOk, died);
  }

  lemma RevokeKeeps(w: World, id: TokenID, io: Io, statOk: bool)
    requires Inv(w)
    ensures Inv(Step(w, Revoke(id, io), statOk))
  {
    var r := AfterRevoke(w.s, id, io).1;
    if id in w.s.mem {
      RevokePath(w, id, io, r.RevokeDied?, statOk);
    }
    assert w.barred + {} == w.barred;
  }

  lemma StepKeeps(w: World, op: Op, statOk: bool)
    requires Inv(w) && Fits(w, op)
    ensures Inv(Step(w, op, statOk))
  {
    match op
    case Create(_, _, _, _, _) => CreateKeeps(w, op, statOk);
    case Consume(hash, found, now, readable, io) =>
      CopyKeeps(w, w.s, io, readable, statOk, false);
      ConsumeKeeps(w.(s := AfterReload(w.s, readable)), hash, found, now, io, statOk);
    case Revoke(id, io) => RevokeKeeps(w, id, io, statOk);
    case Crash => CopyKeeps(w, w.s, Io(false, "", Fine, false, Stamp(0, 0)), true, statOk, true);
  }

  lemma {:induction false} RunKeeps(w: World, ops: seq<(Op, bool)>)
    requires Inv(w) && Possible(w, ops)
    ensures Inv(Run(w, ops))
    decreases |ops|
  {
    if ops != [] {
      StepKeeps(w, ops[0].0, ops[0].1);
      RunKeeps(Step(w, ops[0].0, ops[0].1), ops[1..]);
    }
  }

  // ---- what it gives ----------------------------------------------------------------

  /** A process starting on a token file whose records have distinct hashes. */
  ghost predicate Begins(w: World) {
    && w.granted == [] && w.barred == {}
    && Inv(w)
  }

  /** At most one consumption of a token ever succeeds. */
  lemma ConsumedAtMostOnce(w: World, ops: seq<(Op, bool)>)
    requires Begins(w) && Possible(w, ops)
    ensures NoDup(Run(w, ops).granted)
  {
    RunKeeps(w, ops);
  }

  /** After a run in which a token was spent or successfully revoked, no
      consumption of it succeeds, whatever the disk and the clock do. */
  lemma SpentOrRevokedIsDead(w: World, ops: seq<(Op, bool)>, hash: Hash, found: Option<TokenID>, now: int,
                             readable: bool, io: Io)
    requires Inv(w) && Possible(w, ops)
    requires hash in Run(w, ops).granted || hash in Run(w, ops).barred
    requires Matches(AfterReload(Run(w, ops).s, readable).mem, hash, found)
    ensures !AfterConsume(AfterReload(Run(w, ops).s, readable), found, now, io).1.Success?
  {
    var v := Run(w, ops);
    RunKeeps(w, ops);
    CopyKeeps(v, v.s, io, readable, true, false);
    if found.Some? {
      var rec := AfterReload(v.s, readable).mem[found.value];
      assert rec.used || rec.revoked;
    }
  }

  // ---- a token that was not touched stays good ------------------------------------------

  /** Operations that neither consume the token, revoke or re-create its id, nor
      look at the clock after its expiry. */
  ghost predicate Spares(op: Op, rec: Record) {
    match op
    case Create(id, _, _, _, _) => id != rec.id
    case Consume(hash, _, now, _, _) => hash != rec.hash && now <= rec.expiresAt
    case Revoke(id, _) => id != rec.id
    case Crash => true
  }

  ghost predicate AllSpare(ops: seq<(Op, bool)>, rec: Record) {
    forall i :: 0 <= i < |ops| ==> Spares(ops[i].0, rec)
  }

  /** The record is in memory and in the file. */
  ghost predicate Holds(s: Store, rec: Record) {
    && rec.id in s.mem && s.mem[rec.id] == rec
    && s.file.Some? && rec.id in s.file.value.recs && s.file.value.recs[rec.id] == rec
  }

  lemma CopyHolds(s: Store, rec: Record, io: Io, readable: bool, died: bool, statOk: bool)
    requires Holds(s, rec)
    ensures Holds(AfterReload(s, readable), rec)
    ensures Holds(Settle(s, died, statOk), rec) && Holds(Settle(AfterSave(s, io), died, statOk), rec)
  {
  }

  lemma ConsumeHolds(s: Store, rec: Record, hash: Hash, found: Option<TokenID>, now: int, io: Io, statOk: bool)
    requires Holds(s, rec) && Matches(s.mem, hash, found) && hash != rec.hash && now <= rec.expiresAt
    ensures var (t, r) := AfterConsume(s, found, now, io); Holds(Settle(t, r.ConsumeDied?, statOk), rec)
  {
    var r := AfterConsume(s, found, now, io).1;
    CopyHolds(s, rec, io, true, r.ConsumeDied?, statOk);
    CopyHolds(AfterPurge(s, now), rec, io, true, r.ConsumeDied?, statOk);
    if found.Some? {
      CopyHolds(MarkUsed(s, found.value), rec, io, true, r.ConsumeDied?, statOk);
    }
  }

  lemma StepHolds(w: World, op: Op, statOk: bool, rec: Record)
    requires Fits(w, op) && Holds(w.s, rec) && Spares(op, rec)
    ensures Holds(Step(w, op, statOk).s, rec)
  {
    match op
    case Create(id, hash, ttl, now, io) =>
      var r := AfterCreate(w.s, id, hash, ttl, now, io).1;
      CopyHolds(w.s, rec, io, true, r.CreateDied?, statOk);
      if hash.Some? {
        var made := Record(id, hash.value, now + ttl, false, false);
        CopyHolds(w.s.(mem := w.s.mem[id := made]), rec, io, true, r.CreateDied?, statOk);
      }
    case Consume(hash, found, now, readable, io) =>
      CopyHolds(w.s, rec, io, readable, false, statOk);
      ConsumeHolds(AfterReload(w.s, readable), rec, hash, found, now, io, statOk);
    case Revoke(id, io) =>
      var r := AfterRevoke(w.s, id, io).1;
      CopyHolds(w.s, rec, io, true, r.RevokeDied?, statOk);
      if id in w.s.mem {
        CopyHolds(w.s.(mem := w.s.mem[id := w.s.mem[id].(revoked := true)]), rec, io, true, r.RevokeDied?, statOk);
      }
    case Crash =>
  }

  lemma {:induction false} RunHolds(w: World, ops: seq<(Op, bool)>, rec: Record)
    requires Possible(w, ops) && Holds(w.s, rec) && AllSpare(ops, rec)
    ensures Holds(Run(w, ops).s, rec)
    decreases |ops|
  {
    if ops != [] {
      assert Spares(ops[0].0, rec);
      StepHolds(w, ops[0].0, ops[0].1, rec);
      RunHolds(Step(w, ops[0].0, ops[0].1), ops[1..], rec);
    }
  }

  /** A token whose creation was saved is good after every run that does not
      touch it, with any restarts, failed saves and other tokens in between: its
      consumption succeeds exactly until it expires and as long as the mark is
      saved. */
  lemma UntouchedTokenWorks(w: World, created: Op, statOk: bool, ops: seq<(Op, bool)>, found: Option<TokenID>,
                            later: int, readable: bool, io: Io)
    requires Inv(w) && created.Create? && Fits(w, created)
    requires AfterCreate(w.s, created.id, created.minting, created.ttl, created.now, created.io).1.Created?
    requires Possible(Step(w, created, statOk), ops) && AllSpare(ops, Minted(created))
    requires Matches(AfterReload(Run(Step(w, created, statOk), ops).s, readable).mem, created.minting.value, found)
    ensures var s := AfterReload(Run(Step(w, created, statOk), ops).s, readable);
      var r := AfterConsume(s, found, later, io).1;
      && (r.Success? ==> r == Success(created.id))
      && (r.Success? <==> later <= created.now + created.ttl && io.dirOk && OutcomeOf(io.trouble) == Done)
  {
    var rec, w1 := Minted(created), Step(w, created, statOk);
    CreatedHolds(w, created, statOk);
    RunHolds(w1, ops, rec);
    StepKeeps(w, created, statOk);
    RunKeeps(w1, ops);
    var v := Run(w1, ops);
    CopyHolds(v.s, rec, io, readable, false, statOk);
    CopyKeeps(v, v.s, io, readable, statOk, false);
    HeldIsConsumed(AfterReload(v.s, readable), rec, v, found, later, io);
  }

  lemma CreatedHolds(w: World, created: Op, statOk: bool)
    requires created.Create? && Fits(w, created)
    requires AfterCreate(w.s, created.id, created.minting, created.ttl, created.now, created.io).1.Created?
    ensures Holds(Step(w, created, statOk).s, Minted(created))
  {
  }

  lemma HeldIsConsumed(s: Store, rec: Record, v: World, found: Option<TokenID>, later: int, io: Io)
    requires Holds(s, rec) && !rec.used && !rec.revoked
    requires Faithful(s.mem, v.minted, v.granted, v.barred) && Matches(s.mem, rec.hash, found)
    ensures var r := AfterConsume(s, found, later, io).1;
      && (r.Success? ==> r == Success(rec.id))
      && (r.Success? <==> later <= rec.expiresAt && io.dirOk && OutcomeOf(io.trouble) == Done)
  {
    assert found == Some(rec.id);
  }

  ghost function Minted(created: Op): Record
    requires created.Create? && created.minting.Some?
  {
    Record(created.id, created.minting.value, created.now + created.ttl, false, false)
  }
}
