/** What each operation on the token store answers and changes, and what follows
    from an answer. */
module TokenOutcomes {
  import opened Collections
  import opened AtomicFile
  import opened TokenStore
  import opened TokenRuns

  /** The save goes through: the directory is there and the rename happened
      without a call failing. */
  ghost predicate Saves(io: Io) {
    io.dirOk && (io.trouble == Fine || io.trouble == Fails(Returning))
  }

  ghost predicate DiesSaving(io: Io) {
    io.dirOk && io.trouble.Dies?
  }

  /** A save that goes through leaves the file holding memory's records; a failed
      one leaves the file as it was. */
  lemma SaveOutcome(s: Store, io: Io)
    ensures IoOutcome(io) == (if Saves(io) then Done else if DiesSaving(io) then Died else Failed)
    ensures AfterSave(s, io).mem == s.mem && AfterSave(s, io).seen == s.seen
    ensures Saves(io) ==> AfterSave(s, io).file == Some(Saved(s.mem, io.stamp))
    ensures !Saves(io) && !DiesSaving(io) ==> AfterSave(s, io).file == s.file
  {
  }

  /** Exactly the records that are expired and were never used go. */
  lemma PurgeOutcome(s: Store, now: int, k: TokenID)
    ensures k in AfterPurge(s, now).mem <==> k in s.mem && (s.mem[k].used || now <= s.mem[k].expiresAt)
    ensures k in AfterPurge(s, now).mem ==> AfterPurge(s, now).mem[k] == s.mem[k]
    ensures AfterPurge(s, now).file == s.file
  {
  }

  /** A token is created exactly for a lifetime of up to a day, an id and a
      plaintext; it is neither used nor revoked, and no other record changes. */
  lemma CreateOutcome(s: Store, id: TokenID, hash: Option<Hash>, ttl: int, now: int, io: Io)
    ensures var (t, r) := AfterCreate(s, id, hash, ttl, now, io);
      var lifetime, named := 0 < ttl <= 24 * 3600 * 1_000_000_000, id.text != "" && hash.Some?;
      && (r == BadTTL <==> !lifetime)
      && (r == MissingField <==> lifetime && !named)
      && (r == CreateNotSaved <==> lifetime && named && !Saves(io) && !DiesSaving(io))
      && (r == CreateDied <==> lifetime && named && DiesSaving(io))
      && (r.Created? <==> lifetime && named && Saves(io))
      && (r.Created? ==> r.rec == Record(id, hash.value, now + ttl, false, false))
      && (lifetime && named ==> t.mem == s.mem[id := Record(id, hash.value, now + ttl, false, false)])
      && (!lifetime || !named ==> t == s)
  {
  }

  /** What a consumption answers: nothing is known under the hash; it was
      revoked; it is expired; it was used; the mark could not be saved; success.
      The first that applies decides, and only a token that is none of the first
      four is marked. */
  lemma ConsumeOutcome(s: Store, hash: Hash, found: Option<TokenID>, now: int, io: Io)
    requires Matches(s.mem, hash, found)
    ensures var (t, r) := AfterConsume(s, found, now, io);
      var known := exists k :: k in s.mem && s.mem[k].hash == hash;
      && known == found.Some?
      && (r == Invalid <==> !known && !DiesSaving(io))
      && (r == Revoked <==> known && s.mem[found.value].revoked)
      && (r == Expired <==> known && !s.mem[found.value].revoked && now > s.mem[found.value].expiresAt
                            && !DiesSaving(io))
      && (r == Used <==> known && !s.mem[found.value].revoked && now <= s.mem[found.value].expiresAt
                         && s.mem[found.value].used)
      && (r == NotSaved <==> Good(s, found, now) && !Saves(io) && !DiesSaving(io))
      && (r.Success? <==> Good(s, found, now) && Saves(io))
      && (r.Success? ==> r.id == found.value)
      && (Good(s, found, now) ==> t.mem == s.mem[found.value := s.mem[found.value].(used := true)])
      && (r == Revoked || r == Used ==> t == s)
      && (r == Invalid || r == Expired ==> t.mem == AfterPurge(s, now).mem)
  {
    if exists k :: k in s.mem && s.mem[k].hash == hash {
      assert found.Some?;
    }
  }

  /** Known, and neither revoked, expired nor used. */
  ghost predicate Good(s: Store, found: Option<TokenID>, now: int) {
    && found.Some? && found.value in s.mem
    && !s.mem[found.value].revoked && now <= s.mem[found.value].expiresAt && !s.mem[found.value].used
  }

  /** A revocation marks the record with the id, whatever its state, if there is
      one, and nothing else. */
  lemma RevokeOutcome(s: Store, id: TokenID, io: Io)
    ensures var (t, r) := AfterRevoke(s, id, io);
      && (r == NotFound <==> id !in s.mem)
      && (r == RevokeOk <==> id in s.mem && Saves(io))
      && (r == RevokeNotSaved <==> id in s.mem && !Saves(io) && !DiesSaving(io))
      && (id in s.mem ==> t.mem == s.mem[id := s.mem[id].(revoked := true)])
      && (id !in s.mem ==> t == s)
      && (r == RevokeOk ==> t.file == Some(Saved(t.mem, io.stamp)))
  {
  }

  /** Memory becomes the file's records exactly when the file can be read and is
      not the one last seen; so a change made to it by hand is honoured. */
  lemma ReloadOutcome(s: Store, readable: bool)
    ensures AfterReload(s, readable).mem ==
      if s.file.Some? && readable && s.file.value.stamp != s.seen then s.file.value.recs else s.mem
    ensures AfterReload(s, readable).file == s.file
  {
  }

  /** What a reported success saved survives a restart. */
  lemma SavedSurvivesRestart(s: Store, io: Io, statOk: bool)
    requires Saves(io)
    ensures AfterRestart(AfterSave(s, io), statOk).mem == s.mem
    ensures AfterRestart(AfterSave(s, io), statOk).file == AfterSave(s, io).file
  {
  }

  /** A saved revocation of a known id is reported, and no consumption of its
      token succeeds afterwards, over every continuation with any failures,
      restarts and reloads. */
  lemma RevocationKills(w: World, id: TokenID, io: Io, statOk: bool, more: seq<(Op, bool)>, found: Option<TokenID>,
                        now: int, readable: bool, io2: Io)
    requires Inv(w) && id in w.s.mem && Saves(io)
    requires Possible(Step(w, Revoke(id, io), statOk), more)
    requires var v := Run(Step(w, Revoke(id, io), statOk), more);
      Matches(AfterReload(v.s, readable).mem, w.s.mem[id].hash, found)
    ensures AfterRevoke(w.s, id, io).1 == RevokeOk
    ensures var v := Run(Step(w, Revoke(id, io), statOk), more);
      !AfterConsume(AfterReload(v.s, readable), found, now, io2).1.Success?
  {
    var hash, w1 := w.s.mem[id].hash, Step(w, Revoke(id, io), statOk);
    RevokeOutcome(w.s, id, io);
    StepKeeps(w, Revoke(id, io), statOk);
    assert hash in w1.barred;
    BarredStays(w1, more, hash);
    SpentOrRevokedIsDead(w1, more, hash, found, now, readable, io2);
  }

  lemma {:induction false} BarredStays(w: World, ops: seq<(Op, bool)>, hash: Hash)
    requires Possible(w, ops) && hash in w.barred
    ensures hash in Run(w, ops).barred
    decreases |ops|
  {
    if ops != [] {
      assert hash in Step(w, ops[0].0, ops[0].1).barred;
      BarredStays(Step(w, ops[0].0, ops[0].1), ops[1..], hash);
    }
  }

  /** A created token that nothing touched is revoked by a saved revocation of its
      id, and is dead from then on. */
  lemma UntouchedTokenCanBeRevoked(w: World, created: Op, statOk: bool, ops: seq<(Op, bool)>, io: Io, statOk2: bool,
                                   more: seq<(Op, bool)>, found: Option<TokenID>, now: int, readable: bool, io2: Io)
    requires Inv(w) && created.Create? && Fits(w, created) && Saves(io)
    requires AfterCreate(w.s, created.id, created.minting, created.ttl, created.now, created.io).1.Created?
    requires Possible(Step(w, created, statOk), ops) && AllSpare(ops, Minted(created))
    requires Possible(Step(Run(Step(w, created, statOk), ops), Revoke(created.id, io), statOk2), more)
    requires var v := Run(Step(Run(Step(w, created, statOk), ops), Revoke(created.id, io), statOk2), more);
      Matches(AfterReload(v.s, readable).mem, created.minting.value, found)
    ensures AfterRevoke(Run(Step(w, created, statOk), ops).s, created.id, io).1 == RevokeOk
    ensures var v := Run(Step(Run(Step(w, created, statOk), ops), Revoke(created.id, io), statOk2), more);
      !AfterConsume(AfterReload(v.s, readable), found, now, io2).1.Success?
  {
    var w1 := Step(w, created, statOk);
    CreatedHolds(w, created, statOk);
    RunHolds(w1, ops, Minted(created));
    StepKeeps(w, created, statOk);
    RunKeeps(w1, ops);
    RevocationKills(Run(w1, ops), created.id, io, statOk2, more, found, now, readable, io2);
  }
}
