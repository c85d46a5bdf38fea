/** The one-time enrolment token store (internal/auth/store.go): records in
    memory, a copy in tokens.json, and saves and reloads that may fail. */
module TokenStore {
  import opened Collections
  import opened AtomicFile

  datatype TokenID = TokenID(text: string)
  datatype Hash = Hash(hex: string)

  datatype Record = Record(id: TokenID, hash: Hash, expiresAt: int, used: bool, revoked: bool)

  // ---- records and maps ------------------------------------------------------

  /** replaceFrom: later records win, records without an id are skipped. */
  function Decode(records: seq<Record>): (m: map<TokenID, Record>)
  {
    if records == [] then map[]
    else
      var m := Decode(records[..|records| - 1]);
      var r := records[|records| - 1];
      if r.id.text == "" then m else m[r.id := r]
  }

  ghost predicate Keyed(m: map<TokenID, Record>) {
    forall k :: k in m ==> m[k].id == k && k.text != ""
  }

  lemma {:induction false} DecodeKeyed(records: seq<Record>)
    ensures Keyed(Decode(records))
  {
    if records != [] {
      DecodeKeyed(records[..|records| - 1]);
    }
  }

  ghost predicate IsLast(records: seq<Record>, i: int, k: TokenID) {
    0 <= i < |records| && records[i].id == k && forall j :: i < j < |records| ==> records[j].id != k
  }

  /** The last record with an id is the one kept under it. */
  lemma {:induction false} LastRecordIsKept(records: seq<Record>, i: nat, k: TokenID)
    requires IsLast(records, i, k) && k.text != ""
    ensures k in Decode(records) && Decode(records)[k] == records[i]
  {
    var n := |records| - 1;
    if i < n {
      assert records[n].id != k;
      LastRecordIsKept(records[..n], i, k);
    }
  }

  /** And nothing is kept under an id that no record has, or under none. */
  lemma {:induction false} NothingElseIsKept(records: seq<Record>, k: TokenID)
    requires k.text == "" || forall i :: 0 <= i < |records| ==> records[i].id != k
    ensures k !in Decode(records)
  {
    if records != [] {
      NothingElseIsKept(records[..|records| - 1], k);
    }
  }

  method ReplaceFrom(records: seq<Record>) returns (m: map<TokenID, Record>)
    ensures m == Decode(records)
  {
    m := map[];
    for i := 0 to |records|
      invariant m == Decode(records[..i])
    {
      var r := records[i];
      assert records[..i + 1][..i] == records[..i];
      if r.id.text != "" {
        m := m[r.id := r];
      }
    }
    assert records[..|records|] == records;
  }

  /** The records of a map, in whatever order it yields them: reading them back
      restores the map. */
  method RecordsOf(m: map<TokenID, Record>) returns (records: seq<Record>)
    requires Keyed(m)
    ensures Decode(records) == m
  {
    records := [];
    var todo := m.Keys;
    while todo != {}
      invariant todo <= m.Keys
      invariant Decode(records) == map k | k in m && k !in todo :: m[k]
      decreases todo
    {
      var k :| k in todo;
      assert (records + [m[k]])[..|records|] == records;
      records := records + [m[k]];
      todo := todo - {k};
    }
  }

  // ---- the store as a value ----------------------------------------------------

  /** The file's content as a map, with its stamp. */
  datatype Saved = Saved(recs: map<TokenID, Record>, stamp: Stamp)

  /** `seen` is lastMod/lastSize. */
  datatype Store = Store(mem: map<TokenID, Record>, seen: Stamp, file: Option<Saved>)

  /** What the system does during one save: can the directory be made, what goes
      wrong in the atomic write, and the stamp a new file gets. */
  datatype Io = Io(dirOk: bool, tmp: string, trouble: Trouble, removes: bool, stamp: Stamp)

  function IoOutcome(io: Io): Outcome {
    if !io.dirOk then Failed else OutcomeOf(io.trouble)
  }

  function AfterSave(s: Store, io: Io): (r: Store)
  {
    if io.dirOk && Replaces(io.trouble) then s.(file := Some(Saved(s.mem, io.stamp))) else s
  }

  /** reloadIfChanged: an unreadable, missing or unchanged file leaves memory
      alone. */
  function AfterReload(s: Store, readable: bool): (r: Store)
  {
    if s.file.None? || !readable || s.file.value.stamp == s.seen then s
    else s.(mem := s.file.value.recs, seen := s.file.value.stamp)
  }

  /** LoadTokenStore in a new process. */
  function AfterRestart(s: Store, statOk: bool): (r: Store)
  {
    match s.file
    case None => Store(map[], Stamp(0, 0), None)
    case Some(f) => Store(f.recs, if statOk then f.stamp else Stamp(0, 0), s.file)
  }

  function AfterPurge(s: Store, now: int): (r: Store)
  {
    s.(mem := map k | k in s.mem && !(now > s.mem[k].expiresAt && !s.mem[k].used) :: s.mem[k])
  }

  const DAY := 86_400_000_000_000

  datatype CreateResult = Created(rec: Record) | BadTTL | MissingField | CreateNotSaved | CreateDied
  datatype ConsumeResult = Success(id: TokenID) | Invalid | Revoked | Expired | Used | NotSaved | ConsumeDied
  datatype RevokeResult = RevokeOk | NotFound | RevokeNotSaved | RevokeDied

  /** `hash` is None for an empty plaintext. */
  function AfterCreate(s: Store, id: TokenID, hash: Option<Hash>, ttl: int, now: int, io: Io)
    : (r: (Store, CreateResult))
  {
    if ttl <= 0 || ttl > DAY then (s, BadTTL)
    else if id.text == "" || hash.None? then (s, MissingField)
    else
      var rec := Record(id, hash.value, now + ttl, false, false);
      (AfterSave(s.(mem := s.mem[id := rec]), io),
       match IoOutcome(io) case Done => Created(rec) case Failed => CreateNotSaved case Died => CreateDied)
  }

  /** The look-up in Consume: any record with the hash, None if there is none. */
  ghost predicate Matches(m: map<TokenID, Record>, hash: Hash, found: Option<TokenID>) {
    match found
    case Some(id) => id in m && m[id].hash == hash
    case None => forall k :: k in m ==> m[k].hash != hash
  }

  /** Consume after the reload and the look-up. */
  function AfterConsume(s: Store, found: Option<TokenID>, now: int, io: Io): (r: (Store, ConsumeResult))
    requires found.Some? ==> found.value in s.mem
  {
    if found.None? then
      (AfterSave(AfterPurge(s, now), io), if IoOutcome(io) == Died then ConsumeDied else Invalid)
    else
      var rec := s.mem[found.value];
      if rec.revoked then (s, Revoked)
      else if now > rec.expiresAt then
        (AfterSave(AfterPurge(s, now), io), if IoOutcome(io) == Died then ConsumeDied else Expired)
      else if rec.used then (s, Used)
      else
        (AfterSave(s.(mem := s.mem[found.value := rec.(used := true)]), io),
         match IoOutcome(io) case Done => Success(found.value) case Failed => NotSaved case Died => ConsumeDied)
  }

  function AfterRevoke(s: Store, id: TokenID, io: Io): (r: (Store, RevokeResult))
  {
    if id !in s.mem then (s, NotFound)
    else
      (AfterSave(s.(mem := s.mem[id := s.mem[id].(revoked := true)]), io),
       match IoOutcome(io) case Done => RevokeOk case Failed => RevokeNotSaved case Died => RevokeDied)
  }

  // ---- the store as implemented ---------------------------------------------------

  class TokenStore {
    const path: string
    const disk: Disk<Record>
    var byID: map<TokenID, Record>
    var last: Stamp

    ghost predicate Valid()
      reads this
    {
      Keyed(byID)
    }

    ghost function Abs(): (s: Store)
      reads this, disk
    {
      Store(byID, last,
            if path in disk.files then Some(Saved(Decode(disk.files[path].data), disk.files[path].stamp)) else None)
    }

    /** LoadTokenStore: a missing file is an empty store. */
    constructor (path: string, disk: Disk<Record>, statOk: bool)
      ensures Valid() && this.disk == disk && this.path == path
      ensures Abs() == AfterRestart(Store(map[], Stamp(0, 0), Abs().file), statOk)
    {
      this.path, this.disk := path, disk;
      byID, last := map[], Stamp(0, 0);
      new;
      if path in disk.files {
        byID := ReplaceFrom(disk.files[path].data);
        DecodeKeyed(disk.files[path].data);
        if statOk {
          last := disk.files[path].stamp;
        }
      }
    }

    method ReloadIfChanged(readable: bool)
      requires Valid()
      modifies this
      ensures Valid() && Abs() == AfterReload(old(Abs()), readable)
    {
      if path !in disk.files || !readable {
        return;
      }
      var f := disk.files[path];
      if f.stamp == last {
        return;
      }
      byID := ReplaceFrom(f.data);
      DecodeKeyed(f.data);
      last := f.stamp;
    }

    method SaveLocked(io: Io) returns (r: Outcome)
      requires Valid() && io.tmp !in disk.files && io.tmp != path
      modifies disk
      ensures Valid() && r == IoOutcome(io)
      ensures Abs() == AfterSave(old(Abs()), io)
    {
      var records := RecordsOf(byID);
      if !io.dirOk {
        return Failed;
      }
      ghost var before := disk.files;
      r := disk.Write(path, io.tmp, records, io.trouble, io.removes, io.stamp);
      assert path in disk.files <==> path in disk.files - {io.tmp};
      assert path in disk.files ==> disk.files[path] == (disk.files - {io.tmp})[path];
    }

    method PurgeExpired(now: int)
      requires Valid()
      modifies this
      ensures Valid() && Abs() == AfterPurge(old(Abs()), now)
    {
      var todo := byID.Keys;
      while todo != {}
        invariant todo <= old(byID).Keys && last == old(last)
        invariant byID == map k | k in old(byID)
          && (k in todo || !(now > old(byID)[k].expiresAt && !old(byID)[k].used)) :: old(byID)[k]
        decreases todo
      {
        var k :| k in todo;
        var rec := byID[k];
        if now > rec.expiresAt && !rec.used {
          byID := byID - {k};
        }
        todo := todo - {k};
      }
    }

    method Create(id: TokenID, hash: Option<Hash>, ttl: int, now: int, io: Io) returns (r: CreateResult)
      requires Valid() && io.tmp !in disk.files && io.tmp != path
      modifies this, disk
      ensures Valid() && (Abs(), r) == AfterCreate(old(Abs()), id, hash, ttl, now, io)
    {
      if ttl <= 0 || ttl > DAY {
        return BadTTL;
      }
      if id.text == "" || hash.None? {
        return MissingField;
      }
      var rec := Record(id, hash.value, now + ttl, false, false);
      byID := byID[id := rec];
      var saved := SaveLocked(io);
      r := match saved case Done => Created(rec) case Failed => CreateNotSaved case Died => CreateDied;
    }

    method Consume(hash: Hash, now: int, readable: bool, io: Io)
      returns (r: ConsumeResult, ghost found: Option<TokenID>)
      requires Valid() && io.tmp !in disk.files && io.tmp != path
      modifies this, disk
      ensures Valid()
      ensures Matches(AfterReload(old(Abs()), readable).mem, hash, found)
      ensures (Abs(), r) == AfterConsume(AfterReload(old(Abs()), readable), found, now, io)
    {
      ReloadIfChanged(readable);
      var hit: Option<TokenID> := FindHash(byID, hash);
      found := hit;
      if hit.None? {
        PurgeExpired(now);
        var saved := SaveLocked(io);
        return if saved == Died then ConsumeDied else Invalid, found;
      }
      var rec := byID[hit.value];
      if rec.revoked {
        return Revoked, found;
      }
      if now > rec.expiresAt {
        PurgeExpired(now);
        var saved := SaveLocked(io);
        return if saved == Died then ConsumeDied else Expired, found;
      }
      if rec.used {
        return Used, found;
      }
      byID := byID[hit.value := rec.(used := true)];
      var saved := SaveLocked(io);
      r := match saved case Done => Success(hit.value) case Failed => NotSaved case Died => ConsumeDied;
    }

    method Revoke(id: TokenID, io: Io) returns (r: RevokeResult)
      requires Valid() && io.tmp !in disk.files && io.tmp != path
      modifies this, disk
      ensures Valid() && (Abs(), r) == AfterRevoke(old(Abs()), id, io)
    {
      if id !in byID {
        return NotFound;
      }
      byID := byID[id := byID[id].(revoked := true)];
      var saved := SaveLocked(io);
      r := match saved case Done => RevokeOk case Failed => RevokeNotSaved case Died => RevokeDied;
    }
  }

  /** The scan over the map, stopping at the first record with the hash. */
  method FindHash(m: map<TokenID, Record>, hash: Hash) returns (found: Option<TokenID>)
    ensures Matches(m, hash, found)
  {
    var todo := m.Keys;
    while todo != {}
      invariant todo <= m.Keys
      invariant forall k :: k in m && k !in todo ==> m[k].hash != hash
      decreases todo
    {
      var k :| k in todo;
      if m[k].hash == hash {
        return Some(k);
      }
      todo := todo - {k};
    }
    return None;
  }
}
