/** Every step of the lifecycle system keeps the invariant, hence every reachable state has it. */
module LifecycleSteps {
  import opened Entities
  import opened FilesTable
  import opened Lifecycle
  import opened LifecycleInvariant

  lemma TimePasses(d: Store, n: nat, a: Alias)
    requires AliasOk(d, a)
    ensures Extends(d, d.(now := d.now + n)) && AliasOk(d.(now := d.now + n), a)
  {
  }

  lemma TickKeeps(s: State, d: nat)
    requires Inv(s)
    ensures Inv(Step(s, Tick(d)))
  {
    var s' := Step(s, Tick(d));
    forall u | u in s'.procs ensures PcOk(s'.db, u, s'.procs[u]) && HoldsAll(s', u) {
      assert HoldsAll(s, u);
      PcFrame(s.db, s'.db, u, s.procs[u]);
    }
    forall a ensures AliasOk(s'.db, a) && BlobOk(s', a) {
      assert AliasOk(s.db, a) && BlobOk(s, a);
      TimePasses(s.db, d, a);
    }
    assert forall a | a in s'.locks :: PcOf(s', s'.locks[a]) == PcOf(s, s.locks[a]);
  }

  lemma SameLocks(s: State, s': State, t: Tid, pc: Pc)
    requires HoldsAll(s, t) && forall a | a in s.locks :: a in Held(PcOf(s, s.locks[a]))
    requires s'.locks == s.locks && Held(pc) == Held(PcOf(s, t))
    ensures Relocked(s, s', t, pc)
  {
  }

  lemma FewerLocks(s: State, t: Tid, ok: bool, db: Store)
    ensures Relocked(s, Finish(s, t, ok, db), t, Finished(ok))
  {
  }

  lemma MoreLocks(s: State, s': State, t: Tid, pc: Pc, a: Alias)
    requires Inv(s) && t in s.procs
    requires a !in s.locks && Held(pc) == Held(s.procs[t]) + {a} && s'.locks == s.locks[a := t]
    ensures Relocked(s, s', t, pc)
  {
    assert HoldsAll(s, t);
    assert PcOf(s, t) == s.procs[t];
    assert forall b | b in s.locks && s.locks[b] == t :: b in Held(PcOf(s, s.locks[b]));
  }

  /** A step that only moves the process on: the locks held stay the same. */
  lemma MoveKeeps(s: State, t: Tid, pc: Pc)
    requires Inv(s)
    requires Held(pc) == Held(PcOf(s, t)) && forall a :: !BlobGone(PcOf(s, t), a)
    requires PcOk(s.db, t, pc)
    ensures Inv(Goto(s, t, pc))
  {
    assert t in s.procs ==> HoldsAll(s, t);
    SameLocks(s, Goto(s, t, pc), t, pc);
    StepKeeps(s, Goto(s, t, pc), t, pc, {});
  }

  lemma AdmitKeeps(s: State, t: Tid, alias: Alias, hash: string)
    requires Inv(s) && Enabled(s, Admit(t, alias, hash))
    ensures Inv(Step(s, Admit(t, alias, hash)))
  {
    assert AliasOk(s.db, alias);
    assert t in s.procs ==> HoldsAll(s, t);
    SameLocks(s, Step(s, Admit(t, alias, hash)), t, UpAdmitted(s.procs[t].up, alias, hash));
    StepKeeps(s, Step(s, Admit(t, alias, hash)), t, UpAdmitted(s.procs[t].up, alias, hash), {});
  }

  /** A statement that takes the lock of one more alias and leaves the store alone. */
  lemma AcquireKeeps(s: State, t: Tid, pc: Pc, a: Alias)
    requires Inv(s) && t in s.procs
    requires a !in s.locks && Held(pc) == Held(s.procs[t]) + {a} && forall b :: !BlobGone(s.procs[t], b)
    requires PcOk(s.db, t, pc)
    ensures Inv(Goto(s, t, pc).(locks := s.locks[a := t]))
  {
    MoreLocks(s, Goto(s, t, pc).(locks := s.locks[a := t]), t, pc, a);
    StepKeeps(s, Goto(s, t, pc).(locks := s.locks[a := t]), t, pc, {});
  }

  lemma StorageEffect(d: Store, blobs: map<Alias, Bytes>, a: Alias)
    requires forall b | b != a :: (b in blobs <==> b in d.blobs) && (b in blobs ==> blobs[b] == d.blobs[b])
    ensures var e := d.(blobs := blobs);
      Extends(d, e) && forall b | b != a :: SameAt(d, e, b) && SameHistory(d, e, b)
  {
  }

  /** Why the row of `a` may be without a blob when its lock is with a process at `pc`. */
  lemma LockedBlobOk(s: State, t: Tid, pc: Pc, a: Alias)
    requires t in s.procs && s.procs[t] == pc && a in s.locks && s.locks[a] == t
    requires a in s.db.table && a !in s.db.blobs ==> BlobGone(pc, a) || s.db.table[a].expiresAt < s.db.now
    ensures BlobOk(s, a)
  {
  }

  /** A storage call under the lock of one alias. */
  lemma StorageKeeps(s: State, t: Tid, pc: Pc, a: Alias, blobs: map<Alias, Bytes>)
    requires Inv(s) && t in s.procs
    requires Held(pc) == Held(s.procs[t]) && a in Held(pc)
    requires forall b | b != a :: (b in blobs <==> b in s.db.blobs) && (b in blobs ==> blobs[b] == s.db.blobs[b])
    requires forall b :: !BlobGone(s.procs[t], b)
    requires PcOk(s.db.(blobs := blobs), t, pc)
    requires AliasOk(s.db.(blobs := blobs), a)
    requires a in s.db.table && a !in blobs ==> BlobGone(pc, a) || s.db.table[a].expiresAt < s.db.now
    ensures Inv(WithBlobs(Goto(s, t, pc), blobs))
  {
    var s' := WithBlobs(Goto(s, t, pc), blobs);
    assert t in s.procs ==> HoldsAll(s, t);
    SameLocks(s, s', t, pc);
    StorageEffect(s.db, blobs, a);
    assert a in s'.locks && s'.locks[a] == t by {
      assert HoldsAll(s, t) && PcOf(s, t) == s.procs[t];
    }
    LockedBlobOk(s', t, pc, a);
    StepKeeps(s, s', t, pc, {a});
  }

  /** The end of a transaction, with its effect on aliases it holds. */
  lemma FinishKeeps(s: State, t: Tid, ok: bool, db: Store, touched: set<Alias>)
    requires Inv(s) && t in s.procs
    requires Confined(s, Finish(s, t, ok, db), t, touched)
    requires forall a | BlobGone(s.procs[t], a) :: a in touched
    requires forall a | a in touched :: AliasOk(db, a)
    requires forall a | a in touched && a in db.table && a !in db.blobs ::
               a in db.torn || db.table[a].expiresAt < db.now
    ensures Inv(Finish(s, t, ok, db))
  {
    var s' := Finish(s, t, ok, db);
    FewerLocks(s, t, ok, db);
    StepKeeps(s, s', t, Finished(ok), touched);
  }

  /** The row under a lock is gone with its blob; the history goes on by one removal. */
  lemma RemovalEffect(d: Store, e: Store, a: Alias)
    requires AliasOk(d, a) && a in d.table && a !in d.blobs
    requires e == d.(table := d.table - {a}, removed := d.removed + multiset{a}, served := e.served)
    requires e.served[a] >= d.served[a] && forall b | b != a :: e.served[b] == d.served[b]
    requires d.uploads[a].row.left == 1 ==> e.served[a] <= 1
    ensures Extends(d, e) && AliasOk(e, a)
    ensures forall b | b != a :: SameAt(d, e, b) && SameHistory(d, e, b)
  {
  }

  // ---------------------------------------------------------------- uploads

  lemma InsertKeeps(s: State, t: Tid)
    requires Inv(s) && t in s.procs && CanGo(s, t) && s.procs[t].UpAdmitted?
    ensures Inv(Advance(s, t))
  {
    assert PcOk(s.db, t, s.procs[t]);
    AcquireKeeps(s, t, Advance(s, t).procs[t], s.procs[t].alias);
  }

  lemma StoreKeeps(s: State, t: Tid)
    requires Inv(s) && t in s.procs && CanGo(s, t) && s.procs[t].UpInserted?
    ensures Inv(Advance(s, t))
  {
    var UpInserted(up, a, hash, row) := s.procs[t];
    assert PcOk(s.db, t, s.procs[t]) && AliasOk(s.db, a);
    StorageKeeps(s, t, UpStored(up, a, hash, row), a, s.db.blobs[a := up.bytes]);
  }

  lemma UploadEffect(d: Store, e: Store, t: Tid, up: UploadCommand, a: Alias, hash: string, row: Row)
    requires AliasOk(d, a) && PcOk(d, t, UpStored(up, a, hash, row))
    requires e == d.(table := d.table[a := row], uploads := d.uploads[a := Record(row, up, hash)])
    ensures Extends(d, e) && AliasOk(e, a)
    ensures forall b | b != a :: SameAt(d, e, b) && SameHistory(d, e, b)
  {
  }

  lemma CommitUploadKeeps(s: State, t: Tid)
    requires Inv(s) && t in s.procs && s.procs[t].UpStored?
    ensures Inv(Advance(s, t))
  {
    var UpStored(up, a, hash, row) := s.procs[t];
    assert PcOk(s.db, t, s.procs[t]) && PcOf(s, t) == s.procs[t] && AliasOk(s.db, a);
    var db := CommitUpload(s, t, up, a, hash, row).db;
    UploadEffect(s.db, db, t, up, a, hash, row);
    FinishKeeps(s, t, true, db, {a});
  }

  // ---------------------------------------------------------------- downloads

  lemma FindKeeps(s: State, t: Tid)
    requires Inv(s) && t in s.procs && CanGo(s, t)
    requires s.procs[t].DnStart? || s.procs[t].DnFound?
    ensures Inv(Advance(s, t))
  {
    assert PcOk(s.db, t, s.procs[t]) && AliasOk(s.db, s.procs[t].alias);
    MoveKeeps(s, t, Advance(s, t).procs[t]);
  }

  lemma ReadKeeps(s: State, t: Tid)
    requires Inv(s) && t in s.procs && CanGo(s, t) && s.procs[t].DnOpened?
    ensures Inv(Advance(s, t))
  {
    assert PcOk(s.db, t, s.procs[t]) && AliasOk(s.db, s.procs[t].h.alias);
    MoveKeeps(s, t, Advance(s, t).procs[t]);
  }

  lemma UpdateKeeps(s: State, t: Tid)
    requires Inv(s) && t in s.procs && CanGo(s, t) && s.procs[t].DnRead?
    ensures Inv(Advance(s, t))
  {
    assert PcOk(s.db, t, s.procs[t]);
    var pc := Advance(s, t).procs[t];
    if pc.hit {
      AcquireKeeps(s, t, pc, pc.h.alias);
    } else {
      MoveKeeps(s, t, pc);
    }
  }

  /** Serving an alias whose limit is above one needs no lock to keep the invariant. */
  lemma ServedEffect(d: Store, a: Alias)
    ensures var e := d.(served := d.served + multiset{a});
      Extends(d, e) && forall b :: SameAt(d, e, b)
  {
  }

  lemma ServedAliasOk(d: Store, a: Alias, b: Alias)
    requires AliasOk(d, b) && a in d.uploads && d.uploads[a].row.left > 1
    ensures AliasOk(d.(served := d.served + multiset{a}), b)
  {
  }

  lemma ServedKeeps(s: State, a: Alias)
    requires Inv(s) && a in s.db.uploads && s.db.uploads[a].row.left > 1
    ensures Inv(s.(db := s.db.(served := s.db.served + multiset{a})))
  {
    var s' := s.(db := s.db.(served := s.db.served + multiset{a}));
    ServedEffect(s.db, a);
    forall u | u in s'.procs ensures PcOk(s'.db, u, s'.procs[u]) {
      PcFrame(s.db, s'.db, u, s.procs[u]);
    }
    forall u | u in s'.procs ensures HoldsAll(s', u) {
      assert HoldsAll(s, u);
    }
    forall b ensures AliasOk(s'.db, b) && BlobOk(s', b) {
      assert AliasOk(s.db, b) && BlobOk(s, b);
      ServedAliasOk(s.db, a, b);
    }
    assert forall b | b in s'.locks :: PcOf(s', s'.locks[b]) == PcOf(s, s.locks[b]);
  }

  lemma DecrementEffect(d: Store, e: Store, a: Alias, left: int)
    requires AliasOk(d, a) && a in d.table && left >= 1 && d.uploads[a].row.left > 1
    requires left <= d.uploads[a].row.left <= d.served[a] + left + 1
    requires e == d.(table := UpdateLeft(d.table, a, left), served := d.served + multiset{a})
    ensures Extends(d, e) && AliasOk(e, a)
    ensures forall b | b != a :: SameAt(d, e, b) && SameHistory(d, e, b)
  {
  }

  lemma DecrementKeeps(s: State, t: Tid)
    requires Inv(s) && t in s.procs && s.procs[t].DnUpdated? && s.procs[t].left > 0 && s.procs[t].hit
    ensures Inv(Advance(s, t))
  {
    var h := s.procs[t].h;
    assert PcOk(s.db, t, s.procs[t]) && PcOf(s, t) == s.procs[t];
    assert AliasOk(s.db, h.alias) && BlobOk(s, h.alias);
    assert HoldsAll(s, t);
    var db := CommitDecrement(s, t, h, s.procs[t].left, true).db;
    DecrementEffect(s.db, db, h.alias, s.procs[t].left);
    FinishKeeps(s, t, true, db, {h.alias});
  }

  lemma MissedDecrementKeeps(s: State, t: Tid)
    requires Inv(s) && t in s.procs && s.procs[t].DnUpdated? && s.procs[t].left > 0 && !s.procs[t].hit
    ensures Inv(Advance(s, t))
  {
    var a := s.procs[t].h.alias;
    assert PcOk(s.db, t, s.procs[t]) && AliasOk(s.db, a);
    ServedKeeps(s, a);
    var s1 := s.(db := s.db.(served := s.db.served + multiset{a}));
    FinishKeeps(s1, t, true, s1.db, {});
  }

  lemma LastRowKeeps(s: State, t: Tid)
    requires Inv(s) && t in s.procs && CanGo(s, t) && s.procs[t].DnUpdated? && s.procs[t].left <= 0
    ensures Inv(Advance(s, t))
  {
    assert PcOk(s.db, t, s.procs[t]) && AliasOk(s.db, s.procs[t].h.alias);
    MoveKeeps(s, t, Advance(s, t).procs[t]);
  }

  lemma LastBlobKeeps(s: State, t: Tid)
    requires Inv(s) && t in s.procs && s.procs[t].DnRowDeleted?
    ensures Inv(Advance(s, t))
  {
    var a := s.procs[t].h.alias;
    assert PcOk(s.db, t, s.procs[t]) && AliasOk(s.db, a);
    StorageKeeps(s, t, Advance(s, t).procs[t], a, s.db.blobs - {a});
  }

  lemma CommitLastKeeps(s: State, t: Tid)
    requires Inv(s) && t in s.procs && s.procs[t].DnBlobDeleted?
    ensures Inv(Advance(s, t))
  {
    var h := s.procs[t].h;
    assert PcOk(s.db, t, s.procs[t]) && HoldsAll(s, t) && PcOf(s, t) == s.procs[t] && AliasOk(s.db, h.alias);
    var db := CommitLastDownload(s, t, h).db;
    RemovalEffect(s.db, db, h.alias);
    FinishKeeps(s, t, true, db, {h.alias});
  }

  // ---------------------------------------------------------------- owner deletes

  lemma DeleteReadsKeep(s: State, t: Tid)
    requires Inv(s) && t in s.procs && CanGo(s, t)
    requires s.procs[t].RmStart? || s.procs[t].RmFound?
    ensures Inv(Advance(s, t))
  {
    assert PcOk(s.db, t, s.procs[t]) && AliasOk(s.db, s.procs[t].alias);
    MoveKeeps(s, t, Advance(s, t).procs[t]);
  }

  lemma DeleteRowKeeps(s: State, t: Tid)
    requires Inv(s) && t in s.procs && CanGo(s, t) && s.procs[t].RmDeleting?
    ensures Inv(Advance(s, t))
  {
    assert PcOk(s.db, t, s.procs[t]) && AliasOk(s.db, s.procs[t].alias);
    AcquireKeeps(s, t, Advance(s, t).procs[t], s.procs[t].alias);
  }

  lemma DeleteBlobKeeps(s: State, t: Tid)
    requires Inv(s) && t in s.procs && s.procs[t].RmRowDeleted?
    ensures Inv(Advance(s, t))
  {
    var a := s.procs[t].alias;
    assert PcOk(s.db, t, s.procs[t]) && AliasOk(s.db, a);
    StorageKeeps(s, t, Advance(s, t).procs[t], a, s.db.blobs - {a});
  }

  lemma CommitDeleteKeeps(s: State, t: Tid)
    requires Inv(s) && t in s.procs && s.procs[t].RmBlobDeleted?
    ensures Inv(Advance(s, t))
  {
    var a := s.procs[t].alias;
    assert PcOk(s.db, t, s.procs[t]) && HoldsAll(s, t) && PcOf(s, t) == s.procs[t] && AliasOk(s.db, a);
    var db := CommitDelete(s, t, a).db;
    RemovalEffect(s.db, db, a);
    FinishKeeps(s, t, true, db, {a});
  }

  // ---------------------------------------------------------------- sweeps

  lemma ScanKeeps(s: State, t: Tid, a: Alias)
    requires Inv(s) && Enabled(s, Pick(t, a)) && s.procs[t].SwScanning?
    ensures Inv(Step(s, Pick(t, a)))
  {
    var SwScanning(at, batch) := s.procs[t];
    var pc := SwScanning(at, batch + {a});
    assert PcOk(s.db, t, SwScanning(at, batch));
    assert PcOk(s.db, t, pc) by {
      assert |batch + {a}| <= |batch| + 1;
    }
    AcquireKeeps(s, t, pc, a);
  }

  lemma SweepBlobKeeps(s: State, t: Tid, a: Alias)
    requires Inv(s) && Enabled(s, Pick(t, a)) && s.procs[t].SwDeleting?
    ensures Inv(Step(s, Pick(t, a)))
  {
    assert PcOk(s.db, t, s.procs[t]) && AliasOk(s.db, a);
    StorageKeeps(s, t, Step(s, Pick(t, a)).procs[t], a, s.db.blobs - {a});
  }

  lemma EndScanKeeps(s: State, t: Tid)
    requires Inv(s) && t in s.procs && CanGo(s, t) && s.procs[t].SwScanning?
    ensures Inv(Advance(s, t))
  {
    assert PcOk(s.db, t, s.procs[t]);
    MoveKeeps(s, t, Advance(s, t).procs[t]);
  }

  lemma CommitSweepKeeps(s: State, t: Tid)
    requires Inv(s) && t in s.procs && CanGo(s, t) && s.procs[t].SwDeleting?
    ensures Inv(Advance(s, t))
  {
    var batch := s.procs[t].batch;
    var db := CommitSweep(s, t, batch).db;
    assert PcOk(s.db, t, s.procs[t]) && PcOf(s, t) == s.procs[t];
    forall a | a in batch ensures AliasOk(db, a) {
      assert AliasOk(s.db, a);
      assert multiset(batch)[a] == 1;
    }
    FinishKeeps(s, t, true, db, batch);
  }

  // ---------------------------------------------------------------- failures

  /** The aliases at which a failing call changes the store. */
  function Damaged(pc: Pc, damage: Damage): set<Alias>
    requires damage.Partial? ==> pc.UpInserted?
  {
    match damage
    case Partial(_) => {pc.alias}
    case Lost(a) => {a}
    case Clean => if pc.DnBlobDeleted? then {pc.h.alias} else if pc.RmBlobDeleted? then {pc.alias} else {}
  }

  lemma DamageIsContained(s: State, t: Tid, damage: Damage, a: Alias)
    requires Enabled(s, Fail(t, damage)) && a in Damaged(s.procs[t], damage)
    requires PcOk(s.db, t, s.procs[t]) && AliasOk(s.db, a)
    ensures a in Held(s.procs[t])
    ensures var db := Abort(s, t, damage).db;
      && AliasOk(db, a)
      && (a in db.table && a !in db.blobs ==> a in db.torn || db.table[a].expiresAt < db.now)
  {
  }

  lemma AbortEffect(s: State, t: Tid, damage: Damage)
    requires Enabled(s, Fail(t, damage))
    ensures var e := Abort(s, t, damage).db;
      && Extends(s.db, e)
      && forall b | b !in Damaged(s.procs[t], damage) :: SameAt(s.db, e, b) && SameHistory(s.db, e, b)
  {
  }

  lemma FailKeeps(s: State, t: Tid, damage: Damage)
    requires Inv(s) && Enabled(s, Fail(t, damage))
    ensures Inv(Step(s, Fail(t, damage)))
  {
    var touched := Damaged(s.procs[t], damage);
    var db := Abort(s, t, damage).db;
    AbortEffect(s, t, damage);
    forall a | a in touched
      ensures a in Held(PcOf(s, t)) && AliasOk(db, a)
      ensures a in db.table && a !in db.blobs ==> a in db.torn || db.table[a].expiresAt < db.now
    {
      assert PcOk(s.db, t, s.procs[t]) && AliasOk(s.db, a);
      DamageIsContained(s, t, damage, a);
    }
    FinishKeeps(s, t, false, db, touched);
  }

  // ---------------------------------------------------------------- all steps, all runs

  lemma GoKeeps(s: State, t: Tid)
    requires Inv(s) && t in s.procs && CanGo(s, t)
    ensures Inv(Advance(s, t))
  {
    match s.procs[t]
    case UpAdmitted(_, _, _) => InsertKeeps(s, t);
    case UpInserted(_, _, _, _) => StoreKeeps(s, t);
    case UpStored(_, _, _, _) => CommitUploadKeeps(s, t);
    case DnStart(_, _) => FindKeeps(s, t);
    case DnFound(_, _) => FindKeeps(s, t);
    case DnOpened(_) => ReadKeeps(s, t);
    case DnRead(_, _, _) => UpdateKeeps(s, t);
    case DnUpdated(_, left, _, _) =>
      if left > 0 && s.procs[t].hit {
        DecrementKeeps(s, t);
      } else if left > 0 {
        MissedDecrementKeeps(s, t);
      } else {
        LastRowKeeps(s, t);
      }
    case DnRowDeleted(_, _, _, _) => LastBlobKeeps(s, t);
    case DnBlobDeleted(_, _, _, _) => CommitLastKeeps(s, t);
    case RmStart(_, _, _) => DeleteReadsKeep(s, t);
    case RmFound(_, _, _) => DeleteReadsKeep(s, t);
    case RmDeleting(_, _, _, _) => DeleteRowKeeps(s, t);
    case RmRowDeleted(_, _, _, _) => DeleteBlobKeeps(s, t);
    case RmBlobDeleted(_, _, _, _) => CommitDeleteKeeps(s, t);
    case SwScanning(_, _) => EndScanKeeps(s, t);
    case SwDeleting(_, _, _) => CommitSweepKeeps(s, t);
  }

  lemma StepKeepsInv(s: State, e: Event)
    requires Inv(s) && Enabled(s, e)
    ensures Inv(Step(s, e))
  {
    match e
    case Tick(d) => TickKeeps(s, d);
    case Spawn(t, pc) => MoveKeeps(s, t, pc);
    case Admit(t, alias, hash) => AdmitKeeps(s, t, alias, hash);
    case Pick(t, alias) =>
      if s.procs[t].SwScanning? {
        ScanKeeps(s, t, alias);
      } else {
        SweepBlobKeeps(s, t, alias);
      }
    case Go(t) => GoKeeps(s, t);
    case Fail(t, damage) => FailKeeps(s, t, damage);
  }

  lemma {:induction false} RunKeepsInv(s0: State, es: seq<Event>)
    requires Inv(s0) && IsRun(s0, es)
    ensures Inv(After(s0, es))
    decreases |es|
  {
    if es != [] {
      RunKeepsInv(s0, es[..|es| - 1]);
      StepKeepsInv(After(s0, es[..|es| - 1]), es[|es| - 1]);
    }
  }

  lemma ReachableHasInv(s: State)
    requires Reachable(s)
    ensures Inv(s)
  {
    var cfg, now, es :| IsRun(Init(cfg, now), es) && After(Init(cfg, now), es) == s;
    RunKeepsInv(Init(cfg, now), es);
  }
}
