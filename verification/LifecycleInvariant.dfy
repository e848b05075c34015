/** The inductive invariant of the lifecycle system and its preservation by every step. */
module LifecycleInvariant {
  import opened Entities
  import opened Access
  import opened Lifecycle

  /** What a download knows once it has seen the row and passed the password check. */
  ghost predicate AcceptedAt(d: Store, a: Alias, password: string) {
    a in d.uploads && Accepts(d.cfg, d.uploads[a].row.hash, password)
  }

  ghost predicate HandleOk(d: Store, h: Handle) {
    AcceptedAt(d, h.alias, h.password) && h.content == d.uploads[h.alias].up.bytes
  }

  /** A decrement that read `read` at time `at`: at most that many downloads were left. */
  ghost predicate ReadOk(d: Store, h: Handle, read: int, at: int) {
    && HandleOk(d, h)
    && at <= d.now && at < d.uploads[h.alias].row.expiresAt
    && 1 <= read
    && (d.uploads[h.alias].row.left == 1 ==> read == 1)
    && read <= d.uploads[h.alias].row.left <= d.served[h.alias] + read
  }

  ghost predicate LastOk(d: Store, h: Handle, read: int, at: int, delAt: int) {
    && ReadOk(d, h, read, at) && read == 1
    && h.alias in d.table
    && at <= delAt <= d.now && delAt < d.uploads[h.alias].row.expiresAt
  }

  ghost predicate MayDelete(d: Store, a: Alias, user: int, roles: seq<Role>) {
    a in d.uploads && MayManage(d.uploads[a].row.owner, user, roles)
  }

  ghost predicate DeleteOk(d: Store, a: Alias, user: int, roles: seq<Role>, delAt: int) {
    && MayDelete(d, a, user, roles)
    && a in d.table
    && delAt <= d.now && delAt < d.uploads[a].row.expiresAt
  }

  ghost predicate SweepOk(d: Store, at: int, batch: set<Alias>) {
    && at <= d.now
    && |batch| <= BATCH_LIMIT
    && forall a | a in batch :: a in d.table && d.table[a].expiresAt < at
  }

  ghost predicate DrawnBy(d: Store, t: Tid, a: Alias) {
    a in d.drawn && d.drawn[a] == t && a !in d.uploads
  }

  /** The row is that of the request, inserted some time ago, with the hash that was handed in. */
  ghost predicate RowFits(d: Store, row: Row, up: UploadCommand, hash: string) {
    && row.name == up.name && row.size == up.size && row.owner == up.user && row.left == up.max
    && row.loadedAt <= d.now && row.expiresAt == row.loadedAt + up.ttl
    && row.hash == hash && (up.password == "" ==> hash == "")
    && 1 <= up.max <= 10000 && up.size >= 0
  }

  ghost predicate PcOk(d: Store, t: Tid, pc: Pc) {
    match pc
    case UpStart(up) => Startable(pc, d.now)
    case UpAdmitted(up, a, hash) =>
      && Startable(UpStart(up), d.now) && DrawnBy(d, t, a) && a !in d.blobs && (up.password == "" ==> hash == "")
    case UpInserted(up, a, hash, row) => RowFits(d, row, up, hash) && DrawnBy(d, t, a)
    case UpStored(up, a, hash, row) =>
      RowFits(d, row, up, hash) && DrawnBy(d, t, a) && a in d.blobs && d.blobs[a] == up.bytes
    case DnStart(_, _) => true
    case DnFound(a, p) => AcceptedAt(d, a, p)
    case DnOpened(h) => HandleOk(d, h)
    case DnRead(h, read, at) => ReadOk(d, h, read, at)
    case DnUpdated(h, left, at, hit) => ReadOk(d, h, left + 1, at) && (hit <==> h.alias in d.table)
    case DnRowDeleted(h, read, at, delAt) => LastOk(d, h, read, at, delAt)
    case DnBlobDeleted(h, read, at, delAt) => LastOk(d, h, read, at, delAt) && h.alias !in d.blobs
    case RmStart(_, _, _) => true
    case RmFound(a, user, roles) => MayDelete(d, a, user, roles)
    case RmDeleting(a, user, roles, delAt) => MayDelete(d, a, user, roles) && delAt <= d.now
    case RmRowDeleted(a, user, roles, delAt) => DeleteOk(d, a, user, roles, delAt)
    case RmBlobDeleted(a, user, roles, delAt) => DeleteOk(d, a, user, roles, delAt) && a !in d.blobs
    case SwScanning(at, batch) => SweepOk(d, at, batch)
    case SwDeleting(at, batch, todo) =>
      SweepOk(d, at, batch) && todo <= batch && forall a | a in batch - todo :: a !in d.blobs
    case Finished(_) => true
  }

  /** A committed row is the uploaded row but for its counter, which counts no download that was not served;
      a blob under it is the uploaded one. */
  ghost predicate RowOk(d: Store, a: Alias)
    requires a in d.table
  {
    && a in d.uploads
    && d.table[a] == d.uploads[a].row.(left := d.table[a].left)
    && 1 <= d.table[a].left <= d.uploads[a].row.left <= d.served[a] + d.table[a].left
    && (a in d.blobs ==> d.blobs[a] == d.uploads[a].up.bytes)
    && d.removed[a] == 0
  }

  /** A removed upload has no blob, was removed once, and a limit of one was served at most once. */
  ghost predicate UploadOk(d: Store, a: Alias)
    requires a in d.uploads
  {
    && a in d.drawn
    && RowFits(d, d.uploads[a].row, d.uploads[a].up, d.uploads[a].hash)
    && (a !in d.table ==> a !in d.blobs && d.removed[a] == 1)
    && (d.uploads[a].row.left == 1 ==> d.served[a] <= 1)
    && (d.uploads[a].row.left == 1 && a in d.table ==> d.served[a] == 0 && d.table[a].left == 1)
  }

  ghost predicate AliasOk(d: Store, a: Alias) {
    && (a in d.table ==> RowOk(d, a))
    && (a in d.uploads ==> UploadOk(d, a))
    && (a in d.blobs ==> a in d.drawn && a !in d.torn)
    && (a !in d.uploads ==> a !in d.torn && d.removed[a] == 0 && d.served[a] == 0)
  }

  /** The reasons for which a committed row may have no blob. */
  ghost predicate BlobOk(s: State, a: Alias) {
    a in s.db.table && a !in s.db.blobs ==>
      || a in s.db.torn
      || s.db.table[a].expiresAt < s.db.now
      || (a in s.locks && BlobGone(PcOf(s, s.locks[a]), a))
  }

  function PcOf(s: State, t: Tid): Pc {
    if t in s.procs then s.procs[t] else Finished(false)
  }

  ghost predicate HoldsAll(s: State, t: Tid) {
    forall a | a in Held(PcOf(s, t)) :: a in s.locks && s.locks[a] == t
  }

  ghost predicate Inv(s: State) {
    && (forall t | t in s.procs :: PcOk(s.db, t, s.procs[t]) && HoldsAll(s, t))
    && (forall a | a in s.locks :: a in Held(PcOf(s, s.locks[a])))
    && (forall a :: AliasOk(s.db, a))
    && (forall a :: BlobOk(s, a))
  }

  // ---------------------------------------------------------------- framing

  /** Time passes, uploads and drawn aliases stay, downloads served stay served, and a removed row does not
      come back. */
  ghost predicate Extends(d: Store, e: Store) {
    && e.cfg == d.cfg && d.now <= e.now
    && (forall a | a in d.uploads :: d.served[a] <= e.served[a])
    && (forall a | a in d.uploads :: a in e.uploads && e.uploads[a] == d.uploads[a])
    && (forall a | a in d.uploads && a !in d.table :: a !in e.table)
    && (forall a | a in d.drawn :: a in e.drawn && e.drawn[a] == d.drawn[a])
  }

  ghost predicate SameAt(d: Store, e: Store, a: Alias) {
    && (a in d.table <==> a in e.table) && (a in d.table ==> d.table[a] == e.table[a])
    && (a in d.blobs <==> a in e.blobs) && (a in d.blobs ==> d.blobs[a] == e.blobs[a])
    && (a in d.uploads <==> a in e.uploads)
  }

  ghost predicate SameHistory(d: Store, e: Store, a: Alias) {
    d.served[a] == e.served[a] && d.removed[a] == e.removed[a] && (a in d.torn <==> a in e.torn)
  }

  lemma PcFrame(d: Store, e: Store, t: Tid, pc: Pc)
    requires PcOk(d, t, pc) && Extends(d, e)
    requires forall a | a in Held(pc) :: SameAt(d, e, a)
    requires pc.UpAdmitted? ==> SameAt(d, e, pc.alias)
    ensures PcOk(e, t, pc)
  {
    match pc
    case UpInserted(_, a, _, _) => assert a in Held(pc);
    case UpStored(_, a, _, _) => assert a in Held(pc);
    case DnUpdated(h, _, _, hit) => assert hit ==> h.alias in Held(pc);
    case DnRowDeleted(h, _, _, _) => assert h.alias in Held(pc);
    case DnBlobDeleted(h, _, _, _) => assert h.alias in Held(pc);
    case RmRowDeleted(a, _, _, _) => assert a in Held(pc);
    case RmBlobDeleted(a, _, _, _) => assert a in Held(pc);
    case SwScanning(_, batch) =>
      assert forall a | a in batch :: a in Held(pc) && SameAt(d, e, a);
    case SwDeleting(_, batch, _) =>
      assert forall a | a in batch :: a in Held(pc) && SameAt(d, e, a);
    case _ =>
  }

  /** A held alias is either a committed upload or one its holder has drawn and not committed. */
  lemma HeldIsKnown(d: Store, t: Tid, pc: Pc, a: Alias)
    requires PcOk(d, t, pc) && a in Held(pc) && AliasOk(d, a)
    ensures a in d.uploads || DrawnBy(d, t, a)
  {
  }

  /** Two processes never have a claim on the same alias. */
  lemma ClaimsAreDisjoint(s: State, t: Tid, u: Tid, a: Alias)
    requires Inv(s) && t in s.procs && u in s.procs && t != u
    requires a in Held(s.procs[t])
    ensures a !in Held(s.procs[u])
    ensures s.procs[u].UpAdmitted? ==> s.procs[u].alias != a
  {
    assert HoldsAll(s, t) && HoldsAll(s, u) && AliasOk(s.db, a);
    assert PcOf(s, t) == s.procs[t] && PcOf(s, u) == s.procs[u];
    HeldIsKnown(s.db, t, s.procs[t], a);
  }

  /** The store changes only at aliases process `t` holds. */
  ghost predicate Confined(s: State, s': State, t: Tid, touched: set<Alias>) {
    && Extends(s.db, s'.db)
    && touched <= Held(PcOf(s, t))
    && forall a | a !in touched :: SameAt(s.db, s'.db, a) && SameHistory(s.db, s'.db, a)
  }

  /** Only the locks of process `t` change, and they are exactly what `pc` holds. */
  ghost predicate Relocked(s: State, s': State, t: Tid, pc: Pc) {
    && (forall a | a in s'.locks ::
          (a in Held(pc) && s'.locks[a] == t) || (a in s.locks && s'.locks[a] == s.locks[a] != t))
    && (forall a | a in s.locks && s.locks[a] != t :: a in s'.locks && s'.locks[a] == s.locks[a])
    && (forall a | a in Held(pc) :: a in s'.locks && s'.locks[a] == t)
  }

  lemma OthersKeep(s: State, s': State, t: Tid, u: Tid, pc: Pc, touched: set<Alias>)
    requires Inv(s) && Confined(s, s', t, touched) && Relocked(s, s', t, pc)
    requires s'.procs == s.procs[t := pc]
    requires u in s.procs && u != t
    ensures PcOk(s'.db, u, s'.procs[u]) && HoldsAll(s', u)
  {
    forall a | a in touched
      ensures a !in Held(s.procs[u]) && (s.procs[u].UpAdmitted? ==> s.procs[u].alias != a)
    {
      ClaimsAreDisjoint(s, t, u, a);
    }
    PcFrame(s.db, s'.db, u, s.procs[u]);
    assert HoldsAll(s, u);
  }

  lemma AliasKeeps(s: State, s': State, t: Tid, pc: Pc, touched: set<Alias>, a: Alias)
    requires Confined(s, s', t, touched) && Relocked(s, s', t, pc)
    requires s'.procs == s.procs[t := pc]
    requires AliasOk(s.db, a) && BlobOk(s, a)
    requires a !in touched && !BlobGone(PcOf(s, t), a)
    ensures AliasOk(s'.db, a) && BlobOk(s', a)
  {
    assert SameAt(s.db, s'.db, a) && SameHistory(s.db, s'.db, a);
  }

  /** The one argument behind every step: process `t` moves to `pc`, the store changes only at
      aliases `t` holds, and everything about those aliases and `pc` is right afterwards. */
  lemma StepKeeps(s: State, s': State, t: Tid, pc: Pc, touched: set<Alias>)
    requires Inv(s) && Confined(s, s', t, touched) && Relocked(s, s', t, pc)
    requires s'.procs == s.procs[t := pc]
    requires forall a | a in touched :: AliasOk(s'.db, a) && BlobOk(s', a)
    requires forall a | BlobGone(PcOf(s, t), a) :: a in touched
    requires PcOk(s'.db, t, pc)
    ensures Inv(s')
  {
    forall u | u in s'.procs ensures PcOk(s'.db, u, s'.procs[u]) && HoldsAll(s', u) {
      if u != t {
        OthersKeep(s, s', t, u, pc, touched);
      }
    }
    forall a ensures AliasOk(s'.db, a) && BlobOk(s', a) {
      if a !in touched {
        assert AliasOk(s.db, a) && BlobOk(s, a);
        AliasKeeps(s, s', t, pc, touched, a);
      }
    }
    forall a | a in s'.locks ensures a in Held(PcOf(s', s'.locks[a])) {
    }
  }
}
