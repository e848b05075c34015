/** The service and the worker, one call at a time, refine the interleaved system: every call, whatever
    fails in it, has the effect of a run of that system. What holds in its reachable states therefore holds
    of the table and the blob store the classes keep. */
module LifecycleRefinement {
  import opened Entities
  import opened FilesTable
  import opened Access
  import opened Storage
  import opened Service
  import opened Lifecycle
  import opened LifecycleInvariant
  import opened LifecycleSteps
  import opened LifecycleSolo
  import Worker

  // ---------------------------------------------------------------- runs

  lemma SelfReach(s: State)
    ensures Reach(s, s)
  {
    assert IsRun(s, []) && After(s, []) == s;
  }

  lemma AloneReaches(s: State, s': State, t: Tid)
    requires Alone(s, s', t)
    ensures Reach(s, s')
  {
    SelfReach(s);
    ReachAlone(s, s, s', t);
  }

  lemma StaysReachable(s: State, s': State)
    requires Reachable(s) && Reach(s, s')
    ensures Reachable(s')
  {
    var cfg, now, es :| IsRun(Init(cfg, now), es) && After(Init(cfg, now), es) == s;
    var fs :| IsRun(s, fs) && After(s, fs) == s';
    RunOn(Init(cfg, now), s, fs);
  }

  lemma {:induction false} Bound(ts: set<Tid>) returns (n: Tid)
    ensures forall t | t in ts :: t < n
    decreases ts
  {
    n := 0;
    if ts != {} {
      var t :| t in ts;
      var m := Bound(ts - {t});
      n := if t < m then m else t + 1;
      assert forall u | u in ts :: u == t || u in ts - {t};
    }
  }

  /** A number no process has. */
  lemma FreshTid(s: State) returns (t: Tid)
    ensures t !in s.procs && Alone(s, s, t)
  {
    t := Bound(s.procs.Keys);
    Stay(s, t);
  }

  /** A call that fails before it has changed anything. */
  lemma FailsAtOnce(s: State, pc: Pc) returns (s': State)
    requires Startable(pc, s.db.now) && s.locks == map[]
    ensures Reach(s, s') && s'.db == s.db && s'.locks == map[]
  {
    SelfReach(s);
    var t := FreshTid(s);
    var s1 := Goto(s, t, pc);
    ReachStep(s, s, Spawn(t, pc), s1);
    s' := Abort(s1, t, Clean);
    ReachStep(s, s1, Fail(t, Clean), s');
    assert s.db.torn + {} == s.db.torn;
  }

  /** A request whose Commit fails after its storage Delete. */
  lemma FailsAtCommit(s: State, t: Tid, pc: Pc, a: Alias, d: Store) returns (s': State)
    requires Alone(s, With(s, t, pc, map[a := t], d), t) && BlobGone(pc, a)
    ensures Reach(s, s') && s'.db == d.(torn := d.torn + {a}) && s'.locks == map[]
  {
    var s1 := With(s, t, pc, map[a := t], d);
    AloneReaches(s, s1, t);
    s' := Abort(s1, t, Clean);
    ReachStep(s, s1, Fail(t, Clean), s');
  }

  // ---------------------------------------------------------------- the abstraction

  /** A folder with files in it holds the blob of its alias. */
  ghost predicate Holds(folders: Folders, blobs: map<Alias, Bytes>, a: Alias) {
    && (a in blobs <==> FolderAt(folders, a) != map[])
    && (a in blobs ==> FirstFile(FolderAt(folders, a), blobs[a]))
  }

  ghost predicate HoldsAllBlobs(folders: Folders, blobs: map<Alias, Bytes>) {
    forall a :: Holds(folders, blobs, a)
  }

  /** The serial state is that of the store, and nothing is under way. */
  ghost predicate Matches(table: Table, now: int, folders: Folders, s: State) {
    s.locks == map[] && s.db.table == table && s.db.now == now && HoldsAllBlobs(folders, s.db.blobs)
  }

  ghost predicate Abstracts(fs: FileService, s: State)
    reads fs.repo, fs.storage
  {
    fs.repo.tx == None && fs.cfg == s.db.cfg && Matches(fs.repo.table, fs.repo.now, fs.storage.folders, s)
  }

  lemma BlobsRemoved(folders: Folders, blobs: map<Alias, Bytes>, batch: set<Alias>)
    requires HoldsAllBlobs(folders, blobs)
    ensures HoldsAllBlobs(folders - batch, blobs - batch)
  {
    forall a ensures Holds(folders - batch, blobs - batch, a) {
      assert Holds(folders, blobs, a);
    }
  }

  /** One file in a folder that had none is the blob of its alias. */
  lemma BlobStored(folders: Folders, blobs: map<Alias, Bytes>, folders': Folders, a: Alias, name: string, rest: Bytes)
    requires HoldsAllBlobs(folders, blobs) && a !in blobs
    requires forall b | b != a :: FolderAt(folders', b) == FolderAt(folders, b)
    requires FolderAt(folders', a) == FolderAt(folders, a)[name := rest]
    ensures HoldsAllBlobs(folders', blobs[a := rest])
  {
    assert Holds(folders, blobs, a);
    NamesAreOrdered(name, name);
    assert IsFirst(FolderAt(folders', a).Keys, name);
    var blobs' := blobs[a := rest];
    forall b ensures Holds(folders', blobs', b) {
      assert Holds(folders, blobs, b);
    }
  }

  lemma NoBlobStored(folders: Folders, blobs: map<Alias, Bytes>, folders': Folders, a: Alias)
    requires HoldsAllBlobs(folders, blobs) && a !in blobs
    requires forall b | b != a :: FolderAt(folders', b) == FolderAt(folders, b)
    requires FolderAt(folders', a) == map[]
    ensures HoldsAllBlobs(folders', blobs)
  {
    forall b ensures Holds(folders', blobs, b) {
      assert Holds(folders, blobs, b);
    }
  }

  // ---------------------------------------------------------------- downloads

  lemma DownloadRuns(s: State, folders: Folders, a: Alias, password: string, content: Bytes) returns (s': State)
    requires Reachable(s) && s.locks == map[] && HoldsAllBlobs(folders, s.db.blobs)
    requires HasLive(s.db.table, a, s.db.now) && Accepts(s.db.cfg, s.db.table[a].hash, password)
    requires a in folders && FirstFile(folders[a], content)
    ensures a in s.db.uploads && content == s.db.uploads[a].up.bytes
    ensures Reach(s, s') && s'.locks == map[]
    ensures s'.db == if s.db.table[a].left > 1 then Decremented(s.db, a, s.db.table[a].left) else UsedUp(s.db, a)
  {
    ReachableHasInv(s);
    assert AliasOk(s.db, a) && Holds(folders, s.db.blobs, a);
    FirstFileIsUnique(folders[a], content, s.db.blobs[a]);
    var t := FreshTid(s);
    SoloDownload(s, s, t, a, password);
    var d := if s.db.table[a].left > 1 then Decremented(s.db, a, s.db.table[a].left) else UsedUp(s.db, a);
    s' := With(s, t, Finished(true), map[], d);
    AloneReaches(s, s', t);
  }

  lemma LastDownloadFails(s: State, a: Alias, password: string) returns (s': State)
    requires Reachable(s) && s.locks == map[]
    requires HasLive(s.db.table, a, s.db.now) && Accepts(s.db.cfg, s.db.table[a].hash, password)
    requires s.db.table[a].left <= 1 && a in s.db.blobs
    ensures Reach(s, s') && s'.locks == map[]
    ensures s'.db == s.db.(blobs := s.db.blobs - {a}, torn := s.db.torn + {a})
  {
    ReachableHasInv(s);
    assert AliasOk(s.db, a);
    var t := FreshTid(s);
    SoloRead(s, s, t, a, password);
    var h, now := HandleOn(s.db, a, password), s.db.now;
    SoloLastUntilCommit(s, s, t, h, now);
    s' := FailsAtCommit(s, t, DnBlobDeleted(h, 1, now, now), a, s.db.(blobs := s.db.blobs - {a}));
  }

  /** Any download, whatever fails in it, is a run; it serves the uploaded bytes if it succeeds, and no run
      counts a download for one that fails. */
  method RunDownload(fs: FileService, a: Alias, password: string, f: DownloadFaults, ghost s: State)
    returns (r: Result<Bytes, Error>, ghost s': State)
    requires Reachable(s) && Abstracts(fs, s) && f.remove != DeleteFails(true)
    modifies fs, fs.repo, fs.storage
    ensures Reach(s, s') && Reachable(s') && Abstracts(fs, s')
    ensures r.Ok? ==> a in s.db.uploads && r.value == s.db.uploads[a].up.bytes
    ensures s'.db.served == if r.Ok? then s.db.served + multiset{a} else s.db.served
  {
    ghost var folders := fs.storage.folders;
    r := fs.DownloadFile(a, password, f);
    if r.Ok? {
      s' := DownloadRuns(s, folders, a, password, r.value);
      BlobsRemoved(folders, s.db.blobs, {a});
      ReachableHasInv(s);
      assert AliasOk(s.db, a);
    } else if fs.storage.folders == folders {
      s' := FailsAtOnce(s, DnStart(a, password));
    } else {
      assert Holds(folders, s.db.blobs, a);
      s' := LastDownloadFails(s, a, password);
      BlobsRemoved(folders, s.db.blobs, {a});
    }
    StaysReachable(s, s');
  }

  // ---------------------------------------------------------------- deletes

  lemma DeleteRuns(s: State, a: Alias, user: int, roles: seq<Role>) returns (s': State)
    requires s.locks == map[]
    requires HasLive(s.db.table, a, s.db.now) && MayManage(s.db.table[a].owner, user, roles)
    ensures Reach(s, s') && s'.locks == map[]
    ensures s'.db == s.db.(
                       table := s.db.table - {a}, blobs := s.db.blobs - {a}, removed := s.db.removed + multiset{a})
  {
    var t := FreshTid(s);
    SoloDelete(s, s, t, a, user, roles);
    s' := With(s, t, Finished(true), map[], s.db.(
      table := s.db.table - {a}, blobs := s.db.blobs - {a}, removed := s.db.removed + multiset{a}));
    AloneReaches(s, s', t);
  }

  lemma DeleteFailsAtCommit(s: State, a: Alias, user: int, roles: seq<Role>) returns (s': State)
    requires s.locks == map[]
    requires HasLive(s.db.table, a, s.db.now) && MayManage(s.db.table[a].owner, user, roles)
    ensures Reach(s, s') && s'.locks == map[]
    ensures s'.db == s.db.(blobs := s.db.blobs - {a}, torn := s.db.torn + {a})
  {
    var t := FreshTid(s);
    SoloDeleteUntilCommit(s, s, t, a, user, roles);
    s' := FailsAtCommit(s, t, RmBlobDeleted(a, user, roles, s.db.now), a, s.db.(blobs := s.db.blobs - {a}));
  }

  method RunDelete(fs: FileService, a: Alias, user: int, roles: seq<Role>, f: DeleteFaults, ghost s: State)
    returns (r: Result<(), Error>, ghost s': State)
    requires Reachable(s) && Abstracts(fs, s) && f.remove != DeleteFails(true)
    modifies fs.repo, fs.storage
    ensures Reach(s, s') && Reachable(s') && Abstracts(fs, s')
    ensures s'.db.removed == if r.Ok? then s.db.removed + multiset{a} else s.db.removed
  {
    ghost var folders := fs.storage.folders;
    r := fs.DeleteFile(a, user, roles, f);
    BlobsRemoved(folders, s.db.blobs, {a});
    if r.Ok? {
      s' := DeleteRuns(s, a, user, roles);
    } else if fs.storage.folders == folders {
      s' := FailsAtOnce(s, RmStart(a, user, roles));
    } else {
      s' := DeleteFailsAtCommit(s, a, user, roles);
    }
    StaysReachable(s, s');
  }

  // ---------------------------------------------------------------- uploads

  lemma UploadRuns(s: State, up: UploadCommand, a: Alias, hash: string) returns (s': State, t: Tid)
    requires s.locks == map[] && Startable(UpStart(up), s.db.now)
    requires a !in s.db.drawn && a !in s.db.table && (up.password == "" ==> hash == "")
    requires CheckUploadQuota(s.db.cfg, StatOf(s.db.table, up.user), up.size, up.roles).Ok?
    ensures Reach(s, s') && s'.locks == map[] && s'.db == UploadedTo(s.db, t, up, a, hash)
  {
    t := FreshTid(s);
    SoloUpload(s, s, t, up, a, hash);
    s' := With(s, t, Finished(true), map[], UploadedTo(s.db, t, up, a, hash));
    AloneReaches(s, s', t);
  }

  /** An upload that fails with some of its file on disk. */
  lemma UploadFailsPartly(s: State, up: UploadCommand, a: Alias, rest: Bytes) returns (s': State, t: Tid)
    requires s.locks == map[] && Startable(UpStart(up), s.db.now)
    requires a !in s.db.drawn && a !in s.db.table
    requires CheckUploadQuota(s.db.cfg, StatOf(s.db.table, up.user), up.size, up.roles).Ok?
    ensures Reach(s, s') && s'.locks == map[]
    ensures s'.db == s.db.(drawn := s.db.drawn[a := t], blobs := s.db.blobs[a := rest])
  {
    t := FreshTid(s);
    var d := s.db.(drawn := s.db.drawn[a := t]);
    var row := NewRow(up, "", s.db.now);
    SoloInsert(s, s, t, up, a, "");
    s' := FailsWriting(s, t, up, a, "", row, d, rest);
  }

  lemma FailsWriting(s: State, t: Tid, up: UploadCommand, a: Alias, hash: string, row: Row, d: Store, rest: Bytes)
    returns (s': State)
    requires Alone(s, With(s, t, UpInserted(up, a, hash, row), map[a := t], d), t)
    ensures Reach(s, s') && s'.locks == map[] && s'.db == d.(blobs := d.blobs[a := rest])
  {
    var s1 := With(s, t, UpInserted(up, a, hash, row), map[a := t], d);
    AloneReaches(s, s1, t);
    s' := Abort(s1, t, Partial(rest));
    ReachStep(s, s1, Fail(t, Partial(rest)), s');
    assert d.torn + {} == d.torn;
  }

  lemma SameFolders(f: Folders, f': Folders, a: Alias)
    requires forall b | b != a :: (b in f' <==> b in f) && (b in f' ==> f'[b] == f[b])
    ensures forall b | b != a :: FolderAt(f', b) == FolderAt(f, b)
  {
  }

  lemma FreshIsFree(s: State, a: Alias)
    requires Reachable(s) && a !in s.db.drawn
    ensures a !in s.db.blobs && a !in s.db.uploads
  {
    ReachableHasInv(s);
    assert AliasOk(s.db, a);
  }

  /** The request is one the handler lets through, and passes the check. */
  ghost predicate Passes(s: State, up: UploadCommand, a: Alias) {
    && Startable(UpStart(up), s.db.now) && a !in s.db.drawn && a !in s.db.blobs
    && a !in s.db.table && CheckUploadQuota(s.db.cfg, StatOf(s.db.table, up.user), up.size, up.roles).Ok?
  }

  lemma UploadSucceeds(s: State, f: Folders, f': Folders, up: UploadCommand, a: Alias, hash: string)
    returns (s': State)
    requires s.locks == map[] && HoldsAllBlobs(f, s.db.blobs) && Passes(s, up, a)
    requires up.password == "" ==> hash == ""
    requires forall b | b != a :: FolderAt(f', b) == FolderAt(f, b)
    requires FolderAt(f', a) == FolderAt(f, a)[up.name := up.bytes]
    ensures Reach(s, s') && s'.db.cfg == s.db.cfg
    ensures Matches(s.db.table[a := Row(up.name, up.size, up.max, s.db.now, s.db.now + up.ttl, hash, up.user)],
                    s.db.now, f', s')
    ensures a in s'.db.uploads && s'.db.uploads[a].up == up && s'.db.uploads[a].hash == hash
  {
    hide Reach;
    var t: Tid;
    s', t := UploadRuns(s, up, a, hash);
    BlobStored(f, s.db.blobs, f', a, up.name, up.bytes);
  }

  lemma UploadFails(s: State, f: Folders, f': Folders, up: UploadCommand, a: Alias) returns (s': State)
    requires s.locks == map[] && HoldsAllBlobs(f, s.db.blobs)
    requires Startable(UpStart(up), s.db.now) && a !in s.db.blobs && (f' != f ==> Passes(s, up, a))
    requires forall b | b != a :: FolderAt(f', b) == FolderAt(f, b)
    requires Leftover(f, f', a, up.name)
    ensures Reach(s, s') && s'.db.cfg == s.db.cfg && s'.db.uploads == s.db.uploads
    ensures Matches(s.db.table, s.db.now, f', s')
  {
    hide Reach;
    assert Holds(f, s.db.blobs, a);
    if FolderAt(f', a) == map[] {
      s' := FailsAtOnce(s, UpStart(up));
      NoBlobStored(f, s.db.blobs, f', a);
    } else {
      var rest :| HasWritten(f, f', a, up.name, rest);
      var t: Tid;
      s', t := UploadFailsPartly(s, up, a, rest);
      BlobStored(f, s.db.blobs, f', a, up.name, rest);
    }
  }

  /** Any upload under a fresh alias is a run, of a file the handler lets through. */
  method RunUpload(fs: FileService, up: UploadCommand, a: Alias, hashed: Result<string, Error>, f: UploadFaults,
                   ghost s: State)
    returns (r: Result<Alias, Error>, ghost s': State)
    requires Reachable(s) && Abstracts(fs, s) && a !in s.db.drawn
    requires up.size >= 0 && 1 <= up.max <= 10000
    modifies fs.repo, fs.storage
    ensures Reach(s, s') && Reachable(s') && Abstracts(fs, s')
    ensures r.Ok? ==> r.value == a && a in s'.db.uploads && s'.db.uploads[a].up == up
    ensures r.Ok? && up.password != "" ==> hashed.Ok? && s'.db.uploads[a].hash == hashed.value
    ensures r.Err? ==> s'.db.uploads == s.db.uploads
  {
    hide Reach, Reachable, HoldsAllBlobs;
    ghost var folders := fs.storage.folders;
    FreshIsFree(s, a);
    r := fs.UploadFile(up, a, hashed, f);
    SameFolders(folders, fs.storage.folders, a);
    if r.Ok? {
      s' := UploadSucceeds(s, folders, fs.storage.folders, up, a, if up.password == "" then "" else hashed.value);
    } else {
      s' := UploadFails(s, folders, fs.storage.folders, up, a);
    }
    StaysReachable(s, s');
  }

  // ---------------------------------------------------------------- sweeps

  lemma SweepRuns(s: State, batch: set<Alias>) returns (s': State)
    requires s.locks == map[] && ScannedBatch(s.db, batch)
    ensures Reach(s, s') && s'.locks == map[] && s'.db == SweptOf(s.db, batch)
  {
    var t := FreshTid(s);
    SoloSweep(s, s, t, batch);
    s' := With(s, t, Finished(true), map[], SweptOf(s.db, batch));
    AloneReaches(s, s', t);
  }

  /** A sweep that fails after it has deleted some blobs. */
  lemma SweepFails(s: State, batch: set<Alias>, gone: set<Alias>) returns (s': State)
    requires s.locks == map[] && ScannedBatch(s.db, batch) && gone <= batch
    ensures Reach(s, s') && s'.locks == map[] && s'.db == s.db.(blobs := s.db.blobs - gone)
  {
    var t := FreshTid(s);
    SoloSweepUntil(s, s, t, batch, gone);
    var d := s.db.(blobs := s.db.blobs - gone);
    var s1 := With(s, t, SwDeleting(s.db.now, batch, batch - gone), LocksOf(batch, t), d);
    AloneReaches(s, s1, t);
    s' := Abort(s1, t, Clean);
    ReachStep(s, s1, Fail(t, Clean), s');
    assert s.db.torn + {} == s.db.torn;
  }

  lemma BatchIsScanned(d: Store, batch: set<Alias>)
    requires batch <= SweepableAliases(d.table, d.now)
    requires |batch| == Worker.AtMost(BATCH_LIMIT, |SweepableAliases(d.table, d.now)|)
    ensures ScannedBatch(d, batch)
  {
    if |batch| < BATCH_LIMIT {
      Worker.SameSize(batch, SweepableAliases(d.table, d.now));
    }
  }

  lemma TickRuns(s: State, v: Worker.Vault, w: Worker.Vault, ok: bool) returns (s': State)
    requires Matches(v.table, v.now, v.folders, s) && Worker.Swept(v, w, ok)
    ensures Reach(s, s') && s'.db.cfg == s.db.cfg && Matches(w.table, v.now, w.folders, s')
  {
    var batch, lost :| Worker.SweptBy(v, w, ok, batch, lost);
    if ok {
      BatchIsScanned(s.db, batch);
      s' := SweepRuns(s, batch);
      BlobsRemoved(v.folders, s.db.blobs, batch);
    } else if lost == {} {
      s' := s;
      SelfReach(s);
      assert v.folders - lost == v.folders;
    } else {
      BatchIsScanned(s.db, batch);
      s' := SweepFails(s, batch, lost);
      BlobsRemoved(v.folders, s.db.blobs, lost);
    }
  }

  /** Any tick of a worker on the same table and storage is a run. */
  method RunTick(fs: FileService, worker: Worker.FileWorker, f: Worker.SweepFaults, ghost s: State)
    returns (ok: bool, stop: bool, ghost s': State)
    requires worker.repo == fs.repo && worker.storage == fs.storage
    requires Reachable(s) && Abstracts(fs, s)
    modifies fs.repo, fs.storage
    ensures Reach(s, s') && Reachable(s') && Abstracts(fs, s')
  {
    ghost var v := worker.View();
    ok, stop := worker.Tick(f);
    s' := TickRuns(s, v, worker.View(), ok);
    StaysReachable(s, s');
  }

  // ---------------------------------------------------------------- the start, and time

  /** An empty service is the initial state. */
  lemma StartsReachable(fs: FileService)
    requires fs.repo.tx == None && fs.repo.table == map[] && fs.storage.folders == map[]
    ensures Reachable(Init(fs.cfg, fs.repo.now)) && Abstracts(fs, Init(fs.cfg, fs.repo.now))
  {
    SelfReach(Init(fs.cfg, fs.repo.now));
    assert forall a :: Holds(map[], map[], a);
  }

  method RunWait(fs: FileService, now: int, ghost s: State) returns (ghost s': State)
    requires Reachable(s) && Abstracts(fs, s) && fs.repo.now <= now
    modifies fs.repo
    ensures Reach(s, s') && Reachable(s') && Abstracts(fs, s')
  {
    fs.repo.AdvanceClock(now);
    s' := Step(s, Lifecycle.Tick(now - s.db.now));
    SelfReach(s);
    ReachStep(s, s, Lifecycle.Tick(now - s.db.now), s');
    StaysReachable(s, s');
  }
}
