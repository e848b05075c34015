/** Each operation, run alone from any state with no lock held, can succeed, and then has the effect
    its serial contract states. */
module LifecycleSolo {
  import opened Entities
  import opened FilesTable
  import opened Access
  import opened Lifecycle

  // ---------------------------------------------------------------- extending runs

  lemma Snoc(s0: State, es: seq<Event>, e: Event)
    requires IsRun(s0, es) && Enabled(After(s0, es), e)
    ensures IsRun(s0, es + [e]) && After(s0, es + [e]) == Step(After(s0, es), e)
  {
    assert (es + [e])[..|es + [e]| - 1] == es;
  }

  /** Some run from `s0` ends in `s`. */
  ghost predicate Reach(s0: State, s: State) {
    exists es :: IsRun(s0, es) && After(s0, es) == s
  }

  lemma ReachStep(s0: State, s: State, e: Event, s': State)
    requires Reach(s0, s) && Enabled(s, e) && Step(s, e) == s'
    ensures Reach(s0, s')
  {
    var es :| IsRun(s0, es) && After(s0, es) == s;
    Snoc(s0, es, e);
  }

  lemma {:induction false} RunOn(s0: State, s: State, es: seq<Event>)
    requires Reach(s0, s) && IsRun(s, es)
    ensures Reach(s0, After(s, es))
    decreases |es|
  {
    if es != [] {
      RunOn(s0, s, es[..|es| - 1]);
      ReachStep(s0, After(s, es[..|es| - 1]), es[|es| - 1], After(s, es));
    }
  }

  // ---------------------------------------------------------------- one process alone

  /** All events are steps of process `t`. */
  predicate Only(es: seq<Event>, t: Tid) {
    forall e | e in es :: !e.Tick? && e.t == t
  }

  /** Some run of process `t` alone leads from `s0` to `s`. */
  ghost predicate Alone(s0: State, s: State, t: Tid) {
    exists es :: IsRun(s0, es) && After(s0, es) == s && Only(es, t)
  }

  lemma Stay(s: State, t: Tid)
    ensures Alone(s, s, t)
  {
    assert IsRun(s, []) && After(s, []) == s && Only([], t);
  }

  lemma AloneStep(s0: State, s: State, e: Event, s': State, t: Tid)
    requires Alone(s0, s, t) && Enabled(s, e) && Step(s, e) == s'
    requires !e.Tick? && e.t == t
    ensures Alone(s0, s', t)
  {
    var es :| IsRun(s0, es) && After(s0, es) == s && Only(es, t);
    Snoc(s0, es, e);
    assert Only(es + [e], t);
  }

  lemma ReachAlone(s0: State, s: State, s': State, t: Tid)
    requires Reach(s0, s) && Alone(s, s', t)
    ensures Reach(s0, s')
  {
    var es :| IsRun(s, es) && After(s, es) == s' && Only(es, t);
    RunOn(s0, s, es);
  }

  /** The state `s` with process `t` at `pc`, these locks and this store. */
  function With(s: State, t: Tid, pc: Pc, locks: map<Alias, Tid>, db: Store): State {
    State(db, locks, s.procs[t := pc])
  }

  lemma WithWith(s: State, t: Tid, pc: Pc, locks: map<Alias, Tid>, db: Store,
                 pc': Pc, locks': map<Alias, Tid>, db': Store)
    ensures With(With(s, t, pc, locks, db), t, pc', locks', db') == With(s, t, pc', locks', db')
  {
    assert s.procs[t := pc][t := pc'] == s.procs[t := pc'];
  }

  /** One call of process `t`. */
  lemma Call(s0: State, s: State, t: Tid, from: Pc, locks: map<Alias, Tid>, db: Store,
             to: Pc, locks': map<Alias, Tid>, db': Store)
    requires Alone(s0, With(s, t, from, locks, db), t)
    requires CanGo(With(s, t, from, locks, db), t)
    requires Advance(With(s, t, from, locks, db), t) == With(With(s, t, from, locks, db), t, to, locks', db')
    ensures Alone(s0, With(s, t, to, locks', db'), t)
  {
    hide Alone;
    WithWith(s, t, from, locks, db, to, locks', db');
    AloneStep(s0, With(s, t, from, locks, db), Go(t), With(s, t, to, locks', db'), t);
  }

  /** One call of process `t` that only moves it on. */
  lemma Move(s0: State, s: State, t: Tid, from: Pc, to: Pc)
    requires Alone(s0, With(s, t, from, s.locks, s.db), t)
    requires CanGo(With(s, t, from, s.locks, s.db), t)
    requires Advance(With(s, t, from, s.locks, s.db), t) == Goto(With(s, t, from, s.locks, s.db), t, to)
    ensures Alone(s0, With(s, t, to, s.locks, s.db), t)
  {
    hide Alone;
    Call(s0, s, t, from, s.locks, s.db, to, s.locks, s.db);
  }

  lemma NoLocksLeft(s: State, t: Tid, pc: Pc, locks: map<Alias, Tid>, db: Store, ok: bool, db': Store)
    requires forall a | a in locks :: locks[a] == t
    ensures Finish(With(s, t, pc, locks, db), t, ok, db') ==
            With(With(s, t, pc, locks, db), t, Finished(ok), map[], db')
  {
  }

  // ---------------------------------------------------------------- upload

  lemma StartUpload(s0: State, s: State, t: Tid, up: UploadCommand, a: Alias, hash: string)
    requires Alone(s0, s, t)
    requires s.locks == map[] && t !in s.procs && Startable(UpStart(up), s.db.now) && a !in s.db.drawn
    requires up.password == "" ==> hash == ""
    requires CheckUploadQuota(s.db.cfg, StatOf(s.db.table, up.user), up.size, up.roles).Ok?
    ensures Alone(s0, With(s, t, UpAdmitted(up, a, hash), map[], s.db.(drawn := s.db.drawn[a := t])), t)
  {
    hide Alone;
    var s1 := Goto(s, t, UpStart(up));
    var d := s.db.(drawn := s.db.drawn[a := t]);
    AloneStep(s0, s, Spawn(t, UpStart(up)), s1, t);
    WithWith(s, t, UpStart(up), map[], s.db, UpAdmitted(up, a, hash), map[], d);
    AloneStep(s0, s1, Admit(t, a, hash), With(s, t, UpAdmitted(up, a, hash), map[], d), t);
  }

  /** The effect of an upload on the store. */
  function UploadedTo(d: Store, t: Tid, up: UploadCommand, a: Alias, hash: string): Store {
    var row := Row(up.name, up.size, up.max, d.now, d.now + up.ttl, hash, up.user);
    d.(table := d.table[a := row],
       blobs := d.blobs[a := up.bytes],
       drawn := d.drawn[a := t],
       uploads := d.uploads[a := Record(row, up, hash)])
  }

  lemma SoloInsert(s0: State, s: State, t: Tid, up: UploadCommand, a: Alias, hash: string)
    requires Alone(s0, s, t)
    requires s.locks == map[] && t !in s.procs && Startable(UpStart(up), s.db.now)
    requires a !in s.db.drawn && a !in s.db.table && (up.password == "" ==> hash == "")
    requires CheckUploadQuota(s.db.cfg, StatOf(s.db.table, up.user), up.size, up.roles).Ok?
    ensures Alone(s0, With(s, t, UpInserted(up, a, hash, NewRow(up, hash, s.db.now)), map[a := t],
                           s.db.(drawn := s.db.drawn[a := t])), t)
  {
    hide Alone;
    StartUpload(s0, s, t, up, a, hash);
    var d := s.db.(drawn := s.db.drawn[a := t]);
    var row := NewRow(up, hash, s.db.now);
    Call(s0, s, t, UpAdmitted(up, a, hash), map[], d, UpInserted(up, a, hash, row), map[a := t], d);
  }

  lemma StoreCall(s: State, t: Tid, up: UploadCommand, a: Alias, hash: string, row: Row, d: Store)
    ensures var s1 := With(s, t, UpInserted(up, a, hash, row), map[a := t], d);
      && CanGo(s1, t)
      && Advance(s1, t) == With(s1, t, UpStored(up, a, hash, row), map[a := t], d.(blobs := d.blobs[a := up.bytes]))
  {
  }

  lemma CommitCall(s: State, t: Tid, up: UploadCommand, a: Alias, hash: string, row: Row, d: Store)
    ensures var s2 := With(s, t, UpStored(up, a, hash, row), map[a := t], d);
      && CanGo(s2, t)
      && Advance(s2, t) == With(s2, t, Finished(true), map[],
           d.(table := d.table[a := row], uploads := d.uploads[a := Record(row, up, hash)]))
  {
  }

  lemma UploadedInSteps(d: Store, t: Tid, up: UploadCommand, a: Alias, hash: string)
    ensures var row := NewRow(up, hash, d.now);
      var d2 := d.(drawn := d.drawn[a := t]).(blobs := d.blobs[a := up.bytes]);
      UploadedTo(d, t, up, a, hash)
        == d2.(table := d2.table[a := row], uploads := d2.uploads[a := Record(row, up, hash)])
  {
  }

  lemma SoloUpload(s0: State, s: State, t: Tid, up: UploadCommand, a: Alias, hash: string)
    requires Alone(s0, s, t)
    requires s.locks == map[] && t !in s.procs && Startable(UpStart(up), s.db.now)
    requires a !in s.db.drawn && a !in s.db.table && (up.password == "" ==> hash == "")
    requires CheckUploadQuota(s.db.cfg, StatOf(s.db.table, up.user), up.size, up.roles).Ok?
    ensures Alone(s0, With(s, t, Finished(true), map[], UploadedTo(s.db, t, up, a, hash)), t)
  {
    hide Alone, Advance, CanGo, UploadedTo, NewRow, With;
    UploadedInSteps(s.db, t, up, a, hash);
    SoloInsert(s0, s, t, up, a, hash);
    var row := NewRow(up, hash, s.db.now);
    var d1 := s.db.(drawn := s.db.drawn[a := t]);
    var d2 := d1.(blobs := s.db.blobs[a := up.bytes]);
    var d3 := UploadedTo(s.db, t, up, a, hash);
    StoreCall(s, t, up, a, hash, row, d1);
    Call(s0, s, t, UpInserted(up, a, hash, row), map[a := t], d1, UpStored(up, a, hash, row), map[a := t], d2);
    CommitCall(s, t, up, a, hash, row, d2);
    Call(s0, s, t, UpStored(up, a, hash, row), map[a := t], d2, Finished(true), map[], d3);
  }

  // ---------------------------------------------------------------- download

  /** A file somebody with this password can download right now. */
  predicate Downloadable(d: Store, a: Alias, password: string) {
    && a in d.table && d.table[a].expiresAt > d.now && d.table[a].left >= 1 && a in d.blobs
    && (d.table[a].hash == "" || (password != "" && d.cfg.verify(d.table[a].hash, password)))
  }

  function HandleOn(d: Store, a: Alias, password: string): Handle
    requires a in d.blobs
  {
    Handle(a, password, d.blobs[a])
  }

  lemma SoloRead(s0: State, s: State, t: Tid, a: Alias, password: string)
    requires Alone(s0, s, t) && t !in s.procs && Downloadable(s.db, a, password)
    ensures Alone(s0, With(s, t, DnRead(HandleOn(s.db, a, password), s.db.table[a].left, s.db.now), s.locks, s.db), t)
  {
    hide Alone;
    var h := HandleOn(s.db, a, password);
    AloneStep(s0, s, Spawn(t, DnStart(a, password)), With(s, t, DnStart(a, password), s.locks, s.db), t);
    Move(s0, s, t, DnStart(a, password), DnFound(a, password));
    Move(s0, s, t, DnFound(a, password), DnOpened(h));
    Move(s0, s, t, DnOpened(h), DnRead(h, s.db.table[a].left, s.db.now));
  }

  /** The effect on the store of a download that read `read`, when it is not the last one. */
  function Decremented(d: Store, a: Alias, read: int): Store
    requires a in d.table
  {
    d.(table := d.table[a := d.table[a].(left := read - 1)], served := d.served + multiset{a})
  }

  /** The effect on the store of the last download. */
  function UsedUp(d: Store, a: Alias): Store {
    d.(table := d.table - {a}, blobs := d.blobs - {a},
       served := d.served + multiset{a}, removed := d.removed + multiset{a})
  }

  /** A decrement that read two or more writes and commits, whatever the counter is by now. */
  lemma SoloWrite(s0: State, s: State, t: Tid, h: Handle, read: int, at: int)
    requires Alone(s0, With(s, t, DnRead(h, read, at), map[], s.db), t)
    requires read >= 2 && h.alias in s.db.table
    ensures Alone(s0, With(s, t, Finished(true), map[], Decremented(s.db, h.alias, read)), t)
  {
    hide Alone;
    var locks := map[h.alias := t];
    Call(s0, s, t, DnRead(h, read, at), map[], s.db, DnUpdated(h, read - 1, at, true), locks, s.db);
    var d := Decremented(s.db, h.alias, read);
    NoLocksLeft(s, t, DnUpdated(h, read - 1, at, true), locks, s.db, true, d);
    Call(s0, s, t, DnUpdated(h, read - 1, at, true), locks, s.db, Finished(true), map[], d);
  }

  /** The last download up to the point where only the Commit is missing. */
  lemma SoloLastUntilCommit(s0: State, s: State, t: Tid, h: Handle, at: int)
    requires Alone(s0, With(s, t, DnRead(h, 1, at), map[], s.db), t)
    requires HasLive(s.db.table, h.alias, s.db.now)
    ensures Alone(s0, With(s, t, DnBlobDeleted(h, 1, at, s.db.now), map[h.alias := t],
                           s.db.(blobs := s.db.blobs - {h.alias})), t)
  {
    hide Alone;
    var locks := map[h.alias := t];
    var now := s.db.now;
    Call(s0, s, t, DnRead(h, 1, at), map[], s.db, DnUpdated(h, 0, at, true), locks, s.db);
    Call(s0, s, t, DnUpdated(h, 0, at, true), locks, s.db, DnRowDeleted(h, 1, at, now), locks, s.db);
    var d := s.db.(blobs := s.db.blobs - {h.alias});
    Call(s0, s, t, DnRowDeleted(h, 1, at, now), locks, s.db, DnBlobDeleted(h, 1, at, now), locks, d);
  }

  lemma SoloLast(s0: State, s: State, t: Tid, h: Handle, at: int)
    requires Alone(s0, With(s, t, DnRead(h, 1, at), map[], s.db), t)
    requires HasLive(s.db.table, h.alias, s.db.now)
    ensures Alone(s0, With(s, t, Finished(true), map[], UsedUp(s.db, h.alias)), t)
  {
    hide Alone;
    SoloLastUntilCommit(s0, s, t, h, at);
    var locks := map[h.alias := t];
    var now := s.db.now;
    var d := s.db.(blobs := s.db.blobs - {h.alias});
    NoLocksLeft(s, t, DnBlobDeleted(h, 1, at, now), locks, d, true, UsedUp(s.db, h.alias));
    Call(s0, s, t, DnBlobDeleted(h, 1, at, now), locks, d, Finished(true), map[], UsedUp(s.db, h.alias));
  }

  /** A download alone: one use less, or with the last one the file gone. */
  lemma SoloDownload(s0: State, s: State, t: Tid, a: Alias, password: string)
    requires Alone(s0, s, t) && s.locks == map[] && t !in s.procs
    requires a in s.db.table && s.db.table[a].expiresAt > s.db.now && s.db.table[a].left >= 1 && a in s.db.blobs
    requires s.db.table[a].hash == "" || (password != "" && s.db.cfg.verify(s.db.table[a].hash, password))
    ensures var left := s.db.table[a].left;
      Alone(s0, With(s, t, Finished(true), map[], if left > 1 then Decremented(s.db, a, left) else UsedUp(s.db, a)), t)
  {
    hide Alone;
    SoloRead(s0, s, t, a, password);
    if s.db.table[a].left > 1 {
      SoloWrite(s0, s, t, HandleOn(s.db, a, password), s.db.table[a].left, s.db.now);
    } else {
      SoloLast(s0, s, t, HandleOn(s.db, a, password), s.db.now);
    }
  }

  // ---------------------------------------------------------------- delete

  lemma SoloFind(s0: State, s: State, t: Tid, a: Alias, user: int, roles: seq<Role>)
    requires Alone(s0, s, t) && t !in s.procs
    requires a in s.db.table && s.db.table[a].expiresAt > s.db.now
    requires s.db.table[a].owner == user || "admin" in roles
    ensures Alone(s0, With(s, t, RmDeleting(a, user, roles, s.db.now), s.locks, s.db), t)
  {
    hide Alone;
    AloneStep(s0, s, Spawn(t, RmStart(a, user, roles)), With(s, t, RmStart(a, user, roles), s.locks, s.db), t);
    Move(s0, s, t, RmStart(a, user, roles), RmFound(a, user, roles));
    Move(s0, s, t, RmFound(a, user, roles), RmDeleting(a, user, roles, s.db.now));
  }

  /** An owner's or admin's delete up to the point where only the Commit is missing. */
  lemma SoloDeleteUntilCommit(s0: State, s: State, t: Tid, a: Alias, user: int, roles: seq<Role>)
    requires Alone(s0, s, t) && s.locks == map[] && t !in s.procs
    requires a in s.db.table && s.db.table[a].expiresAt > s.db.now
    requires s.db.table[a].owner == user || "admin" in roles
    ensures Alone(s0, With(s, t, RmBlobDeleted(a, user, roles, s.db.now), map[a := t],
                           s.db.(blobs := s.db.blobs - {a})), t)
  {
    hide Alone;
    var now := s.db.now;
    SoloFind(s0, s, t, a, user, roles);
    Call(s0, s, t, RmDeleting(a, user, roles, now), map[], s.db, RmRowDeleted(a, user, roles, now), map[a := t], s.db);
    Call(s0, s, t, RmRowDeleted(a, user, roles, now), map[a := t], s.db,
         RmBlobDeleted(a, user, roles, now), map[a := t], s.db.(blobs := s.db.blobs - {a}));
  }

  /** A delete alone removes row and blob. */
  lemma SoloDelete(s0: State, s: State, t: Tid, a: Alias, user: int, roles: seq<Role>)
    requires Alone(s0, s, t) && s.locks == map[] && t !in s.procs
    requires a in s.db.table && s.db.table[a].expiresAt > s.db.now
    requires s.db.table[a].owner == user || "admin" in roles
    ensures Alone(s0, With(s, t, Finished(true), map[], s.db.(
              table := s.db.table - {a}, blobs := s.db.blobs - {a}, removed := s.db.removed + multiset{a})), t)
  {
    hide Alone;
    SoloDeleteUntilCommit(s0, s, t, a, user, roles);
    var d := s.db.(blobs := s.db.blobs - {a});
    var d' := d.(table := s.db.table - {a}, removed := s.db.removed + multiset{a});
    NoLocksLeft(s, t, RmBlobDeleted(a, user, roles, s.db.now), map[a := t], d, true, d');
    Call(s0, s, t, RmBlobDeleted(a, user, roles, s.db.now), map[a := t], d, Finished(true), map[], d');
  }

  // ---------------------------------------------------------------- sweep

  function LocksOf(batch: set<Alias>, t: Tid): map<Alias, Tid> {
    map a | a in batch :: t
  }

  lemma ScanOne(s0: State, s: State, t: Tid, batch: set<Alias>, a: Alias)
    requires Alone(s0, With(s, t, SwScanning(s.db.now, batch), LocksOf(batch, t), s.db), t)
    requires a in SweepableAliases(s.db.table, s.db.now) - batch && |batch| < BATCH_LIMIT
    ensures Alone(s0, With(s, t, SwScanning(s.db.now, batch + {a}), LocksOf(batch + {a}, t), s.db), t)
  {
    hide Alone;
    var from, to := SwScanning(s.db.now, batch), SwScanning(s.db.now, batch + {a});
    assert LocksOf(batch, t)[a := t] == LocksOf(batch + {a}, t);
    WithWith(s, t, from, LocksOf(batch, t), s.db, to, LocksOf(batch + {a}, t), s.db);
    var s1 := With(s, t, to, LocksOf(batch + {a}, t), s.db);
    AloneStep(s0, With(s, t, from, LocksOf(batch, t), s.db), Pick(t, a), s1, t);
  }

  /** A sweep that has locked `batch` locks `more`, one row after the other. */
  lemma {:induction false} SoloScan(s0: State, s: State, t: Tid, batch: set<Alias>, more: set<Alias>)
    requires Alone(s0, With(s, t, SwScanning(s.db.now, batch), LocksOf(batch, t), s.db), t)
    requires batch !! more && more <= SweepableAliases(s.db.table, s.db.now) && |batch| + |more| <= BATCH_LIMIT
    ensures Alone(s0, With(s, t, SwScanning(s.db.now, batch + more), LocksOf(batch + more, t), s.db), t)
    decreases |more|
  {
    hide Alone;
    if more == {} {
      assert batch + more == batch;
    } else {
      var a :| a in more;
      ScanOne(s0, s, t, batch, a);
      SoloScan(s0, s, t, batch + {a}, more - {a});
      assert batch + {a} + (more - {a}) == batch + more;
    }
  }

  lemma RemoveOne(s0: State, s: State, t: Tid, batch: set<Alias>, todo: set<Alias>, a: Alias, d: Store)
    requires Alone(s0, With(s, t, SwDeleting(s.db.now, batch, todo), LocksOf(batch, t), d), t) && a in todo
    ensures Alone(s0, With(s, t, SwDeleting(s.db.now, batch, todo - {a}), LocksOf(batch, t),
                           d.(blobs := d.blobs - {a})), t)
  {
    hide Alone;
    var from, to := SwDeleting(s.db.now, batch, todo), SwDeleting(s.db.now, batch, todo - {a});
    var d' := d.(blobs := d.blobs - {a});
    WithWith(s, t, from, LocksOf(batch, t), d, to, LocksOf(batch, t), d');
    AloneStep(s0, With(s, t, from, LocksOf(batch, t), d), Pick(t, a), With(s, t, to, LocksOf(batch, t), d'), t);
  }

  /** A sweep that has deleted its rows deletes the blobs `gone`, one after the other. */
  lemma {:induction false} SoloRemoveBlobs(s0: State, s: State, t: Tid, batch: set<Alias>, todo: set<Alias>,
                                           gone: set<Alias>, d: Store)
    requires Alone(s0, With(s, t, SwDeleting(s.db.now, batch, todo), LocksOf(batch, t), d), t) && gone <= todo
    ensures Alone(s0, With(s, t, SwDeleting(s.db.now, batch, todo - gone), LocksOf(batch, t),
                           d.(blobs := d.blobs - gone)), t)
    decreases |gone|
  {
    hide Alone;
    if gone == {} {
      assert todo - gone == todo && d.blobs - gone == d.blobs;
    } else {
      var a :| a in gone;
      RemoveOne(s0, s, t, batch, todo, a, d);
      SoloRemoveBlobs(s0, s, t, batch, todo - {a}, gone - {a}, d.(blobs := d.blobs - {a}));
      assert todo - {a} - (gone - {a}) == todo - gone && d.blobs - {a} - (gone - {a}) == d.blobs - gone;
    }
  }

  /** A batch as a scan at `now` leaves it. */
  predicate ScannedBatch(d: Store, batch: set<Alias>) {
    && (forall a | a in batch :: a in d.table && d.table[a].expiresAt < d.now)
    && |batch| <= 100
    && (|batch| == 100 || forall a | a in d.table && d.table[a].expiresAt < d.now :: a in batch)
  }

  /** The effect on the store of a sweep. */
  function SweptOf(d: Store, batch: set<Alias>): Store {
    d.(table := d.table - batch, blobs := d.blobs - batch, removed := d.removed + multiset(batch))
  }

  /** A sweep up to some of its storage Deletes. */
  lemma SoloSweepUntil(s0: State, s: State, t: Tid, batch: set<Alias>, gone: set<Alias>)
    requires Alone(s0, s, t) && s.locks == map[] && t !in s.procs
    requires ScannedBatch(s.db, batch) && gone <= batch
    ensures Alone(s0, With(s, t, SwDeleting(s.db.now, batch, batch - gone), LocksOf(batch, t),
                           s.db.(blobs := s.db.blobs - gone)), t)
  {
    hide Alone;
    var now := s.db.now;
    var locks := LocksOf(batch, t);
    assert LocksOf({}, t) == map[];
    AloneStep(s0, s, Spawn(t, SwScanning(now, {})), With(s, t, SwScanning(now, {}), LocksOf({}, t), s.db), t);
    SoloScan(s0, s, t, {}, batch);
    assert {} + batch == batch;
    Call(s0, s, t, SwScanning(now, batch), locks, s.db, SwDeleting(now, batch, batch), locks, s.db);
    SoloRemoveBlobs(s0, s, t, batch, batch, gone, s.db);
  }

  /** A sweep alone can take any full batch of expired rows, or all of them, and removes it with its blobs. */
  lemma SoloSweep(s0: State, s: State, t: Tid, batch: set<Alias>)
    requires Alone(s0, s, t) && s.locks == map[] && t !in s.procs
    requires ScannedBatch(s.db, batch)
    ensures Alone(s0, With(s, t, Finished(true), map[], SweptOf(s.db, batch)), t)
  {
    hide Alone;
    SoloSweepUntil(s0, s, t, batch, batch);
    var now := s.db.now;
    var locks := LocksOf(batch, t);
    var d := s.db.(blobs := s.db.blobs - batch);
    assert batch - batch == {};
    NoLocksLeft(s, t, SwDeleting(now, batch, {}), locks, d, true, SweptOf(s.db, batch));
    Call(s0, s, t, SwDeleting(now, batch, {}), locks, d, Finished(true), map[], SweptOf(s.db, batch));
  }
}
