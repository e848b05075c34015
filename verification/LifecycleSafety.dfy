/** What holds in every reachable state and at every step of the interleaved lifecycle. */
module LifecycleSafety {
  import opened Entities
  import opened FilesTable
  import opened Access
  import opened Lifecycle
  import opened LifecycleInvariant
  import opened LifecycleSteps

  /** A request has deleted the blob and is about to commit the removal of the row. */
  ghost predicate RemovalPending(s: State, a: Alias) {
    a in s.locks && BlobGone(PcOf(s, s.locks[a]), a)
  }

  /** Table and blob store agree: a live row whose removal is not about to commit has its blob, with
      the uploaded bytes, unless a Commit failed after a storage Delete - and then it has none. */
  lemma LiveRowHasItsBlob(s: State, a: Alias)
    requires Reachable(s)
    requires a in s.db.table && s.db.table[a].expiresAt > s.db.now && !RemovalPending(s, a)
    ensures a in s.db.uploads
    ensures a in s.db.blobs <==> a !in s.db.torn
    ensures a in s.db.blobs ==> s.db.blobs[a] == s.db.uploads[a].up.bytes
  {
    ReachableHasInv(s);
    assert AliasOk(s.db, a) && BlobOk(s, a);
  }

  /** What is left of a committed upload once its row is gone: nothing, and it was removed once. */
  lemma RemovedRowLeavesNoBlob(s: State, a: Alias)
    requires Reachable(s)
    requires a in s.db.uploads && a !in s.db.table
    ensures a !in s.db.blobs && s.db.removed[a] == 1
  {
    ReachableHasInv(s);
    assert AliasOk(s.db, a);
  }

  /** The committed row is that of the request, field by field, with the hash that was handed in and the time
      to live that was asked for; its counter stays between one and the limit. */
  lemma RowIsTheUpload(s: State, a: Alias)
    requires Reachable(s) && a in s.db.table
    ensures a in s.db.uploads
    ensures var row, up := s.db.table[a], s.db.uploads[a].up;
      && row.name == up.name && row.size == up.size && row.owner == up.user
      && row.hash == s.db.uploads[a].hash && (up.password == "" ==> row.hash == "")
      && row.loadedAt <= s.db.now && row.expiresAt == row.loadedAt + up.ttl
      && 1 <= row.left <= up.max
  {
    ReachableHasInv(s);
    assert AliasOk(s.db, a);
  }

  /** What is remembered of an upload is what its Commit was asked for. */
  lemma CommitRecordsTheRequest(s: State, e: Event, a: Alias)
    requires Reachable(s) && Enabled(s, e) && a !in s.db.uploads && a in Step(s, e).db.uploads
    ensures e.Go? && s.procs[e.t].UpStored? && s.procs[e.t].alias == a
    ensures Step(s, e).db.uploads[a] == Record(s.procs[e.t].row, s.procs[e.t].up, s.procs[e.t].hash)
    ensures a in Step(s, e).db.table && Step(s, e).db.table[a] == s.procs[e.t].row
    ensures a in Step(s, e).db.blobs && Step(s, e).db.blobs[a] == s.procs[e.t].up.bytes
  {
    ReachableHasInv(s);
    if e.Go? {
      assert PcOk(s.db, e.t, s.procs[e.t]);
    }
  }

  /** At most one process is writing or removing an alias's folder, and no other holds its row. */
  lemma StorageIsExclusive(s: State, t: Tid, u: Tid, a: Alias)
    requires Reachable(s) && t in s.procs && u in s.procs
    requires a in Touching(s.procs[t]) && a in Held(s.procs[u])
    ensures t == u
  {
    ReachableHasInv(s);
    assert PcOk(s.db, t, s.procs[t]);
    if t != u {
      ClaimsAreDisjoint(s, u, t, a);
    }
  }

  /** A blob changes only while its alias is locked, by the process that changes it and that is at a storage
      call of that alias. */
  lemma BlobsChangeUnderTheLock(s: State, e: Event, a: Alias)
    requires Reachable(s) && Enabled(s, e)
    requires !((a in Step(s, e).db.blobs <==> a in s.db.blobs)
               && (a in s.db.blobs ==> Step(s, e).db.blobs[a] == s.db.blobs[a]))
    ensures !e.Tick? && e.t in s.procs && a in Touching(s.procs[e.t]) && a in s.locks && s.locks[a] == e.t
  {
    OnlyTouchedBlobsChange(s, e, a);
    TouchingNeedsLock(s, e.t, a);
  }

  lemma OnlyTouchedBlobsChange(s: State, e: Event, a: Alias)
    requires Enabled(s, e)
    requires !((a in Step(s, e).db.blobs <==> a in s.db.blobs)
               && (a in s.db.blobs ==> Step(s, e).db.blobs[a] == s.db.blobs[a]))
    ensures !e.Tick? && e.t in s.procs && a in Touching(s.procs[e.t])
  {
    if e.Go? {
      if a !in Touching(s.procs[e.t]) {
        CallTouches(s, e.t, a);
      }
    }
  }

  lemma CallTouches(s: State, t: Tid, a: Alias)
    requires t in s.procs && CanGo(s, t) && a !in Touching(s.procs[t])
    ensures a in Advance(s, t).db.blobs <==> a in s.db.blobs
    ensures a in s.db.blobs ==> Advance(s, t).db.blobs[a] == s.db.blobs[a]
  {
    hide CanGo;
  }

  /** A process that touches a folder holds the row of its alias. */
  lemma TouchingNeedsLock(s: State, t: Tid, a: Alias)
    requires Reachable(s) && t in s.procs && a in Touching(s.procs[t])
    ensures a in s.locks && s.locks[a] == t
    ensures s.procs[t].SwDeleting? ==> a in s.db.table && s.db.table[a].expiresAt < s.db.now
  {
    ReachableHasInv(s);
    assert PcOk(s.db, t, s.procs[t]) && HoldsAll(s, t) && PcOf(s, t) == s.procs[t];
    assert a in Held(s.procs[t]);
  }

  /** Every lock belongs to a process that is still under way and in a state that holds it: whatever fails,
      no finished operation leaves a transaction open. */
  lemma LocksEndWithTheirTransaction(s: State, a: Alias)
    requires Reachable(s) && a in s.locks
    ensures s.locks[a] in s.procs
    ensures a in Held(s.procs[s.locks[a]]) && !s.procs[s.locks[a]].Finished?
  {
    ReachableHasInv(s);
    assert a in Held(PcOf(s, s.locks[a]));
  }

  // ---------------------------------------------------------------- steps

  /** The step is a Commit that makes a download of `a` succeed. */
  ghost predicate Serves(s: State, e: Event, a: Alias)
    requires Enabled(s, e)
  {
    e.Go? &&
    match s.procs[e.t]
    case DnUpdated(h, left, _, _) => left > 0 && h.alias == a
    case DnBlobDeleted(h, _, _, _) => h.alias == a
    case _ => false
  }

  /** The step is a Commit of a transaction that deleted the row of `a`. */
  ghost predicate Removes(s: State, e: Event, a: Alias)
    requires Enabled(s, e)
  {
    e.Go? && a in Removing(s.procs[e.t])
  }

  /** A download that succeeds hands out the uploaded bytes, to a password the file accepts, and read
      its counter before the file expired. */
  lemma ServedDownloadIsRight(s: State, e: Event, a: Alias)
    requires Reachable(s) && Enabled(s, e) && Serves(s, e, a)
    ensures a in s.db.uploads
    ensures s.procs[e.t].h.content == s.db.uploads[a].up.bytes
    ensures var hash, password := s.db.uploads[a].hash, s.procs[e.t].h.password;
      hash == "" || (password != "" && s.db.cfg.verify(hash, password))
    ensures s.procs[e.t].at < s.db.uploads[a].row.expiresAt && s.procs[e.t].at <= s.db.now
    ensures s.procs[e.t].DnBlobDeleted? ==> a in s.db.table && a !in Step(s, e).db.table
  {
    ReachableHasInv(s);
    assert AliasOk(s.db, a);
    assert PcOk(s.db, e.t, s.procs[e.t]);
  }

  /** The three ways a row can disappear. */
  ghost predicate RemovedByOwner(s: State, t: Tid, a: Alias)
    requires t in s.procs && a in s.db.table
  {
    && s.procs[t].RmBlobDeleted? && s.procs[t].alias == a
    && (s.db.table[a].owner == s.procs[t].user || "admin" in s.procs[t].roles)
    && s.procs[t].delAt < s.db.table[a].expiresAt
  }

  /** The download read downloads_left = 1, and with it the limit is used up. */
  ghost predicate RemovedByLastDownload(s: State, t: Tid, a: Alias)
    requires t in s.procs && a in s.db.table
  {
    && s.procs[t].DnBlobDeleted? && s.procs[t].h.alias == a
    && (var hash, password := s.db.table[a].hash, s.procs[t].h.password;
        hash == "" || (password != "" && s.db.cfg.verify(hash, password)))
    && s.procs[t].read == 1 && a in s.db.uploads && s.db.served[a] + 1 >= s.db.uploads[a].row.left
    && s.procs[t].at <= s.procs[t].delAt < s.db.table[a].expiresAt
  }

  ghost predicate RemovedBySweep(s: State, t: Tid, a: Alias)
    requires t in s.procs && a in s.db.table
  {
    && s.procs[t].SwDeleting? && s.procs[t].todo == {} && a in s.procs[t].batch
    && s.db.table[a].expiresAt < s.procs[t].at <= s.db.now
  }

  /** A row disappears in one step only: a Commit of a process that holds its lock, and that is an owner
      or admin delete, a last download, or a sweep of a row already expired. A row still live at that
      moment is therefore never taken by a sweep; an expired one is taken by a request only when the
      request's DELETE ran while it was live. */
  lemma RowDisappearsOnlyWhenAllowed(s: State, e: Event, a: Alias)
    requires Reachable(s) && Enabled(s, e) && a in s.db.table
    ensures a !in Step(s, e).db.table <==> Removes(s, e, a)
    ensures Removes(s, e, a) ==>
              && a in s.locks && s.locks[a] == e.t
              && (|| RemovedByOwner(s, e.t, a)
                  || RemovedByLastDownload(s, e.t, a)
                  || RemovedBySweep(s, e.t, a))
    ensures Removes(s, e, a) && s.db.table[a].expiresAt > s.db.now ==>
              RemovedByOwner(s, e.t, a) || RemovedByLastDownload(s, e.t, a)
  {
    ReachableHasInv(s);
    assert AliasOk(s.db, a);
    if e.Go? {
      assert PcOk(s.db, e.t, s.procs[e.t]) && HoldsAll(s, e.t) && PcOf(s, e.t) == s.procs[e.t];
      OnlyRemovalsRemove(s, e.t, a);
      if a in Removing(s.procs[e.t]) {
        RemovalIsAllowed(s, e.t, a);
      }
    }
  }

  lemma OnlyRemovalsRemove(s: State, t: Tid, a: Alias)
    requires t in s.procs && CanGo(s, t) && a in s.db.table
    ensures a !in Advance(s, t).db.table <==> a in Removing(s.procs[t])
  {
    if Removing(s.procs[t]) == {} {
      KeepsRow(s, t, a);
    }
  }

  lemma KeepsRow(s: State, t: Tid, a: Alias)
    requires t in s.procs && CanGo(s, t) && a in s.db.table && Removing(s.procs[t]) == {}
    ensures a in Advance(s, t).db.table
  {
  }

  lemma RemovalIsAllowed(s: State, t: Tid, a: Alias)
    requires t in s.procs && PcOk(s.db, t, s.procs[t]) && HoldsAll(s, t) && AliasOk(s.db, a)
    requires a in s.db.table && a in Removing(s.procs[t])
    ensures a in s.locks && s.locks[a] == t
    ensures RemovedByOwner(s, t, a) || RemovedByLastDownload(s, t, a) || RemovedBySweep(s, t, a)
    ensures s.db.table[a].expiresAt > s.db.now ==> RemovedByOwner(s, t, a) || RemovedByLastDownload(s, t, a)
  {
    assert PcOf(s, t) == s.procs[t] && a in Held(s.procs[t]);
  }

  /** A transaction that commits a removal finds its row: two of them never remove the same one. */
  lemma RemovalFindsItsRow(s: State, e: Event, a: Alias)
    requires Reachable(s) && Enabled(s, e) && Removes(s, e, a)
    ensures a in s.db.table && s.db.removed[a] == 0
    ensures Step(s, e).db.removed[a] == 1
  {
    ReachableHasInv(s);
    assert AliasOk(s.db, a);
    assert PcOk(s.db, e.t, s.procs[e.t]);
  }

  /** The committed table changes only in a step that finishes its process successfully. */
  lemma TableChangesOnlyOnSuccess(s: State, e: Event)
    requires Enabled(s, e)
    ensures Step(s, e).db.table != s.db.table ==> e.Go? && Step(s, e).procs[e.t] == Finished(true)
  {
  }

  /** Every call may fail, at any time: the operation is over, its locks are free, and the table and all other
      operations are as before. */
  lemma AnyCallMayFail(s: State, t: Tid)
    requires t in s.procs && !s.procs[t].Finished?
    ensures Enabled(s, Fail(t, Clean))
    ensures var s' := Step(s, Fail(t, Clean));
      && s'.db.table == s.db.table && s'.db.blobs == s.db.blobs && s'.db.now == s.db.now
      && s'.procs == s.procs[t := Finished(false)]
      && (forall a :: a in s'.locks <==> a in s.locks && s.locks[a] != t)
      && (forall a | a in s'.locks :: s'.locks[a] == s.locks[a])
  {
  }

  /** An alias is torn exactly by a Commit failing after a request's storage Delete succeeded. */
  lemma OnlyFailedCommitsTear(s: State, e: Event, a: Alias)
    requires Enabled(s, e)
    ensures a in Step(s, e).db.torn <==> a in s.db.torn || (e.Fail? && BlobGone(s.procs[e.t], a))
  {
  }

  // ---------------------------------------------------------------- runs

  lemma {:induction false} PrefixIsRun(s0: State, es: seq<Event>, i: nat)
    requires IsRun(s0, es) && i <= |es|
    ensures IsRun(s0, es[..i])
    decreases |es|
  {
    if i < |es| {
      PrefixIsRun(s0, es[..|es| - 1], i);
      assert es[..|es| - 1][..i] == es[..i];
    } else {
      assert es[..i] == es;
    }
  }

  /** The table before and after event `i` of a run is the same. */
  ghost predicate LeavesTable(s0: State, es: seq<Event>, i: nat)
    requires i < |es|
  {
    IsRun(s0, es[..i]) && IsRun(s0, es[..i + 1]) && After(s0, es[..i + 1]).db.table == After(s0, es[..i]).db.table
  }

  lemma SuccessStays(s: State, e: Event, t: Tid)
    requires Enabled(s, e) && PcOf(s, t) == Finished(true)
    ensures PcOf(Step(s, e), t) == Finished(true)
  {
  }

  /** An operation that has not ended without an error, and so every one that ended with one, has changed
      the committed table in none of its steps. */
  lemma {:induction false} FailedOperationLeavesTheTable(s0: State, es: seq<Event>, i: nat, t: Tid)
    requires IsRun(s0, es) && i < |es| && !es[i].Tick? && es[i].t == t
    requires PcOf(After(s0, es), t) != Finished(true)
    ensures LeavesTable(s0, es, i)
    decreases |es|
  {
    var n := |es| - 1;
    var before := es[..n];
    PrefixIsRun(s0, es, n);
    if i == n {
      assert es[..i + 1] == es;
      TableChangesOnlyOnSuccess(After(s0, before), es[n]);
    } else {
      if PcOf(After(s0, before), t) == Finished(true) {
        SuccessStays(After(s0, before), es[n], t);
      }
      FailedOperationLeavesTheTable(s0, before, i, t);
      assert before[..i] == es[..i] && before[..i + 1] == es[..i + 1];
    }
  }

  /** Event `i` of the run is a Commit that fails after its request's storage Delete of `a` succeeded. */
  ghost predicate TornAt(s0: State, es: seq<Event>, i: nat, a: Alias)
    requires i < |es|
  {
    && IsRun(s0, es[..i]) && es[i].Fail?
    && BlobGone(PcOf(After(s0, es[..i]), es[i].t), a)
  }

  lemma TornAtPrefix(s0: State, es: seq<Event>, i: nat, a: Alias)
    requires IsRun(s0, es) && i < |es|
    ensures i < |es| - 1 ==> (TornAt(s0, es[..|es| - 1], i, a) <==> TornAt(s0, es, i, a))
  {
    assert i < |es| - 1 ==> es[..|es| - 1][..i] == es[..i];
  }

  lemma {:induction false} TornByFailedCommits(s0: State, es: seq<Event>, a: Alias)
    requires IsRun(s0, es) && s0.db.torn == {}
    ensures a in After(s0, es).db.torn <==> exists i | 0 <= i < |es| :: TornAt(s0, es, i, a)
    decreases |es|
  {
    if es != [] {
      var n := |es| - 1;
      var before := es[..n];
      TornByFailedCommits(s0, before, a);
      OnlyFailedCommitsTear(After(s0, before), es[n], a);
      forall i | 0 <= i < n ensures TornAt(s0, before, i, a) <==> TornAt(s0, es, i, a) {
        TornAtPrefix(s0, es, i, a);
      }
      assert TornAt(s0, es, n, a) <==> es[n].Fail? && BlobGone(After(s0, before).procs[es[n].t], a);
    }
  }

  /** Over every run the blob of a live row is there, with the uploaded bytes, or about to be removed with
      the row, if and only if no Commit failed after a request's storage Delete had removed it. */
  lemma BlobIsLostExactlyByAFailedCommit(cfg: Config, now: int, es: seq<Event>, a: Alias)
    requires IsRun(Init(cfg, now), es)
    requires var s := After(Init(cfg, now), es);
      a in s.db.table && s.db.table[a].expiresAt > s.db.now && !RemovalPending(s, a)
    ensures var s := After(Init(cfg, now), es);
      && a in s.db.uploads
      && (a in s.db.blobs && s.db.blobs[a] == s.db.uploads[a].up.bytes
          <==> forall i | 0 <= i < |es| :: !TornAt(Init(cfg, now), es, i, a))
  {
    var s := After(Init(cfg, now), es);
    assert Reachable(s);
    LiveRowHasItsBlob(s, a);
    TornByFailedCommits(Init(cfg, now), es, a);
  }

  ghost function Downloads(s0: State, es: seq<Event>, a: Alias): nat
    requires IsRun(s0, es)
    decreases |es|
  {
    if es == [] then 0 else
      var before := es[..|es| - 1];
      Downloads(s0, before, a) + (if Serves(After(s0, before), es[|es| - 1], a) then 1 else 0)
  }

  ghost function Removals(s0: State, es: seq<Event>, a: Alias): nat
    requires IsRun(s0, es)
    decreases |es|
  {
    if es == [] then 0 else
      var before := es[..|es| - 1];
      Removals(s0, before, a) + (if Removes(After(s0, before), es[|es| - 1], a) then 1 else 0)
  }

  /** The history carried in the state is the count of the steps that made it. */
  lemma {:induction false} HistoryIsTrue(s0: State, es: seq<Event>, a: Alias)
    requires IsRun(s0, es) && s0.db.served[a] == 0 && s0.db.removed[a] == 0
    ensures After(s0, es).db.served[a] == Downloads(s0, es, a)
    ensures After(s0, es).db.removed[a] == Removals(s0, es, a)
    decreases |es|
  {
    if es != [] {
      var before := es[..|es| - 1];
      HistoryIsTrue(s0, before, a);
      StepCountsDownloads(After(s0, before), es[|es| - 1], a);
      StepCountsRemovals(After(s0, before), es[|es| - 1], a);
    }
  }

  lemma CallCountsDownloads(s: State, t: Tid, a: Alias)
    requires t in s.procs && CanGo(s, t)
    ensures Advance(s, t).db.served[a] == s.db.served[a] + (if Serves(s, Go(t), a) then 1 else 0)
  {
    match s.procs[t]
    case DnUpdated(_, _, _, _) =>
    case DnBlobDeleted(_, _, _, _) =>
    case _ =>
  }

  lemma StepCountsDownloads(s: State, e: Event, a: Alias)
    requires Enabled(s, e)
    ensures Step(s, e).db.served[a] == s.db.served[a] + (if Serves(s, e, a) then 1 else 0)
  {
    if e.Go? {
      CallCountsDownloads(s, e.t, a);
    }
  }

  lemma StepCountsRemovals(s: State, e: Event, a: Alias)
    requires Enabled(s, e)
    ensures Step(s, e).db.removed[a] == s.db.removed[a] + (if Removes(s, e, a) then 1 else 0)
  {
    if e.Go? && s.procs[e.t].SwDeleting? {
      var batch := s.procs[e.t].batch;
      assert multiset(batch)[a] == if a in batch then 1 else 0;
    }
  }

  /** In every interleaving each alias is removed by at most one committed transaction, and a file
      uploaded with a limit of one download is downloaded at most once. */
  lemma RemovedAtMostOnceServedAtMostOnce(cfg: Config, now: int, es: seq<Event>, a: Alias)
    requires IsRun(Init(cfg, now), es)
    ensures Removals(Init(cfg, now), es, a) <= 1
    ensures var s := After(Init(cfg, now), es);
      a in s.db.uploads && s.db.uploads[a].row.left == 1 ==> Downloads(Init(cfg, now), es, a) <= 1
  {
    var s := After(Init(cfg, now), es);
    assert Reachable(s);
    ReachableHasInv(s);
    HistoryIsTrue(Init(cfg, now), es, a);
    assert AliasOk(s.db, a);
  }

  /** No download is lost. In every interleaving, with any failures: while the row exists, the downloads
      served and those left are at least the limit together. */
  lemma NoDownloadIsLost(cfg: Config, now: int, es: seq<Event>, a: Alias)
    requires IsRun(Init(cfg, now), es)
    ensures var s := After(Init(cfg, now), es);
      a in s.db.table ==>
        a in s.db.uploads && Downloads(Init(cfg, now), es, a) + s.db.table[a].left >= s.db.uploads[a].row.left
  {
    var s := After(Init(cfg, now), es);
    assert Reachable(s);
    ReachableHasInv(s);
    HistoryIsTrue(Init(cfg, now), es, a);
    assert AliasOk(s.db, a);
  }

  /** Event `i` of the run removes the row of `a`, and is the Commit of a delete or of a sweep. */
  ghost predicate TakenAway(s0: State, es: seq<Event>, i: nat, a: Alias)
    requires i < |es|
  {
    && IsRun(s0, es[..i]) && Enabled(After(s0, es[..i]), es[i])
    && Removes(After(s0, es[..i]), es[i], a) && !After(s0, es[..i]).procs[es[i].t].DnBlobDeleted?
  }

  /** A file that has gone had all its downloads served, unless its owner or an admin deleted it or it
      expired; there is no other way. */
  lemma {:induction false} GoneMeansUsedUp(cfg: Config, now: int, es: seq<Event>, a: Alias)
    requires IsRun(Init(cfg, now), es)
    requires var s := After(Init(cfg, now), es); a in s.db.uploads && a !in s.db.table
    ensures || Downloads(Init(cfg, now), es, a) >= After(Init(cfg, now), es).db.uploads[a].row.left
            || exists i | 0 <= i < |es| :: TakenAway(Init(cfg, now), es, i, a)
    decreases |es|
  {
    var s0 := Init(cfg, now);
    var n := |es| - 1;
    var before := es[..n];
    var s := After(s0, before);
    assert Reachable(s);
    RowGoesOrWasGone(s, es[n], a);
    if a in s.db.table {
      RowDisappearsOnlyWhenAllowed(s, es[n], a);
      if s.procs[es[n].t].DnBlobDeleted? {
        HistoryIsTrue(s0, before, a);
      } else {
        assert TakenAway(s0, es, n, a);
      }
    } else {
      GoneMeansUsedUp(cfg, now, before, a);
      if i: nat :| i < n && TakenAway(s0, before, i, a) {
        assert before[..i] == es[..i];
        assert TakenAway(s0, es, i, a);
      }
    }
  }

  lemma RowGoesOrWasGone(s: State, e: Event, a: Alias)
    requires Reachable(s) && Enabled(s, e)
    requires a in Step(s, e).db.uploads && a !in Step(s, e).db.table
    ensures a in s.db.uploads && Step(s, e).db.uploads[a] == s.db.uploads[a]
  {
    ReachableHasInv(s);
    if e.Go? && s.procs[e.t].UpStored? {
      assert PcOk(s.db, e.t, s.procs[e.t]);
    }
  }
}
