/** Download limits: exact conservation over every run in which decrements of an alias do not overlap. */
module LifecycleDownloads {
  import opened Entities
  import opened FilesTable
  import opened Access
  import opened Lifecycle
  import opened LifecycleInvariant
  import opened LifecycleSteps
  import opened LifecycleSafety
  import opened LifecycleSolo

  // ---------------------------------------------------------------- conservation

  /** The process has read the counter of `a` and has not committed yet. */
  ghost predicate InWindow(pc: Pc, a: Alias) {
    (pc.DnRead? || pc.DnUpdated? || pc.DnRowDeleted? || pc.DnBlobDeleted?) && pc.h.alias == a
  }

  /** The step does not open a second decrement of `a` while another is under way. */
  ghost predicate NoOverlap(s: State, e: Event, a: Alias)
    requires Enabled(s, e)
  {
    e.Go? && s.procs[e.t].DnOpened? && s.procs[e.t].h.alias == a ==>
      forall u | u in s.procs :: !InWindow(s.procs[u], a)
  }

  /** The counter value a decrement under way has read. */
  function ReadValue(pc: Pc): int {
    match pc
    case DnRead(_, read, _) => read
    case DnUpdated(_, left, _, _) => left + 1
    case DnRowDeleted(_, read, _, _) => read
    case DnBlobDeleted(_, read, _, _) => read
    case _ => 1
  }

  ghost predicate WindowsBalanced(s: State, a: Alias)
    requires a in s.db.uploads
  {
    && (forall t | t in s.procs && InWindow(s.procs[t], a) ::
          s.db.served[a] + ReadValue(s.procs[t]) == s.db.uploads[a].row.left)
    && (forall t, u | t in s.procs && u in s.procs && InWindow(s.procs[t], a) && InWindow(s.procs[u], a) :: t == u)
  }

  ghost predicate Balanced(s: State, a: Alias) {
    a in s.db.uploads ==>
      && (a in s.db.table ==> s.db.served[a] + s.db.table[a].left == s.db.uploads[a].row.left)
      && s.db.served[a] <= s.db.uploads[a].row.left
      && WindowsBalanced(s, a)
  }

  /** Steps that neither serve nor write the counter of `a` keep the balance. */
  lemma BalanceFrame(s: State, s': State, t: Tid, pc: Pc, a: Alias)
    requires Balanced(s, a) && a in s.db.uploads
    requires s'.procs == s.procs[t := pc]
    requires a in s'.db.uploads && s'.db.uploads[a] == s.db.uploads[a]
    requires s'.db.served[a] == s.db.served[a]
    requires a in s'.db.table ==> a in s.db.table && s'.db.table[a].left == s.db.table[a].left
    requires InWindow(pc, a) ==> t in s.procs && InWindow(s.procs[t], a) && ReadValue(pc) == ReadValue(s.procs[t])
    ensures Balanced(s', a)
  {
  }

  /** An upload is recorded by its own Commit only. */
  lemma OnlyItsCommitUploads(s: State, e: Event, a: Alias)
    requires Enabled(s, e) && a !in s.db.uploads
    ensures a in Step(s, e).db.uploads ==> e.Go? && s.procs[e.t].UpStored? && s.procs[e.t].alias == a
  {
  }

  lemma UploadBalance(s: State, t: Tid, up: UploadCommand, a: Alias, hash: string, row: Row)
    requires t in s.procs && s.procs[t] == UpStored(up, a, hash, row)
    requires s.db.served[a] == 0 && row.left >= 0
    requires forall u | u in s.procs :: !InWindow(s.procs[u], a)
    ensures Balanced(CommitUpload(s, t, up, a, hash, row), a)
  {
  }

  lemma FirstBalance(s: State, e: Event, a: Alias)
    requires Inv(s) && Enabled(s, e) && a !in s.db.uploads
    ensures Balanced(Step(s, e), a)
  {
    OnlyItsCommitUploads(s, e, a);
    if a in Step(s, e).db.uploads {
      assert AliasOk(s.db, a);
      forall t | t in s.procs ensures !InWindow(s.procs[t], a) {
        assert PcOk(s.db, t, s.procs[t]);
      }
      var UpStored(up, _, hash, row) := s.procs[e.t];
      assert PcOk(s.db, e.t, UpStored(up, a, hash, row));
      UploadBalance(s, e.t, up, a, hash, row);
    }
  }

  lemma ReadBalance(s: State, t: Tid, a: Alias)
    requires Balanced(s, a) && a in s.db.uploads
    requires t in s.procs && s.procs[t].DnOpened? && CanGo(s, t) && NoOverlap(s, Go(t), a)
    ensures Balanced(Advance(s, t), a)
  {
    if s.procs[t].h.alias != a {
      BalanceFrame(s, Advance(s, t), t, Advance(s, t).procs[t], a);
    }
  }

  lemma CommitBalance(s: State, t: Tid, a: Alias)
    requires Inv(s) && Balanced(s, a) && a in s.db.uploads
    requires t in s.procs && CanGo(s, t)
    requires (s.procs[t].DnUpdated? && s.procs[t].left > 0) || s.procs[t].DnBlobDeleted?
    ensures Balanced(Advance(s, t), a)
  {
    assert PcOk(s.db, t, s.procs[t]) && AliasOk(s.db, a);
    if s.procs[t].h.alias != a {
      BalanceFrame(s, Advance(s, t), t, Finished(true), a);
    } else {
      assert InWindow(s.procs[t], a);
      assert Advance(s, t).procs == s.procs[t := Finished(true)];
    }
  }

  predicate IsDownload(pc: Pc) {
    pc.DnStart? || pc.DnFound? || pc.DnOpened? || pc.DnRead? || pc.DnUpdated? || pc.DnRowDeleted? || pc.DnBlobDeleted?
  }

  /** A download's calls that neither read the counter nor commit. */
  lemma DownloadGoBalance(s: State, t: Tid, a: Alias)
    requires Balanced(s, a) && a in s.db.uploads
    requires t in s.procs && CanGo(s, t) && IsDownload(s.procs[t])
    requires !s.procs[t].DnOpened? && !s.procs[t].DnBlobDeleted? && (s.procs[t].DnUpdated? ==> s.procs[t].left == 0)
    ensures Balanced(Advance(s, t), a)
  {
    var pc := Advance(s, t).procs[t];
    BalanceFrame(s, Advance(s, t), t, pc, a);
  }

  /** Calls of uploads, deletes and sweeps. */
  lemma OtherGoBalance(s: State, t: Tid, a: Alias)
    requires Inv(s) && Balanced(s, a) && a in s.db.uploads
    requires t in s.procs && CanGo(s, t) && !IsDownload(s.procs[t])
    ensures Balanced(Advance(s, t), a)
  {
    assert s.procs[t].UpStored? ==> s.procs[t].alias != a by {
      assert PcOk(s.db, t, s.procs[t]);
    }
    OtherGoFrame(s, t, a);
  }

  lemma OtherGoFrame(s: State, t: Tid, a: Alias)
    requires Balanced(s, a) && a in s.db.uploads
    requires t in s.procs && CanGo(s, t) && !IsDownload(s.procs[t])
    requires s.procs[t].UpStored? ==> s.procs[t].alias != a
    ensures Balanced(Advance(s, t), a)
  {
    BalanceFrame(s, Advance(s, t), t, Advance(s, t).procs[t], a);
  }

  lemma NonGoBalance(s: State, e: Event, a: Alias)
    requires Balanced(s, a) && a in s.db.uploads && Enabled(s, e) && !e.Go? && !e.Tick?
    ensures Balanced(Step(s, e), a)
  {
    BalanceFrame(s, Step(s, e), e.t, Step(s, e).procs[e.t], a);
  }

  lemma BalanceKept(s: State, e: Event, a: Alias)
    requires Inv(s) && Enabled(s, e) && NoOverlap(s, e, a)
    requires Balanced(s, a)
    ensures Balanced(Step(s, e), a)
  {
    if a !in s.db.uploads {
      FirstBalance(s, e, a);
    } else if e.Go? {
      if s.procs[e.t].DnOpened? {
        ReadBalance(s, e.t, a);
      } else if (s.procs[e.t].DnUpdated? && s.procs[e.t].left > 0) || s.procs[e.t].DnBlobDeleted? {
        CommitBalance(s, e.t, a);
      } else if IsDownload(s.procs[e.t]) {
        assert PcOk(s.db, e.t, s.procs[e.t]);
        DownloadGoBalance(s, e.t, a);
      } else {
        OtherGoBalance(s, e.t, a);
      }
    } else if !e.Tick? {
      NonGoBalance(s, e, a);
    }
  }

  ghost predicate NeverOverlaps(s0: State, es: seq<Event>, a: Alias)
    requires IsRun(s0, es)
    decreases |es|
  {
    es == [] ||
    (NeverOverlaps(s0, es[..|es| - 1], a) && NoOverlap(After(s0, es[..|es| - 1]), es[|es| - 1], a))
  }

  lemma {:induction false} RunBalanced(s0: State, es: seq<Event>, a: Alias)
    requires Inv(s0) && Balanced(s0, a) && IsRun(s0, es) && NeverOverlaps(s0, es, a)
    ensures Balanced(After(s0, es), a)
    decreases |es|
  {
    if es != [] {
      var before := es[..|es| - 1];
      RunBalanced(s0, before, a);
      RunKeepsInv(s0, before);
      BalanceKept(After(s0, before), es[|es| - 1], a);
    }
  }

  /** Conservation. Over any run, with any failures and anything else going on, in which decrements of
      one alias do not overlap: the downloads served and the counter add up to the limit as long as the
      row exists, the limit is never exceeded, and once it is reached row and blob are gone. */
  lemma DownloadsAreConserved(cfg: Config, now: int, es: seq<Event>, a: Alias)
    requires IsRun(Init(cfg, now), es) && NeverOverlaps(Init(cfg, now), es, a)
    requires a in After(Init(cfg, now), es).db.uploads
    ensures var s := After(Init(cfg, now), es);
      var max := s.db.uploads[a].row.left;
      var served := Downloads(Init(cfg, now), es, a);
      && (a in s.db.table ==> served + s.db.table[a].left == max && s.db.table[a].left >= 1)
      && served <= max
      && (served == max ==> a !in s.db.table && a !in s.db.blobs)
  {
    var s0 := Init(cfg, now);
    RunBalanced(s0, es, a);
    RunKeepsInv(s0, es);
    HistoryIsTrue(s0, es, a);
    assert AliasOk(After(s0, es).db, a);
  }
}
