/** What a sweep that commits has removed, whatever else happened while it was at work. */
module LifecycleSweeps {
  import opened Entities
  import opened FilesTable
  import opened Lifecycle
  import opened LifecycleInvariant
  import opened LifecycleSteps

  ghost predicate Gone(s: State, a: Alias) {
    a in s.db.uploads && a !in s.db.table
  }

  /** A removed row does not come back: no later upload has its alias. */
  lemma GoneStaysGone(s: State, e: Event, a: Alias)
    requires Inv(s) && Enabled(s, e) && Gone(s, a)
    ensures Gone(Step(s, e), a)
  {
    if e.Go? {
      assert PcOk(s.db, e.t, s.procs[e.t]);
    }
  }

  /** A sweep past its scan: at work on this batch, failed, or done with all of it. */
  ghost predicate SweepsBatch(s: State, t: Tid, batch: set<Alias>) {
    && t in s.procs
    && match s.procs[t]
       case SwDeleting(_, b, _) => b == batch
       case Finished(ok) => ok ==> forall a | a in batch :: Gone(s, a)
       case _ => false
  }

  lemma SweepCommits(s: State, t: Tid)
    requires Inv(s) && t in s.procs && s.procs[t].SwDeleting? && CanGo(s, t)
    ensures Advance(s, t).procs[t] == Finished(true)
    ensures forall a | a in s.procs[t].batch :: Gone(Advance(s, t), a)
  {
    assert PcOk(s.db, t, s.procs[t]);
    forall a | a in s.procs[t].batch ensures a in s.db.uploads {
      assert AliasOk(s.db, a);
    }
  }

  lemma OthersStay(s: State, e: Event, t: Tid)
    requires Enabled(s, e) && t in s.procs && (e.Tick? || e.t != t)
    ensures t in Step(s, e).procs && Step(s, e).procs[t] == s.procs[t]
  {
  }

  /** The sweep's own steps short of its Commit. */
  lemma SweepMoves(s: State, e: Event, t: Tid, batch: set<Alias>)
    requires Enabled(s, e) && !e.Tick? && e.t == t && !e.Go?
    requires t in s.procs && s.procs[t].SwDeleting? && s.procs[t].batch == batch
    ensures SweepsBatch(Step(s, e), t, batch)
  {
  }

  lemma SweepGoesOn(s: State, e: Event, t: Tid, batch: set<Alias>)
    requires Inv(s) && Enabled(s, e) && SweepsBatch(s, t, batch)
    ensures SweepsBatch(Step(s, e), t, batch)
  {
    if e.Tick? || e.t != t {
      OthersStay(s, e, t);
      forall a | a in batch && Gone(s, a) ensures Gone(Step(s, e), a) {
        GoneStaysGone(s, e, a);
      }
    } else if e.Go? {
      SweepCommits(s, t);
    } else {
      SweepMoves(s, e, t, batch);
    }
  }

  lemma {:induction false} SweepOverRun(s0: State, es: seq<Event>, t: Tid, batch: set<Alias>)
    requires Inv(s0) && IsRun(s0, es) && SweepsBatch(s0, t, batch)
    ensures SweepsBatch(After(s0, es), t, batch)
    decreases |es|
  {
    if es != [] {
      var before := es[..|es| - 1];
      SweepOverRun(s0, before, t, batch);
      RunKeepsInv(s0, before);
      SweepGoesOn(After(s0, before), es[|es| - 1], t, batch);
    }
  }

  /** Sweeps are complete. When a sweep ends its scan, its batch is full or holds every row of the table
      that had expired before the sweep began; and if it commits, however much later and whatever happened
      in between, all of them are gone, rows and blobs. */
  lemma SweepIsComplete(s: State, t: Tid, es: seq<Event>)
    requires Reachable(s) && t in s.procs && s.procs[t].SwScanning? && CanGo(s, t)
    requires IsRun(Advance(s, t), es) && PcOf(After(Advance(s, t), es), t) == Finished(true)
    ensures var SwScanning(at, batch) := s.procs[t];
      var s' := After(Advance(s, t), es);
      && (forall a | a in batch :: a in s.db.table && s.db.table[a].expiresAt < at)
      && |batch| <= 100
      && (|batch| == 100 || forall a | a in s.db.table && s.db.table[a].expiresAt < at :: a in batch)
      && forall a | a in batch :: a !in s'.db.table && a !in s'.db.blobs
  {
    var SwScanning(at, batch) := s.procs[t];
    ReachableHasInv(s);
    assert PcOk(s.db, t, SwScanning(at, batch));
    StepKeepsInv(s, Go(t));
    SweepOverRun(Advance(s, t), es, t, batch);
    RunKeepsInv(Advance(s, t), es);
    var s' := After(Advance(s, t), es);
    forall a | a in batch ensures a !in s'.db.table && a !in s'.db.blobs {
      assert Gone(s', a) && AliasOk(s'.db, a);
    }
  }
}
