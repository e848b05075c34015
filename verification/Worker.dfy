/** The expiry worker: each tick sweeps a batch of expired files, all of it or none of it. */
module Worker {
  import opened Entities
  import opened FilesTable
  import opened Storage
  import opened Repository

  /** A tick's faults: at the first failing call; `remove` is the position of the blob whose Delete fails. */
  datatype SweepFaults = SweepFaults(
    begin: Option<Error>, select: Option<Error>, delete: Option<nat>,
    remove: Option<nat>, gone: bool, cancelled: bool, commit: Option<Error>)

  const NO_SWEEP_FAULT := SweepFaults(None, None, None, None, false, false, None)

  /** Table and blob store at an instant. */
  datatype Vault = Vault(now: int, table: Table, folders: map<Alias, Folder>)

  function Expired(v: Vault): set<Alias> {
    SweepableAliases(v.table, v.now)
  }

  function AtMost(limit: nat, n: nat): nat {
    if n < limit then n else limit
  }

  /** What a tick does: on success it removes a full batch of expired rows with their blobs, on failure it
      keeps the table and may have lost blobs of expired rows only. */
  ghost predicate Swept(v: Vault, w: Vault, ok: bool) {
    exists batch, lost :: SweptBy(v, w, ok, batch, lost)
  }

  ghost predicate SweptBy(v: Vault, w: Vault, ok: bool, batch: set<Alias>, lost: set<Alias>) {
    && lost <= batch <= Expired(v)
    && (ok || lost != {} ==> |batch| == AtMost(BATCH_LIMIT, |Expired(v)|))
    && w.table == (if ok then v.table - batch else v.table)
    && w.folders == v.folders - (if ok then batch else lost)
  }

  class FileWorker {
    const repo: FileRepo
    const storage: FileStorage

    constructor (repo: FileRepo, storage: FileStorage)
      ensures this.repo == repo && this.storage == storage
    {
      this.repo, this.storage := repo, storage;
    }

    ghost function View(): Vault
      reads repo, storage
    {
      Vault(repo.now, repo.table, storage.folders)
    }

    /** One tick of the worker's loop. Returns whether it committed and whether the worker stops. A committed
        tick removes a hundred rows that have expired, or all of them, each with its folder, and nothing else;
        one that fails keeps the table and may lose folders of expired rows only. */
    method Tick(f: SweepFaults) returns (ok: bool, stop: bool)
      requires repo.tx == None
      modifies repo, storage
      ensures repo.tx == None && repo.now == old(repo.now)
      ensures Swept(old(View()), View(), ok)
      ensures ok ==>
                var gone := old(repo.table).Keys - repo.table.Keys;
                && repo.table == old(repo.table) - gone && storage.folders == old(storage.folders) - gone
                && (forall a | a in gone :: old(repo.table)[a].expiresAt < repo.now)
                && |gone| <= 100
                && (|gone| == 100 || forall a | a in repo.table :: repo.table[a].expiresAt >= repo.now)
      ensures !ok ==>
                && repo.table == old(repo.table)
                && (forall a | a in storage.folders ::
                      a in old(storage.folders) && storage.folders[a] == old(storage.folders)[a])
                && (forall a | a in old(storage.folders) && a !in storage.folders ::
                      a in repo.table && repo.table[a].expiresAt < repo.now)
      ensures f == NO_SWEEP_FAULT ==> ok
      ensures stop ==> !ok && f.cancelled
    {
      ok, stop := Sweep(f);
      if ok {
        WhatIsGone(old(View()), View());
      } else {
        WhatIsKept(old(View()), View());
      }
    }

    /** The calls of a tick. */
    method Sweep(f: SweepFaults) returns (ok: bool, stop: bool)
      requires repo.tx == None
      modifies repo, storage
      ensures repo.tx == None && repo.now == old(repo.now)
      ensures Swept(old(View()), View(), ok)
      ensures f == NO_SWEEP_FAULT ==> ok
      ensures stop ==> !ok && f.cancelled
    {
      ok, stop := false, false;
      var begun := repo.BeginTx(f.begin);
      if begun.Err? {
        KeptAll(old(View()));
        return;
      }
      var aliases := repo.DeleteExpiredFilesTx(BATCH_LIMIT, f.select, f.delete);
      if aliases.Err? {
        repo.Rollback();
        KeptAll(old(View()));
        return;
      }
      ghost var batch := ToSet(aliases.value);
      BatchFills(aliases.value, Expired(old(View())));
      var i := 0;
      assert storage.folders == old(storage.folders) - ToSet(aliases.value[..0]);
      while i < |aliases.value|
        invariant 0 <= i <= |aliases.value|
        invariant repo.tx == Some(repo.table - batch) && repo.table == old(repo.table) && repo.now == old(repo.now)
        invariant storage.folders == old(storage.folders) - ToSet(aliases.value[..i])
        invariant f == NO_SWEEP_FAULT ==> f.remove == None
      {
        var fault := if f.remove == Some(i) then DeleteFails(f.gone) else Deleted;
        ghost var before := ToSet(aliases.value[..i]);
        RemoveNextFolder(old(storage.folders), aliases.value, i);
        var removed := storage.Delete(aliases.value[i], fault);
        if removed.Err? {
          repo.Rollback();
          ghost var lost := if f.gone then ToSet(aliases.value[..i + 1]) else before;
          assert SweptBy(old(View()), View(), false, batch, lost);
          return false, f.cancelled;
        }
        i := i + 1;
      }
      assert aliases.value[..i] == aliases.value;
      var committed := repo.Commit(f.commit);
      ok := committed.Ok?;
      assert SweptBy(old(View()), View(), ok, batch, batch);
    }

    /** The worker until it is cancelled. When it gets enough ticks without faults, a hundred rows each, and
        no tick finds a row expired that was not at the first, then whatever goes wrong in other ticks exactly
        the rows expired at the first are gone, and their folders. */
    method Start(ticks: seq<(int, SweepFaults)>) returns (ghost vs: seq<Vault>, ghost oks: seq<bool>)
      requires repo.tx == None
      requires forall i | 0 <= i < |ticks| :: repo.now <= ticks[i].0
      requires forall i, j | 0 <= i < j < |ticks| :: ticks[i].0 <= ticks[j].0
      modifies repo, storage
      ensures repo.tx == None
      ensures SweepTrace(vs, oks) && |oks| <= |ticks|
      ensures vs[0].table == old(repo.table) && vs[0].folders == old(storage.folders)
      ensures vs[|oks|] == View() && TimesOf(vs, oks, ticks)
      ensures forall i | 0 <= i < |oks| :: ticks[i].1 == NO_SWEEP_FAULT ==> oks[i]
      ensures (forall i | 0 <= i < |ticks| :: !ticks[i].1.cancelled) ==> |oks| == |ticks|
      ensures && ticks != []
              && (forall i | 0 <= i < |ticks| :: !ticks[i].1.cancelled)
              && (forall i, a | 0 <= i < |ticks| && a in old(repo.table) && old(repo.table)[a].expiresAt < ticks[i].0 ::
                    old(repo.table)[a].expiresAt < ticks[0].0)
              && 100 * |set i | 0 <= i < |ticks| && ticks[i].1 == NO_SWEEP_FAULT|
                 >= |set a | a in old(repo.table) && old(repo.table)[a].expiresAt < ticks[0].0|
              ==>
                var expired := set a | a in old(repo.table) && old(repo.table)[a].expiresAt < ticks[0].0;
                repo.table == old(repo.table) - expired && storage.folders == old(storage.folders) - expired
    {
      vs, oks := Loop(ticks);
      if ticks != [] {
        EnoughInNumbers(ticks, old(repo.table));
        if EnoughTicks(ticks, old(repo.table)) {
          LoopConverges(vs, oks, ticks);
        }
      }
    }

    /** The worker's loop over the ticks it gets, each at its time, until it is cancelled; `vs` and `oks` are
        the trace of what it did. */
    method Loop(ticks: seq<(int, SweepFaults)>) returns (ghost vs: seq<Vault>, ghost oks: seq<bool>)
      requires repo.tx == None
      requires forall i | 0 <= i < |ticks| :: repo.now <= ticks[i].0
      requires forall i, j | 0 <= i < j < |ticks| :: ticks[i].0 <= ticks[j].0
      modifies repo, storage
      ensures repo.tx == None
      ensures SweepTrace(vs, oks) && |oks| <= |ticks|
      ensures vs[0].table == old(repo.table) && vs[0].folders == old(storage.folders)
      ensures vs[|oks|] == View() && TimesOf(vs, oks, ticks)
      ensures forall i | 0 <= i < |oks| :: ticks[i].1 == NO_SWEEP_FAULT ==> oks[i]
      ensures (forall i | 0 <= i < |ticks| :: !ticks[i].1.cancelled) ==> |oks| == |ticks|
    {
      hide Swept;
      vs, oks := [View()], [];
      var i, stop := 0, false;
      while i < |ticks| && !stop
        invariant 0 <= i <= |ticks| && |oks| == i && repo.tx == None
        invariant forall k | i <= k < |ticks| :: repo.now <= ticks[k].0
        invariant SweepTrace(vs, oks) && vs[i] == View() && TimesOf(vs, oks, ticks)
        invariant vs[0].table == old(repo.table) && vs[0].folders == old(storage.folders)
        invariant forall k | 0 <= k < i :: ticks[k].1 == NO_SWEEP_FAULT ==> oks[k]
        invariant stop ==> i > 0 && ticks[i - 1].1.cancelled
      {
        repo.AdvanceClock(ticks[i].0);
        ghost var start := View();
        var ok;
        ok, stop := Tick(ticks[i].1);
        TraceExtends(vs, oks, start.now, View(), ok);
        TimesExtend(vs, oks, ticks, View(), ok);
        vs, oks := Extended(vs, start.now, View()), oks + [ok];
        i := i + 1;
      }
    }
  }

  /** Tick `i` of the trace happens at the time of `ticks[i]`. */
  ghost predicate TimesOf(vs: seq<Vault>, oks: seq<bool>, ticks: seq<(int, SweepFaults)>) {
    && |vs| == |oks| + 1 && |oks| <= |ticks|
    && (forall i | 0 <= i < |oks| :: vs[i].now == ticks[i].0)
    && (oks != [] ==> vs[|oks|].now == ticks[|oks| - 1].0)
  }

  /** Ticks in a row: `vs[i]` is where tick i starts, `oks[i]` whether it committed; time may pass in between. */
  ghost predicate SweepTrace(vs: seq<Vault>, oks: seq<bool>) {
    && |vs| == |oks| + 1
    && (forall i | 0 <= i < |oks| :: Swept(vs[i], vs[i + 1], oks[i]) && vs[i].now <= vs[i + 1].now)
  }

  /** The trace with its last instant moved on to `now`, where a tick starts that ends at `w`. */
  ghost function Extended(vs: seq<Vault>, now: int, w: Vault): seq<Vault>
    requires vs != []
  {
    vs[..|vs| - 1] + [vs[|vs| - 1].(now := now), w]
  }

  lemma TimesExtend(vs: seq<Vault>, oks: seq<bool>, ticks: seq<(int, SweepFaults)>, w: Vault, ok: bool)
    requires TimesOf(vs, oks, ticks) && |oks| < |ticks| && w.now == ticks[|oks|].0
    ensures TimesOf(Extended(vs, w.now, w), oks + [ok], ticks)
  {
  }

  lemma TraceExtends(vs: seq<Vault>, oks: seq<bool>, now: int, w: Vault, ok: bool)
    requires SweepTrace(vs, oks) && vs[|oks|].now <= now <= w.now
    requires Swept(vs[|oks|].(now := now), w, ok)
    ensures SweepTrace(Extended(vs, now, w), oks + [ok])
    ensures Extended(vs, now, w)[0].table == vs[0].table && Extended(vs, now, w)[0].folders == vs[0].folders
  {
    var n := |oks|;
    if n > 0 {
      assert Swept(vs[n - 1], vs[n], oks[n - 1]);
      SweptIgnoresClock(vs[n - 1], vs[n], oks[n - 1], now);
    }
    var us := Extended(vs, now, w);
    forall i | 0 <= i <= n
      ensures Swept(us[i], us[i + 1], (oks + [ok])[i]) && us[i].now <= us[i + 1].now
    {
      if i < n {
        assert Swept(vs[i], vs[i + 1], oks[i]) && vs[i].now <= vs[i + 1].now;
      }
    }
  }

  lemma SweptIgnoresClock(v: Vault, w: Vault, ok: bool, now: int)
    requires Swept(v, w, ok)
    ensures Swept(v, w.(now := now), ok)
  {
    var batch, lost :| SweptBy(v, w, ok, batch, lost);
    assert SweptBy(v, w.(now := now), ok, batch, lost);
  }

  lemma WhatIsGone(v: Vault, w: Vault)
    requires Swept(v, w, true)
    ensures var gone := v.table.Keys - w.table.Keys;
      && w.table == v.table - gone && w.folders == v.folders - gone
      && (forall a | a in gone :: v.table[a].expiresAt < v.now)
      && |gone| <= 100
      && (|gone| == 100 || forall a | a in w.table :: w.table[a].expiresAt >= v.now)
  {
    var batch, lost :| SweptBy(v, w, true, batch, lost);
    KeysGone(v.table, batch);
    FullOrAll(v, batch);
  }

  lemma KeysGone(t: Table, batch: set<Alias>)
    requires batch <= t.Keys
    ensures t.Keys - (t - batch).Keys == batch
  {
  }

  lemma FullOrAll(v: Vault, batch: set<Alias>)
    requires batch <= Expired(v) && |batch| == AtMost(BATCH_LIMIT, |Expired(v)|)
    ensures |batch| <= 100
    ensures |batch| == 100 || forall a | a in v.table && a !in batch :: v.table[a].expiresAt >= v.now
  {
    if |batch| != 100 {
      SameSize(batch, Expired(v));
    }
  }

  lemma WhatIsKept(v: Vault, w: Vault)
    requires Swept(v, w, false)
    ensures w.table == v.table
    ensures forall a | a in w.folders :: a in v.folders && w.folders[a] == v.folders[a]
    ensures forall a | a in v.folders && a !in w.folders :: a in v.table && v.table[a].expiresAt < v.now
  {
    var batch, lost :| SweptBy(v, w, false, batch, lost);
  }

  lemma KeptAll(v: Vault)
    ensures Swept(v, v, false)
  {
    assert v.folders == v.folders - {};
    assert SweptBy(v, v, false, {}, {});
  }

  lemma {:induction false} BatchSize(s: seq<Alias>)
    requires forall i, j | 0 <= i < j < |s| :: s[i] != s[j]
    ensures |ToSet(s)| == |s|
    decreases |s|
  {
    if s != [] {
      var n := |s| - 1;
      BatchSize(s[..n]);
      assert ToSet(s) == ToSet(s[..n]) + {s[n]};
    }
  }

  /** What the repository returns is a full batch, or all there is. */
  lemma BatchFills(s: seq<Alias>, expired: set<Alias>)
    requires forall i, j | 0 <= i < j < |s| :: s[i] != s[j]
    requires |s| <= BATCH_LIMIT && (forall a | a in s :: a in expired)
    requires |s| == BATCH_LIMIT || forall a | a in expired :: a in s
    ensures ToSet(s) <= expired && |ToSet(s)| == AtMost(BATCH_LIMIT, |expired|)
  {
    BatchSize(s);
    if |s| < BATCH_LIMIT {
      assert ToSet(s) == expired;
    } else {
      SubsetSize(ToSet(s), expired);
    }
  }

  lemma {:induction false} SubsetSize(x: set<Alias>, y: set<Alias>)
    requires x <= y
    ensures |x| <= |y|
    decreases |x|
  {
    if x != {} {
      var a :| a in x;
      SubsetSize(x - {a}, y - {a});
    }
  }

  lemma RemoveNextFolder(f: map<Alias, Folder>, s: seq<Alias>, i: nat)
    requires i < |s|
    ensures f - ToSet(s[..i]) - {s[i]} == f - ToSet(s[..i + 1])
    ensures ToSet(s[..i]) <= ToSet(s[..i + 1]) <= ToSet(s)
  {
    assert s[..i + 1] == s[..i] + [s[i]];
    assert ToSet(s[..i + 1]) == ToSet(s[..i]) + {s[i]};
  }

  // ---------------------------------------------------------------- convergence

  /** Ticks in a row while no further row expires. */
  ghost predicate SweepRun(vs: seq<Vault>, oks: seq<bool>) {
    SweepTrace(vs, oks) && forall i | 0 <= i < |vs| :: Expired(vs[i]) <= Expired(vs[0])
  }

  function Successes(oks: seq<bool>): nat {
    if oks == [] then 0 else Successes(oks[..|oks| - 1]) + (if oks[|oks| - 1] then 1 else 0)
  }

  /** Where a run of ticks from `v` with `k` committed ones stands. */
  ghost predicate Progress(v: Vault, w: Vault, k: nat) {
    exists rows, blobs :: ProgressBy(v, w, k, rows, blobs)
  }

  ghost predicate ProgressBy(v: Vault, w: Vault, k: nat, rows: set<Alias>, blobs: set<Alias>) {
    && rows <= blobs <= Expired(v)
    && w.table == v.table - rows && w.folders == v.folders - blobs
    && |rows| == AtMost(BATCH_LIMIT * k, |Expired(v)|)
  }

  /** Rows that expired stay expired, and no new ones are allowed: what is left is what was not swept. */
  lemma StillExpired(v: Vault, w: Vault, rows: set<Alias>)
    requires w.table == v.table - rows && rows <= Expired(v)
    requires v.now <= w.now && Expired(w) <= Expired(v)
    ensures Expired(w) == Expired(v) - rows
    ensures |Expired(w)| == |Expired(v)| - |rows|
  {
  }

  lemma OkStep(v: Vault, w: Vault, w': Vault, k: nat,
               rows: set<Alias>, blobs: set<Alias>, batch: set<Alias>, lost: set<Alias>)
    requires ProgressBy(v, w, k, rows, blobs) && SweptBy(w, w', true, batch, lost)
    requires Expired(w) == Expired(v) - rows && |Expired(w)| == |Expired(v)| - |rows|
    ensures ProgressBy(v, w', k + 1, rows + batch, blobs + batch)
  {
    assert rows !! batch;
    assert |rows + batch| == |rows| + |batch|;
    assert v.table - rows - batch == v.table - (rows + batch);
    assert v.folders - blobs - batch == v.folders - (blobs + batch);
  }

  lemma FailStep(v: Vault, w: Vault, w': Vault, k: nat,
                 rows: set<Alias>, blobs: set<Alias>, batch: set<Alias>, lost: set<Alias>)
    requires ProgressBy(v, w, k, rows, blobs) && SweptBy(w, w', false, batch, lost)
    requires Expired(w) <= Expired(v)
    ensures ProgressBy(v, w', k, rows, blobs + lost)
  {
    assert v.folders - blobs - lost == v.folders - (blobs + lost);
  }

  lemma ProgressStep(v: Vault, w: Vault, w': Vault, k: nat, ok: bool)
    requires Progress(v, w, k) && Swept(w, w', ok)
    requires v.now <= w.now && Expired(w) <= Expired(v)
    ensures Progress(v, w', if ok then k + 1 else k)
  {
    var rows, blobs :| ProgressBy(v, w, k, rows, blobs);
    var batch, lost :| SweptBy(w, w', ok, batch, lost);
    if ok {
      StillExpired(v, w, rows);
      OkStep(v, w, w', k, rows, blobs, batch, lost);
    } else {
      FailStep(v, w, w', k, rows, blobs, batch, lost);
    }
  }

  lemma {:induction false} RunProgress(vs: seq<Vault>, oks: seq<bool>)
    requires SweepRun(vs, oks)
    ensures Progress(vs[0], vs[|oks|], Successes(oks)) && vs[0].now <= vs[|oks|].now
    decreases |oks|
  {
    var n := |oks|;
    if n == 0 {
      assert ProgressBy(vs[0], vs[0], 0, {}, {});
    } else {
      assert vs[..n][0] == vs[0] && vs[..n][n - 1] == vs[n - 1];
      RunProgress(vs[..n], oks[..n - 1]);
      ProgressStep(vs[0], vs[n - 1], vs[n], Successes(oks[..n - 1]), oks[n - 1]);
    }
  }

  /** Sweeps converge: as soon as the committed ticks suffice for the expired rows, a hundred each, exactly
      these rows and their blobs are gone, however many ticks failed in between. */
  lemma SweepsConverge(vs: seq<Vault>, oks: seq<bool>)
    requires SweepRun(vs, oks)
    requires Successes(oks) >= (|Expired(vs[0])| + 99) / 100
    ensures vs[|oks|].table == vs[0].table - Expired(vs[0])
    ensures vs[|oks|].folders == vs[0].folders - Expired(vs[0])
  {
    RunProgress(vs, oks);
    var v, w := vs[0], vs[|oks|];
    var rows, blobs :| ProgressBy(v, w, Successes(oks), rows, blobs);
    SameSize(rows, Expired(v));
  }

  /** Before that, each committed tick has removed a hundred rows, and live files are never touched. */
  lemma SweepsProgress(vs: seq<Vault>, oks: seq<bool>, a: Alias)
    requires SweepRun(vs, oks)
    ensures vs[|oks|].table.Keys <= vs[0].table.Keys
    ensures a in vs[0].table && Live(vs[0].table[a], vs[0].now) ==>
              && a in vs[|oks|].table && vs[|oks|].table[a] == vs[0].table[a]
              && (a in vs[0].folders ==> a in vs[|oks|].folders && vs[|oks|].folders[a] == vs[0].folders[a])
    ensures |vs[|oks|].table| == |vs[0].table| - AtMost(100 * Successes(oks), |Expired(vs[0])|)
  {
    RunProgress(vs, oks);
    var v, w := vs[0], vs[|oks|];
    var rows, blobs :| ProgressBy(v, w, Successes(oks), rows, blobs);
    assert w.table.Keys == v.table.Keys - rows;
    assert |w.table| == |v.table| - |rows|;
  }

  // ---------------------------------------------------------------- convergence of the loop

  function FaultFree(ticks: seq<(int, SweepFaults)>): nat {
    if ticks == [] then 0
    else FaultFree(ticks[..|ticks| - 1]) + (if ticks[|ticks| - 1].1 == NO_SWEEP_FAULT then 1 else 0)
  }

  /** No tick is cancelled, none finds a row expired that was not at the first, and those without faults can
      take all that were. */
  predicate EnoughTicks(ticks: seq<(int, SweepFaults)>, table: Table) {
    && ticks != []
    && var expired := SweepableAliases(table, ticks[0].0);
    && (forall i | 0 <= i < |ticks| :: !ticks[i].1.cancelled && SweepableAliases(table, ticks[i].0) <= expired)
    && FaultFree(ticks) >= (|expired| + BATCH_LIMIT - 1) / BATCH_LIMIT
  }

  lemma {:induction false} FaultFreeCount(ticks: seq<(int, SweepFaults)>)
    ensures FaultFree(ticks) == |set i | 0 <= i < |ticks| && ticks[i].1 == NO_SWEEP_FAULT|
    decreases |ticks|
  {
    if ticks != [] {
      var n := |ticks| - 1;
      FaultFreeCount(ticks[..n]);
      var before := set i | 0 <= i < n && ticks[..n][i].1 == NO_SWEEP_FAULT;
      assert (set i | 0 <= i < |ticks| && ticks[i].1 == NO_SWEEP_FAULT)
          == if ticks[n].1 == NO_SWEEP_FAULT then before + {n} else before;
    }
  }

  /** The condition on the ticks, with nothing but rows, times and numbers in it. */
  lemma EnoughInNumbers(ticks: seq<(int, SweepFaults)>, table: Table)
    requires ticks != []
    requires forall i | 0 <= i < |ticks| :: ticks[0].0 <= ticks[i].0
    ensures EnoughTicks(ticks, table) <==>
              && (forall i | 0 <= i < |ticks| :: !ticks[i].1.cancelled)
              && (forall i, a | 0 <= i < |ticks| && a in table && table[a].expiresAt < ticks[i].0 ::
                    table[a].expiresAt < ticks[0].0)
              && 100 * |set i | 0 <= i < |ticks| && ticks[i].1 == NO_SWEEP_FAULT|
                 >= |set a | a in table && table[a].expiresAt < ticks[0].0|
    ensures SweepableAliases(table, ticks[0].0) == set a | a in table && table[a].expiresAt < ticks[0].0
  {
    FaultFreeCount(ticks);
    assert SweepableAliases(table, ticks[0].0) == set a | a in table && table[a].expiresAt < ticks[0].0;
    var expired := SweepableAliases(table, ticks[0].0);
    forall i | 0 <= i < |ticks|
      ensures SweepableAliases(table, ticks[i].0) <= expired <==>
              forall a | a in table && table[a].expiresAt < ticks[i].0 :: table[a].expiresAt < ticks[0].0
    {
      if SweepableAliases(table, ticks[i].0) <= expired {
        forall a | a in table && table[a].expiresAt < ticks[i].0 ensures table[a].expiresAt < ticks[0].0 {
          assert a in SweepableAliases(table, ticks[i].0);
        }
      }
    }
  }

  ghost predicate Subtable(t: Table, u: Table) {
    forall a | a in t :: a in u && t[a] == u[a]
  }

  lemma {:induction false} TablesShrink(vs: seq<Vault>, oks: seq<bool>, i: nat)
    requires SweepTrace(vs, oks) && i < |vs|
    ensures Subtable(vs[i].table, vs[0].table)
    decreases i
  {
    if i > 0 {
      TablesShrink(vs, oks, i - 1);
      assert Swept(vs[i - 1], vs[i], oks[i - 1]);
    }
  }

  lemma {:induction false} FaultFreeSucceed(oks: seq<bool>, ticks: seq<(int, SweepFaults)>)
    requires |oks| == |ticks|
    requires forall i | 0 <= i < |oks| :: ticks[i].1 == NO_SWEEP_FAULT ==> oks[i]
    ensures Successes(oks) >= FaultFree(ticks)
    decreases |oks|
  {
    if oks != [] {
      FaultFreeSucceed(oks[..|oks| - 1], ticks[..|oks| - 1]);
    }
  }

  lemma NoNewExpiries(vs: seq<Vault>, oks: seq<bool>, ticks: seq<(int, SweepFaults)>)
    requires SweepTrace(vs, oks) && TimesOf(vs, oks, ticks) && |oks| == |ticks|
    requires EnoughTicks(ticks, vs[0].table)
    ensures SweepRun(vs, oks)
  {
    forall i | 0 <= i < |vs| ensures Expired(vs[i]) <= Expired(vs[0]) {
      TablesShrink(vs, oks, i);
      var tick := if i < |oks| then i else i - 1;
      assert vs[i].now == ticks[tick].0;
      assert SweepableAliases(vs[0].table, ticks[tick].0) <= Expired(vs[0]);
    }
  }

  lemma LoopConverges(vs: seq<Vault>, oks: seq<bool>, ticks: seq<(int, SweepFaults)>)
    requires SweepTrace(vs, oks) && TimesOf(vs, oks, ticks) && |oks| == |ticks|
    requires EnoughTicks(ticks, vs[0].table)
    requires forall i | 0 <= i < |oks| :: ticks[i].1 == NO_SWEEP_FAULT ==> oks[i]
    ensures vs[|oks|].table == vs[0].table - SweepableAliases(vs[0].table, ticks[0].0)
    ensures vs[|oks|].folders == vs[0].folders - SweepableAliases(vs[0].table, ticks[0].0)
  {
    NoNewExpiries(vs, oks, ticks);
    FaultFreeSucceed(oks, ticks);
    SweepsConverge(vs, oks);
  }

  lemma SameSize(x: set<Alias>, y: set<Alias>)
    requires x <= y && |x| == |y|
    ensures x == y
  {
    assert |y - x| == 0;
  }
}
