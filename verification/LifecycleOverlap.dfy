/** Download limits when decrements of an alias do overlap: which hold, by how many may be under way at
    a time, and by how much the others are passed. */
module LifecycleOverlap {
  import opened Entities
  import opened FilesTable
  import opened Access
  import opened Lifecycle
  import opened LifecycleSafety
  import opened LifecycleSolo
  import opened LifecycleDownloads

  // ---------------------------------------------------------------- how many are under way

  /** The decrements of `a` under way. */
  ghost function Windows(s: State, a: Alias): set<Tid> {
    set t | t in s.procs && InWindow(s.procs[t], a)
  }

  /** At most `k` decrements of `a` are ever under way. */
  ghost predicate Narrow(s0: State, es: seq<Event>, a: Alias, k: nat)
    requires IsRun(s0, es)
    decreases |es|
  {
    |Windows(After(s0, es), a)| <= k && (es == [] || Narrow(s0, es[..|es| - 1], a, k))
  }

  /** Some such run leads from `s0` to `s`. */
  ghost predicate ReachIn(s0: State, s: State, a: Alias, k: nat) {
    exists es :: IsRun(s0, es) && After(s0, es) == s && Narrow(s0, es, a, k)
  }

  lemma {:induction false} SubsetSize(x: set<Tid>, y: set<Tid>)
    requires x <= y
    ensures |x| <= |y|
    decreases |x|
  {
    if x != {} {
      var e :| e in x;
      SubsetSize(x - {e}, y - {e});
    }
  }

  lemma ReachInStep(s0: State, s: State, e: Event, s': State, a: Alias, k: nat)
    requires ReachIn(s0, s, a, k) && Enabled(s, e) && Step(s, e) == s' && |Windows(s', a)| <= k
    ensures ReachIn(s0, s', a, k)
  {
    var es :| IsRun(s0, es) && After(s0, es) == s && Narrow(s0, es, a, k);
    Snoc(s0, es, e);
    assert (es + [e])[..|es + [e]| - 1] == es;
    assert Narrow(s0, es + [e], a, k);
  }

  lemma OthersStand(s: State, e: Event, t: Tid, u: Tid)
    requires Enabled(s, e) && !e.Tick? && e.t == t != u
    ensures (u in Step(s, e).procs <==> u in s.procs) && (u in s.procs ==> Step(s, e).procs[u] == s.procs[u])
  {
  }

  lemma {:induction false} WindowsOfOthers(s: State, es: seq<Event>, t: Tid, a: Alias)
    requires IsRun(s, es) && Only(es, t)
    ensures Windows(After(s, es), a) - {t} == Windows(s, a) - {t}
    decreases |es|
  {
    if es != [] {
      var before := es[..|es| - 1];
      WindowsOfOthers(s, before, t, a);
      forall u | u != t ensures u in Windows(After(s, es), a) <==> u in Windows(After(s, before), a) {
        OthersStand(After(s, before), es[|es| - 1], t, u);
      }
    }
  }

  lemma {:induction false} RunOnIn(s0: State, s: State, es: seq<Event>, t: Tid, a: Alias, k: nat)
    requires ReachIn(s0, s, a, k) && IsRun(s, es) && Only(es, t)
    requires |Windows(s, a) - {t}| < k
    ensures ReachIn(s0, After(s, es), a, k)
    decreases |es|
  {
    if es != [] {
      RunOnIn(s0, s, es[..|es| - 1], t, a, k);
      WindowsOfOthers(s, es, t, a);
      SubsetSize(Windows(After(s, es), a), (Windows(s, a) - {t}) + {t});
      ReachInStep(s0, After(s, es[..|es| - 1]), es[|es| - 1], After(s, es), a, k);
    }
  }

  /** A process alone adds one decrement at most. */
  lemma ReachInAlone(s0: State, s: State, s': State, t: Tid, a: Alias, k: nat)
    requires ReachIn(s0, s, a, k) && Alone(s, s', t) && |Windows(s, a) - {t}| < k
    ensures ReachIn(s0, s', a, k)
  {
    var es :| IsRun(s, es) && After(s, es) == s' && Only(es, t);
    RunOnIn(s0, s, es, t, a, k);
  }

  lemma {:induction false} NarrowIsWide(s0: State, es: seq<Event>, a: Alias, j: nat, k: nat)
    requires IsRun(s0, es) && Narrow(s0, es, a, j) && j <= k
    ensures Narrow(s0, es, a, k)
    decreases |es|
  {
    if es != [] {
      NarrowIsWide(s0, es[..|es| - 1], a, j, k);
    }
  }

  // ---------------------------------------------------------------- one at a time

  lemma SecondIsSeen(s: State, e: Event, a: Alias)
    requires Enabled(s, e) && |Windows(Step(s, e), a)| <= 1
    ensures NoOverlap(s, e, a)
  {
    if e.Go? && s.procs[e.t].DnOpened? && s.procs[e.t].h.alias == a {
      forall u | u in s.procs ensures !InWindow(s.procs[u], a) {
        if u != e.t && InWindow(s.procs[u], a) {
          OthersStand(s, e, e.t, u);
          SubsetSize({e.t, u}, Windows(Step(s, e), a));
        }
      }
    }
  }

  lemma {:induction false} OneAtATimeNeverOverlaps(s0: State, es: seq<Event>, a: Alias)
    requires IsRun(s0, es) && Narrow(s0, es, a, 1)
    ensures NeverOverlaps(s0, es, a)
    decreases |es|
  {
    if es != [] {
      OneAtATimeNeverOverlaps(s0, es[..|es| - 1], a);
      SecondIsSeen(After(s0, es[..|es| - 1]), es[|es| - 1], a);
    }
  }

  // ---------------------------------------------------------------- runs that pass the limit

  lemma WindowsWith(s: State, t: Tid, pc: Pc, locks: map<Alias, Tid>, db: Store, a: Alias)
    ensures Windows(With(s, t, pc, locks, db), a)
         == if InWindow(pc, a) then Windows(s, a) + {t} else Windows(s, a) - {t}
  {
  }

  /** Nothing is locked, no process numbered `n` or above exists, and `a` can be downloaded freely. */
  ghost predicate Ready(s: State, a: Alias, n: Tid) {
    && Downloadable(s.db, a, "") && s.locks == map[]
    && forall t | t in s.procs :: t < n
  }

  /** The configuration and the upload of the runs below: any limits that let one empty file in. */
  const ROOMY: Config := Config(1, 1, 1, (hash: string, password: string) => false)

  function OneFile(m: int): UploadCommand {
    UploadCommand([], "f", 0, m, 1, "", 7, [ROLE_USER])
  }

  /** A file with limit `m` under alias "a" that has been downloaded `m - l` times, one after the other. */
  ghost predicate Drained(s: State, n: Tid, m: int, l: int) {
    && Ready(s, "a", n) && s.db.table["a"].hash == "" && Windows(s, "a") == {}
    && "a" in s.db.uploads && s.db.uploads["a"].row.left == m
    && s.db.table["a"].left == l && s.db.table["a"].owner == 7
    && s.db.served["a"] == m - l
  }

  lemma UploadOne(m: int, k: nat) returns (s: State, n: Tid)
    requires 1 <= m <= 10000 && k >= 1
    ensures ReachIn(Init(ROOMY, 0), s, "a", k) && Drained(s, n, m, m)
  {
    hide ReachIn, Alone;
    var s0 := Init(ROOMY, 0);
    StartIn(k);
    Stay(s0, 0);
    assert UserSizes(s0.db.table, 7) == map[];
    SoloUpload(s0, s0, 0, OneFile(m), "a", "");
    s, n := With(s0, 0, Finished(true), map[], UploadedTo(s0.db, 0, OneFile(m), "a", "")), 1;
    ReachInAlone(s0, s0, s, 0, "a", k);
    WindowsWith(s0, 0, Finished(true), map[], UploadedTo(s0.db, 0, OneFile(m), "a", ""), "a");
  }

  lemma StartIn(k: nat)
    ensures var s0 := Init(ROOMY, 0); ReachIn(s0, s0, "a", k) && Windows(s0, "a") == {}
  {
    var s0 := Init(ROOMY, 0);
    assert Windows(s0, "a") == {};
    assert IsRun(s0, []) && After(s0, []) == s0 && Narrow(s0, [], "a", k);
  }

  /** One download after the other, down to `l`. */
  lemma {:induction false} DrainTo(m: int, l: int, k: nat) returns (s: State, n: Tid)
    requires 1 <= l <= m <= 10000 && k >= 1
    ensures ReachIn(Init(ROOMY, 0), s, "a", k) && Drained(s, n, m, l)
    decreases m - l
  {
    if l == m {
      s, n := UploadOne(m, k);
    } else {
      var before, t := DrainTo(m, l + 1, k);
      s := DownloadOne(before, t, m, l + 1, k);
      n := t + 1;
    }
  }

  lemma DownloadOne(s: State, n: Tid, m: int, l: int, k: nat) returns (s': State)
    requires 2 <= l && k >= 1 && ReachIn(Init(ROOMY, 0), s, "a", k) && Drained(s, n, m, l)
    ensures ReachIn(Init(ROOMY, 0), s', "a", k) && Drained(s', n + 1, m, l - 1)
  {
    Stay(s, n);
    SoloDownload(s, s, n, "a", "");
    s' := With(s, n, Finished(true), map[], Decremented(s.db, "a", l));
    ReachInAlone(Init(ROOMY, 0), s, s', n, "a", k);
    assert Windows(s', "a") == {};
  }

  /** Downloads `n` to `n + c - 1`, and no others, are under way and have read the counter at two. */
  ghost predicate Readers(s: State, n: Tid, c: nat) {
    && (forall t | n <= t < n + c ::
          t in s.procs && s.procs[t].DnRead? && s.procs[t].h.alias == "a" && s.procs[t].read == 2)
    && |Windows(s, "a")| == c
  }

  lemma ReadersCount(s: State, n: Tid, c: nat)
    requires Readers(s, n, c)
    ensures |Windows(s, "a")| == c
  {
  }

  /** One more download reads the counter. */
  lemma ReadToo(s: State, n: Tid, c: nat, k: nat) returns (s': State)
    requires ReachIn(Init(ROOMY, 0), s, "a", k) && c < k
    requires Ready(s, "a", n + c) && Readers(s, n, c) && s.db.table["a"].left == 2
    ensures ReachIn(Init(ROOMY, 0), s', "a", k) && s'.db == s.db
    ensures Ready(s', "a", n + c + 1) && Readers(s', n, c + 1)
  {
    hide ReachIn, Alone, Readers;
    var t := n + c;
    Stay(s, t);
    SoloRead(s, s, t, "a", "");
    var pc := DnRead(HandleOn(s.db, "a", ""), 2, s.db.now);
    s' := With(s, t, pc, s.locks, s.db);
    ReadersCount(s, n, c);
    assert t !in Windows(s, "a") && Windows(s, "a") - {t} == Windows(s, "a");
    ReachInAlone(Init(ROOMY, 0), s, s', t, "a", k);
    WindowsWith(s, t, pc, s.locks, s.db, "a");
    MoreReaders(s, s', n, c, pc);
  }

  lemma MoreReaders(s: State, s': State, n: Tid, c: nat, pc: Pc)
    requires Readers(s, n, c) && s'.procs == s.procs[n + c := pc] && n + c !in Windows(s, "a")
    requires pc.DnRead? && pc.h.alias == "a" && pc.read == 2
    requires Windows(s', "a") == Windows(s, "a") + {n + c}
    ensures Readers(s', n, c + 1)
  {
  }

  lemma {:induction false} ManyRead(s: State, n: Tid, c: nat, k: nat) returns (s': State)
    requires ReachIn(Init(ROOMY, 0), s, "a", k) && c <= k
    requires Ready(s, "a", n) && Windows(s, "a") == {} && s.db.table["a"].left == 2
    ensures ReachIn(Init(ROOMY, 0), s', "a", k) && s'.db == s.db
    ensures Ready(s', "a", n + c) && Readers(s', n, c)
    decreases c
  {
    s' := s;
    if c > 0 {
      s' := ManyRead(s, n, c - 1, k);
      s' := ReadToo(s', n, c - 1, k);
    }
  }

  /** What the writes leave alone. */
  ghost predicate StillThere(s: State, s': State, n: Tid) {
    && s'.locks == map[] && "a" in s.db.table && "a" in s'.db.table
    && s'.db.uploads == s.db.uploads && s'.db.blobs == s.db.blobs && s'.db.now == s.db.now && s'.db.cfg == s.db.cfg
    && s'.db.table["a"] == s.db.table["a"].(left := s'.db.table["a"].left)
    && ((forall t | t in s.procs :: t < n) ==> forall t | t in s'.procs :: t < n)
  }

  /** A download that has read two writes one and succeeds, even if the counter is one already. */
  lemma WriteToo(s: State, n: Tid, c: nat, end: Tid, k: nat) returns (s': State)
    requires ReachIn(Init(ROOMY, 0), s, "a", k) && s.locks == map[] && "a" in s.db.table
    requires Readers(s, n, c + 1) && c < k
    ensures ReachIn(Init(ROOMY, 0), s', "a", k) && Readers(s', n, c) && StillThere(s, s', end)
    ensures s'.db.table["a"].left == 1 && s'.db.served["a"] == s.db.served["a"] + 1
  {
    hide ReachIn, Alone;
    var t := n + c;
    assert s.procs[t := s.procs[t]] == s.procs;
    Stay(s, t);
    SoloWrite(s, s, t, s.procs[t].h, 2, s.procs[t].at);
    s' := With(s, t, Finished(true), map[], Decremented(s.db, "a", 2));
    assert t in Windows(s, "a");
    ReachInAlone(Init(ROOMY, 0), s, s', t, "a", k);
    WindowsWith(s, t, Finished(true), map[], Decremented(s.db, "a", 2), "a");
  }

  lemma {:induction false} ManyWrite(s: State, n: Tid, c: nat, end: Tid, k: nat) returns (s': State)
    requires ReachIn(Init(ROOMY, 0), s, "a", k) && s.locks == map[] && "a" in s.db.table
    requires Readers(s, n, c) && c <= k
    ensures ReachIn(Init(ROOMY, 0), s', "a", k) && Readers(s', n, 0) && StillThere(s, s', end)
    ensures s'.db.served["a"] == s.db.served["a"] + c
    ensures if c == 0 then s' == s else s'.db.table["a"].left == 1
    decreases c
  {
    s' := s;
    if c > 0 {
      s' := WriteToo(s, n, c - 1, end, k);
      s' := ManyWrite(s', n, c - 1, end, k);
    }
  }

  /** With a limit of two or more there is no bound on the downloads: any number `c` of them that all read
      the counter at two succeed, and so does one more, with never more than `c` under way. */
  lemma OverlapOverruns(m: int, c: nat) returns (s: State)
    requires 2 <= m <= 10000 && c >= 1
    ensures ReachIn(Init(ROOMY, 0), s, "a", c)
    ensures "a" in s.db.uploads && s.db.uploads["a"].row.left == m && s.db.served["a"] == m - 1 + c
  {
    var u, n := DrainTo(m, 2, c);
    var r := ManyRead(u, n, c, c);
    var w := ManyWrite(r, n, c, n + c, c);
    s := LastOne(w, n + c, c);
  }

  lemma LastOne(s: State, n: Tid, k: nat) returns (s': State)
    requires ReachIn(Init(ROOMY, 0), s, "a", k) && k >= 1
    requires Ready(s, "a", n) && |Windows(s, "a")| == 0 && s.db.table["a"].left == 1
    ensures ReachIn(Init(ROOMY, 0), s', "a", k)
    ensures s'.db.uploads == s.db.uploads && s'.db.served["a"] == s.db.served["a"] + 1
  {
    Stay(s, n);
    SoloDownload(s, s, n, "a", "");
    s' := With(s, n, Finished(true), map[], UsedUp(s.db, "a"));
    ReachInAlone(Init(ROOMY, 0), s, s', n, "a", k);
  }

  // ---------------------------------------------------------------- the limits that hold

  /** In the end state of the run an upload of `a` with limit `m` has been committed. */
  ghost predicate Uploaded(s: State, a: Alias, m: int) {
    a in s.db.uploads && s.db.uploads[a].row.left == m
  }

  /** A limit of `m` is respected over every run with at most `k` decrements of the alias under way. */
  ghost predicate LimitKept(m: int, k: nat) {
    forall cfg, now, es, a |
      IsRun(Init(cfg, now), es) && Narrow(Init(cfg, now), es, a, k) && Uploaded(After(Init(cfg, now), es), a, m) ::
      Downloads(Init(cfg, now), es, a) <= m
  }

  lemma TwoReadersOverrun(m: int, k: nat) returns (es: seq<Event>)
    requires 2 <= m <= 10000 && k >= 2
    ensures var s0 := Init(ROOMY, 0);
      IsRun(s0, es) && Narrow(s0, es, "a", k) && Uploaded(After(s0, es), "a", m) && Downloads(s0, es, "a") == m + 1
  {
    var s0 := Init(ROOMY, 0);
    var s := OverlapOverruns(m, 2);
    es :| IsRun(s0, es) && After(s0, es) == s && Narrow(s0, es, "a", 2);
    NarrowIsWide(s0, es, "a", 2, k);
    HistoryIsTrue(s0, es, "a");
  }

  /** The exact set of limits the code enforces, by the number of decrements that may overlap. */
  lemma LimitHoldsIffOneOrOneAtATime(m: int, k: nat)
    requires 1 <= m <= 10000 && k >= 1
    ensures LimitKept(m, k) <==> m == 1 || k == 1
  {
    if m == 1 || k == 1 {
      forall cfg, now, es, a |
        IsRun(Init(cfg, now), es) && Narrow(Init(cfg, now), es, a, k) && Uploaded(After(Init(cfg, now), es), a, m)
        ensures Downloads(Init(cfg, now), es, a) <= m
      {
        if m == 1 {
          RemovedAtMostOnceServedAtMostOnce(cfg, now, es, a);
        } else {
          OneAtATimeNeverOverlaps(Init(cfg, now), es, a);
          DownloadsAreConserved(cfg, now, es, a);
        }
      }
    } else {
      var es := TwoReadersOverrun(m, k);
    }
  }

  /** And when downloads interleave freely: only one. */
  lemma LimitHoldsInEveryInterleavingIffOne(m: int)
    requires 1 <= m <= 10000
    ensures (forall cfg, now, es, a |
               IsRun(Init(cfg, now), es) && Uploaded(After(Init(cfg, now), es), a, m) ::
               Downloads(Init(cfg, now), es, a) <= m)
            <==> m == 1
  {
    if m == 1 {
      forall cfg, now, es, a | IsRun(Init(cfg, now), es) && Uploaded(After(Init(cfg, now), es), a, m)
        ensures Downloads(Init(cfg, now), es, a) <= m
      {
        RemovedAtMostOnceServedAtMostOnce(cfg, now, es, a);
      }
    } else {
      var es := TwoReadersOverrun(m, 2);
    }
  }

  // ---------------------------------------------------------------- the named exception

  /** The named exception is real: an owner's delete whose Commit fails after the storage Delete leaves a
      live, unlocked row without a blob. */
  lemma FailedCommitLosesTheBlob() returns (s: State)
    ensures Reach(Init(ROOMY, 0), s)
    ensures HasLive(s.db.table, "a", s.db.now) && "a" !in s.db.blobs
    ensures s.locks == map[] && "a" in s.db.torn
  {
    var s0 := Init(ROOMY, 0);
    var u, n := UploadOne(1, 1);
    Stay(u, n);
    SoloDeleteUntilCommit(u, u, n, "a", 7, []);
    var d := With(u, n, RmBlobDeleted("a", 7, [], u.db.now), map["a" := n], u.db.(blobs := u.db.blobs - {"a"}));
    ReachAlone(s0, u, d, n);
    s := Abort(d, n, Clean);
    ReachStep(s0, d, Fail(n, Clean), s);
  }
}
