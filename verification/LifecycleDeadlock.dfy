/** Who waits for whose lock: requests wait holding nothing, so that only sweeps can wait in a circle, and
    two of them can. */
module LifecycleDeadlock {
  import opened Entities
  import opened FilesTable
  import opened Access
  import opened Lifecycle
  import opened LifecycleInvariant
  import opened LifecycleSteps
  import opened LifecycleSolo

  /** The statement the process is about to run needs the lock on `a`, which it does not hold. */
  predicate Needs(s: State, t: Tid, a: Alias) {
    && t in s.procs
    && match s.procs[t]
       case UpAdmitted(_, b, _) => b == a
       case DnRead(h, _, _) => h.alias == a && a in s.db.table
       case RmDeleting(b, _, _, delAt) => b == a && HasLive(s.db.table, a, delAt)
       case SwScanning(at, batch) => a in SweepableAliases(s.db.table, at) - batch && |batch| < BATCH_LIMIT
       case _ => false
  }

  ghost predicate WaitsFor(s: State, t: Tid, u: Tid) {
    exists a :: Needs(s, t, a) && a in s.locks && s.locks[a] == u
  }

  /** The process after the one at position `i`; after the last comes the first. */
  function Next(ts: seq<Tid>, i: nat): Tid
    requires i < |ts|
  {
    if i + 1 == |ts| then ts[0] else ts[i + 1]
  }

  ghost predicate WaitsForNext(s: State, ts: seq<Tid>, i: nat)
    requires i < |ts|
  {
    WaitsFor(s, ts[i], Next(ts, i))
  }

  /** Each process waits for the next, and the last for the first. */
  ghost predicate Circle(s: State, ts: seq<Tid>) {
    ts != [] && forall i | 0 <= i < |ts| :: WaitsForNext(s, ts, i)
  }

  /** A needed lock that is taken does hold the process up: a request cannot go on, a sweep can neither take
      the row nor, as long as the row is there, end its scan. */
  lemma WaitersWait(s: State, t: Tid, a: Alias)
    requires Needs(s, t, a) && a in s.locks
    ensures !CanGo(s, t) && !Enabled(s, Pick(t, a))
  {
    if s.procs[t].SwScanning? {
      assert a in SweepableAliases(s.db.table, s.procs[t].at) && a !in s.procs[t].batch;
    }
  }

  /** And nothing but a needed lock holds a request up whose statement would otherwise succeed. */
  lemma OnlyLocksHoldUp(s: State, t: Tid)
    requires t in s.procs && !CanGo(s, t)
    ensures s.procs[t].UpAdmitted? && s.procs[t].alias !in s.db.table ==>
              Needs(s, t, s.procs[t].alias) && s.procs[t].alias in s.locks
    ensures s.procs[t].DnRead? ==> Needs(s, t, s.procs[t].h.alias) && s.procs[t].h.alias in s.locks
    ensures s.procs[t].RmDeleting? ==>
              var a := s.procs[t].alias;
              a in s.db.table && s.db.table[a].expiresAt > s.procs[t].delAt ==> Needs(s, t, a) && a in s.locks
  {
  }

  /** Whoever waits and is waited for is a sweep at its scan, and not waiting for itself. */
  lemma WaitingHolders(s: State, t: Tid, u: Tid, v: Tid)
    requires Reachable(s) && WaitsFor(s, t, u) && WaitsFor(s, u, v)
    ensures u in s.procs && s.procs[u].SwScanning? && u != v
  {
    ReachableHasInv(s);
    var a :| Needs(s, t, a) && a in s.locks && s.locks[a] == u;
    var b :| Needs(s, u, b) && b in s.locks && s.locks[b] == v;
    assert a in Held(PcOf(s, u)) && b in Held(PcOf(s, v));
  }

  /** A process in a circle waits and is waited for. */
  lemma InCircle(s: State, ts: seq<Tid>, i: nat)
    requires Reachable(s) && Circle(s, ts) && i < |ts|
    ensures ts[i] in s.procs && s.procs[ts[i]].SwScanning? && ts[i] != Next(ts, i)
  {
    hide Reachable, WaitsFor;
    var before := if i == 0 then |ts| - 1 else i - 1;
    assert Next(ts, before) == ts[i];
    assert WaitsForNext(s, ts, before) && WaitsForNext(s, ts, i);
    WaitingHolders(s, ts[before], ts[i], Next(ts, i));
  }

  lemma CircleIsOfSweeps(s: State, ts: seq<Tid>)
    requires Reachable(s) && Circle(s, ts)
    ensures |ts| >= 2 && ts[0] != ts[1]
    ensures forall i | 0 <= i < |ts| :: ts[i] in s.procs && s.procs[ts[i]].SwScanning?
  {
    hide Reachable, WaitsForNext;
    forall i | 0 <= i < |ts| ensures ts[i] in s.procs && s.procs[ts[i]].SwScanning? {
      InCircle(s, ts, i);
    }
    InCircle(s, ts, 0);
  }

  ghost function Scanning(s: State): set<Tid> {
    set t | t in s.procs && s.procs[t].SwScanning?
  }

  lemma TwoScanning(s: State, t: Tid, u: Tid)
    requires t != u && {t, u} <= Scanning(s)
    ensures |Scanning(s)| >= 2
  {
    assert |Scanning(s)| == 2 + |Scanning(s) - {t, u}| by {
      assert Scanning(s) == {t, u} + (Scanning(s) - {t, u});
    }
  }

  // ---------------------------------------------------------------- two sweeps

  const PAIR: Config := Config(2, 1, 1, (hash: string, password: string) => false)

  function Brief(): UploadCommand {
    UploadCommand([], "f", 0, 1, 1, "", 7, [ROLE_USER])
  }

  /** Two files that expire at time 1, by processes 0 and 1. */
  lemma TwoFiles() returns (s: State)
    ensures Reach(Init(PAIR, 0), s) && s.locks == map[] && s.db.now == 0 && s.procs.Keys == {0, 1}
    ensures s.db.table == map["a" := NewRow(Brief(), "", 0), "b" := NewRow(Brief(), "", 0)]
    ensures forall t | t in s.procs :: s.procs[t] == Finished(true)
  {
    var s0 := Init(PAIR, 0);
    assert IsRun(s0, []) && After(s0, []) == s0;
    assert UserSizes(s0.db.table, 7) == map[];
    Stay(s0, 0);
    SoloUpload(s0, s0, 0, Brief(), "a", "");
    var s1 := With(s0, 0, Finished(true), map[], UploadedTo(s0.db, 0, Brief(), "a", ""));
    ReachAlone(s0, s0, s1, 0);
    assert UserSizes(s1.db.table, 7) == map["a" := 0];
    SumInsert(map[], "a", 0);
    assert map[]["a" := 0] == map["a" := 0];
    Stay(s1, 1);
    SoloUpload(s1, s1, 1, Brief(), "b", "");
    s := With(s1, 1, Finished(true), map[], UploadedTo(s1.db, 1, Brief(), "b", ""));
    ReachAlone(s0, s1, s, 1);
  }

  /** Sweep `t` begins and takes one row. */
  lemma BeginSweep(s0: State, s: State, t: Tid, a: Alias) returns (s': State)
    requires Reach(s0, s) && t !in s.procs
    requires a in SweepableAliases(s.db.table, s.db.now) && a !in s.locks
    ensures Reach(s0, s') && s'.db == s.db && s'.locks == s.locks[a := t]
    ensures s'.procs == s.procs[t := SwScanning(s.db.now, {a})]
  {
    var s1 := Goto(s, t, SwScanning(s.db.now, {}));
    ReachStep(s0, s, Spawn(t, SwScanning(s.db.now, {})), s1);
    s' := Goto(s1, t, SwScanning(s.db.now, {} + {a})).(locks := s.locks[a := t]);
    ReachStep(s0, s1, Pick(t, a), s');
    assert {} + {a} == {a};
  }

  lemma TwoSweepsScan() returns (s: State)
    ensures Reachable(s) && s.locks == map["a" := 2, "b" := 3]
    ensures s.procs.Keys == {0, 1, 2, 3} && s.procs[0] == s.procs[1] == Finished(true)
    ensures s.procs[2] == SwScanning(2, {"a"}) && s.procs[3] == SwScanning(2, {"b"})
    ensures SweepableAliases(s.db.table, 2) == {"a", "b"}
  {
    hide Reach;
    var s0 := Init(PAIR, 0);
    var u := TwoFiles();
    var v := u.(db := u.db.(now := 2));
    ReachStep(s0, u, Tick(2), v);
    assert SweepableAliases(v.db.table, 2) == {"a", "b"};
    var w := BeginSweep(s0, v, 2, "a");
    s := BeginSweep(s0, w, 3, "b");
    FromInit(s);
  }

  lemma FromInit(s: State)
    requires Reach(Init(PAIR, 0), s)
    ensures Reachable(s)
  {
  }

  /** Two sweeps that scan in opposite orders wait for each other. */
  lemma TwoSweepsLock() returns (s: State)
    ensures Reachable(s) && Circle(s, [2, 3]) && Scanning(s) == {2, 3}
  {
    s := TwoSweepsScan();
    assert Needs(s, 2, "b") && Needs(s, 3, "a");
    assert WaitsFor(s, 2, 3) && WaitsFor(s, 3, 2);
    var ts := [2, 3];
    assert WaitsForNext(s, ts, 0) && WaitsForNext(s, ts, 1);
  }

  /** With at most `k` sweeps scanning, processes never wait in a circle. */
  ghost predicate NeverLocks(k: nat) {
    forall s, ts | Reachable(s) && |Scanning(s)| <= k :: !Circle(s, ts)
  }

  /** Exactly with one worker, or none, is there no deadlock, however many requests there are. */
  lemma NoDeadlockIffOneSweep(k: nat)
    ensures NeverLocks(k) <==> k <= 1
  {
    hide Reachable, Circle;
    if k <= 1 {
      forall s, ts | Reachable(s) && |Scanning(s)| <= k ensures !Circle(s, ts) {
        if Circle(s, ts) {
          CircleIsOfSweeps(s, ts);
          TwoScanning(s, ts[0], ts[1]);
        }
      }
    } else {
      var s := TwoSweepsLock();
      assert |Scanning(s)| == 2;
    }
  }
}
