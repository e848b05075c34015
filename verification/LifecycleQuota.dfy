/** The upload quota over whole runs: the check reads the table before the transaction begins, so
    how far it can be overrun depends on how many uploads are between check and commit. */
module LifecycleQuota {
  import opened Entities
  import opened FilesTable
  import opened Access
  import opened Lifecycle
  import opened LifecycleInvariant
  import opened LifecycleSteps
  import opened QuotaUsage

  /** The sizes of the user's committed rows. */
  function Committed(s: State, user: int): map<Alias, int> {
    UserSizes(s.db.table, user)
  }

  /** The upload passed the quota check and has neither committed nor failed. */
  predicate IsPending(pc: Pc, user: int) {
    (pc.UpAdmitted? || pc.UpInserted? || pc.UpStored?) && pc.up.user == user
  }

  /** The sizes of the user's uploads between quota check and commit. */
  function Pending(s: State, user: int): map<Tid, int> {
    map t | t in s.procs && IsPending(s.procs[t], user) :: s.procs[t].up.size
  }

  function UsageOf(s: State, user: int): Usage {
    Usage(s.db.cfg, Committed(s, user), Pending(s, user))
  }

  ghost predicate WithinQuota(s: State, user: int, k: nat) {
    UsageOf(s, user).Within(k) && UsageOf(s, user).Fits()
  }

  /** The step, if it admits an upload of this user, does so without the admin role and for a file of at
      most `biggest` bytes. */
  ghost predicate PlainUpload(s: State, e: Event, user: int, biggest: int)
    requires Enabled(s, e)
  {
    e.Admit? && s.procs[e.t].up.user == user ==>
      !HasRole(s.procs[e.t].up.roles, ROLE_ADMIN) && s.procs[e.t].up.size <= biggest
  }

  /** Room enough in int64 for `k` times the bytes of a user and one more file. */
  predicate NoOverflow(cfg: Config, k: nat, biggest: int) {
    biggest <= MAX_INT64 && Times(k, LargerLimit(cfg) - 1) + biggest <= MAX_INT64
  }

  lemma AdmissionShape(s: State, e: Event, user: int)
    requires Enabled(s, e) && e.Admit? && s.procs[e.t].up.user == user
    ensures e.t !in Pending(s, user)
    ensures Pending(Step(s, e), user) == Pending(s, user)[e.t := s.procs[e.t].up.size]
    ensures Committed(Step(s, e), user) == Committed(s, user)
  {
  }

  /** What passing the check means for a plain upload when the sum does not overflow. */
  lemma PassedCheck(cfg: Config, stat: Stat, filesize: int, roles: seq<Role>)
    requires CheckUploadQuota(cfg, stat, filesize, roles).Ok? && !HasRole(roles, ROLE_ADMIN)
    requires InInt64(stat.size + filesize)
    ensures stat.count < cfg.maxUploadedFiles && stat.size + filesize < LargerLimit(cfg)
  {
  }

  /** The check itself: whatever else is in flight is below the larger limit file by file. */
  lemma AdmissionKeepsQuota(s: State, e: Event, user: int, k: nat, biggest: int)
    requires Enabled(s, e) && e.Admit? && s.procs[e.t].up.user == user && s.procs[e.t].up.size >= 0
    requires WithinQuota(s, user, k) && PlainUpload(s, e, user, biggest)
    requires NoOverflow(s.db.cfg, k, biggest)
    requires |Pending(Step(s, e), user)| <= k
    ensures WithinQuota(Step(s, e), user, k)
  {
    var up := s.procs[e.t].up;
    var u := UsageOf(s, user);
    AdmissionShape(s, e, user);
    NoOverflowAtCheck(u, k, up.size);
    PassedCheck(s.db.cfg, StatOf(s.db.table, user), up.size, up.roles);
    AdmissionKeeps(u, e.t, up.size, k);
    assert UsageOf(Step(s, e), user) == u.(pending := u.pending[e.t := up.size]);
  }

  lemma OneMoreRow(table: Table, a: Alias, row: Row, user: int)
    requires a !in table && row.owner == user
    ensures UserSizes(table[a := row], user) == UserSizes(table, user)[a := row.size]
  {
  }

  lemma PendingEnds(s: State, t: Tid, s': State, user: int)
    requires t in s.procs && IsPending(s.procs[t], user) && s'.procs == s.procs[t := Finished(true)]
    ensures Pending(s', user) == Pending(s, user) - {t}
  {
  }

  lemma CommitShape(s: State, t: Tid, user: int)
    requires Inv(s) && t in s.procs && s.procs[t].UpStored? && s.procs[t].up.user == user
    ensures var UpStored(up, a, hash, row) := s.procs[t];
      && a !in Committed(s, user) && t in Pending(s, user) && Pending(s, user)[t] == up.size
      && Committed(Advance(s, t), user) == Committed(s, user)[a := up.size]
      && Pending(Advance(s, t), user) == Pending(s, user) - {t}
  {
    var UpStored(up, a, hash, row) := s.procs[t];
    assert PcOk(s.db, t, s.procs[t]) && AliasOk(s.db, a);
    OneMoreRow(s.db.table, a, row, user);
    PendingEnds(s, t, CommitUpload(s, t, up, a, hash, row), user);
  }

  lemma CommitKeepsQuota(s: State, t: Tid, user: int, k: nat)
    requires Inv(s) && t in s.procs && s.procs[t].UpStored? && s.procs[t].up.user == user
    requires WithinQuota(s, user, k)
    ensures WithinQuota(Advance(s, t), user, k)
  {
    CommitShape(s, t, user);
    CommitKeeps(UsageOf(s, user), t, s.procs[t].alias, k);
  }

  lemma PendingWas(s: State, e: Event, user: int, t: Tid)
    requires Enabled(s, e)
    requires !(e.Admit? && s.procs[e.t].up.user == user)
    requires t in Step(s, e).procs && IsPending(Step(s, e).procs[t], user)
    ensures t in s.procs && IsPending(s.procs[t], user) && Step(s, e).procs[t].up.size == s.procs[t].up.size
  {
  }

  /** A step of one process whose upload, if it is still pending, was pending before. */
  lemma PendingShrinks(s: State, e: Event, user: int)
    requires Enabled(s, e)
    requires !(e.Admit? && s.procs[e.t].up.user == user)
    ensures Shrunk(Pending(Step(s, e), user), Pending(s, user))
  {
    var s' := Step(s, e);
    forall t | t in s'.procs && IsPending(s'.procs[t], user)
      ensures t in s.procs && IsPending(s.procs[t], user) && s'.procs[t].up.size == s.procs[t].up.size
    {
      PendingWas(s, e, user, t);
    }
  }

  lemma CommittedShrinks(s: State, e: Event, user: int)
    requires Inv(s) && Enabled(s, e)
    requires !(e.Go? && s.procs[e.t].UpStored? && s.procs[e.t].up.user == user)
    ensures Shrunk(Committed(Step(s, e), user), Committed(s, user))
  {
    if e.Go? {
      assert PcOk(s.db, e.t, s.procs[e.t]);
    }
  }

  lemma QuotaKept(s: State, e: Event, user: int, k: nat, biggest: int)
    requires Inv(s) && Enabled(s, e)
    requires WithinQuota(s, user, k) && PlainUpload(s, e, user, biggest)
    requires NoOverflow(s.db.cfg, k, biggest)
    requires |Pending(Step(s, e), user)| <= k
    ensures WithinQuota(Step(s, e), user, k)
  {
    if e.Admit? && s.procs[e.t].up.user == user {
      assert PcOk(s.db, e.t, s.procs[e.t]);
      AdmissionKeepsQuota(s, e, user, k, biggest);
    } else if e.Go? && s.procs[e.t].UpStored? && s.procs[e.t].up.user == user {
      CommitKeepsQuota(s, e.t, user, k);
    } else {
      PendingShrinks(s, e, user);
      CommittedShrinks(s, e, user);
      ShrinkingKeeps(UsageOf(s, user), UsageOf(Step(s, e), user), k);
    }
  }

  /** At most `k` uploads of the user are ever in flight, all plain ones. */
  ghost predicate AtMostInFlight(s0: State, es: seq<Event>, user: int, k: nat, biggest: int)
    requires IsRun(s0, es)
    decreases |es|
  {
    && |Pending(After(s0, es), user)| <= k
    && (es == [] ||
        (&& AtMostInFlight(s0, es[..|es| - 1], user, k, biggest)
         && PlainUpload(After(s0, es[..|es| - 1]), es[|es| - 1], user, biggest)))
  }

  lemma {:induction false} QuotaThroughRun(cfg: Config, now: int, es: seq<Event>, user: int, k: nat, biggest: int)
    requires IsRun(Init(cfg, now), es) && AtMostInFlight(Init(cfg, now), es, user, k, biggest)
    requires NoOverflow(cfg, k, biggest)
    ensures After(Init(cfg, now), es).db.cfg == cfg
    ensures WithinQuota(After(Init(cfg, now), es), user, k)
    decreases |es|
  {
    var s0 := Init(cfg, now);
    if es == [] {
      assert Committed(s0, user) == map[] && Pending(s0, user) == map[];
    } else {
      var before := es[..|es| - 1];
      QuotaThroughRun(cfg, now, before, user, k, biggest);
      RunKeepsInv(s0, before);
      QuotaKept(After(s0, before), es[|es| - 1], user, k, biggest);
    }
  }

  /** The user's committed files, and the uploads of the user that passed the check and have not ended. */
  lemma FilesAndUploads(s: State, user: int)
    ensures |Committed(s, user)| == |set a | a in s.db.table && s.db.table[a].owner == user|
    ensures |Pending(s, user)|
         == |set t | t in s.procs && (s.procs[t].UpAdmitted? || s.procs[t].UpInserted? || s.procs[t].UpStored?)
                     && s.procs[t].up.user == user|
    ensures Committed(s, user) == map a | a in s.db.table && s.db.table[a].owner == user :: s.db.table[a].size
  {
    assert Committed(s, user).Keys == set a | a in s.db.table && s.db.table[a].owner == user;
    assert Pending(s, user).Keys == set t |
        t in s.procs && (s.procs[t].UpAdmitted? || s.procs[t].UpInserted? || s.procs[t].UpStored?)
        && s.procs[t].up.user == user;
    assert |Committed(s, user)| == |Committed(s, user).Keys| && |Pending(s, user)| == |Pending(s, user).Keys|;
  }

  /** The bounds in numbers: files committed and on their way, and bytes. */
  ghost predicate InNumbers(s: State, user: int, k: nat) {
    var files := |set a | a in s.db.table && s.db.table[a].owner == user|;
    var coming := |set t |
      t in s.procs && (s.procs[t].UpAdmitted? || s.procs[t].UpInserted? || s.procs[t].UpStored?)
      && s.procs[t].up.user == user|;
    var bytes := Sum(map a | a in s.db.table && s.db.table[a].owner == user :: s.db.table[a].size);
    var cfg := s.db.cfg;
    var limit := if cfg.userLimit < cfg.vipLimit then cfg.vipLimit else cfg.userLimit;
    || files + coming == 0
    || (files + coming <= cfg.maxUploadedFiles - 1 + k && bytes <= k * (limit - 1))
  }

  lemma QuotaInNumbers(s: State, user: int, k: nat)
    requires WithinQuota(s, user, k)
    ensures InNumbers(s, user, k)
  {
    FilesAndUploads(s, user);
    var u := UsageOf(s, user);
    NothingIsNegative(u);
    TimesIsProduct(k, LargerLimit(s.db.cfg) - 1);
    assert Bounded(u.cfg, u.Count(), u.Bytes(), k);
  }

  /** The quota over every run with at most `k` uploads of a user in flight; with k = 1 the count never
      passes the cap and the sizes stay below the larger limit. */
  lemma QuotaOverRuns(cfg: Config, now: int, es: seq<Event>, user: int, k: nat, biggest: int)
    requires IsRun(Init(cfg, now), es) && AtMostInFlight(Init(cfg, now), es, user, k, biggest)
    requires NoOverflow(cfg, k, biggest)
    ensures After(Init(cfg, now), es).db.cfg == cfg
    ensures WithinQuota(After(Init(cfg, now), es), user, k)
    ensures InNumbers(After(Init(cfg, now), es), user, k)
  {
    hide InNumbers, WithinQuota, IsRun, AtMostInFlight;
    QuotaThroughRun(cfg, now, es, user, k, biggest);
    QuotaInNumbers(After(Init(cfg, now), es), user, k);
  }
}
