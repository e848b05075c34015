/** The bounds on an overrun quota are reached: for every configuration and every number of uploads in
    flight there is a run with that many files and bytes. */
module LifecycleQuotaTight {
  import opened Entities
  import opened FilesTable
  import opened Access
  import opened Lifecycle
  import opened LifecycleQuota
  import opened LifecycleSolo
  import opened QuotaUsage

  /** A run of one user with `k` uploads in flight at the end, of `big` bytes each. */
  datatype Plan = Plan(cfg: Config, user: int, k: nat, big: int) {
    predicate Sane() {
      && cfg.maxUploadedFiles >= 1 && k >= 1
      && 0 <= big < LargerLimit(cfg)
      && NoOverflow(cfg, k, big)
    }

    /** Files up to one short of the cap are empty and uploaded one after the other. */
    function Early(): nat
      requires Sane()
    {
      cfg.maxUploadedFiles - 1
    }

    function SizeOf(t: Tid): int
      requires Sane()
    {
      if t < Early() then 0 else big
    }

    function File(t: Tid): UploadCommand
      requires Sane()
    {
      UploadCommand([], "", SizeOf(t), 1, 1, "", user, [ROLE_USER, ROLE_VIP])
    }

    /** The bytes of the first `n` files. */
    function Total(n: nat): int
      requires Sane()
    {
      if n == 0 then 0 else Total(n - 1) + SizeOf(n - 1)
    }
  }

  lemma {:induction false} TotalIs(p: Plan, n: nat)
    requires p.Sane()
    ensures p.Total(n) == if n <= p.Early() then 0 else Times(n - p.Early(), p.big)
    decreases n
  {
    if n > 0 {
      TotalIs(p, n - 1);
    }
  }

  /** The alias of upload `t`: as many letters. */
  function Name(t: Tid): (a: Alias)
    ensures |a| == t
  {
    seq(t, _ => 'a')
  }

  /** Some run of the plan's user ends in `s`. */
  ghost predicate Runs(p: Plan, s: State) {
    var s0 := Init(p.cfg, 0);
    exists es :: IsRun(s0, es) && AtMostInFlight(s0, es, p.user, p.k, p.big) && After(s0, es) == s
  }

  lemma Continue(p: Plan, s: State, e: Event, s': State)
    requires Runs(p, s) && Enabled(s, e) && PlainUpload(s, e, p.user, p.big)
    requires Step(s, e) == s' && |Pending(s', p.user)| <= p.k
    ensures Runs(p, s')
  {
    var s0 := Init(p.cfg, 0);
    var es :| IsRun(s0, es) && AtMostInFlight(s0, es, p.user, p.k, p.big) && After(s0, es) == s;
    Snoc(s0, es, e);
    assert (es + [e])[..|es + [e]| - 1] == es;
    assert AtMostInFlight(s0, es + [e], p.user, p.k, p.big);
  }

  ghost predicate StageProcs(p: Plan, procs: map<Tid, Pc>, i: nat, j: nat)
    requires p.Sane() && i <= j
  {
    && (forall t: Tid :: t in procs <==> t < j)
    && (forall t | 0 <= t < i :: procs[t] == Finished(true))
    && (forall t | i <= t < j :: procs[t] == UpAdmitted(p.File(t), Name(t), ""))
  }

  /** Uploads below `i` are committed, those from `i` to `j - 1` admitted, and there are no others. */
  ghost predicate Stage(p: Plan, s: State, i: nat, j: nat)
    requires p.Sane()
  {
    && i <= j && s.db.cfg == p.cfg && s.locks == map[]
    && StageProcs(p, s.procs, i, j)
    && (forall a | a in s.db.drawn :: |a| < j)
    && (forall a | a in s.db.table :: |a| < i)
    && |Committed(s, p.user)| == i && Sum(Committed(s, p.user)) == p.Total(i)
  }

  lemma {:induction false} IntervalSize(x: set<Tid>, i: nat, j: nat)
    requires i <= j && forall t: Tid :: t in x <==> i <= t < j
    ensures |x| == j - i
    decreases j
  {
    if i < j {
      IntervalSize(x - {j - 1}, i, j - 1);
    }
  }

  lemma InFlight(p: Plan, s: State, i: nat, j: nat)
    requires p.Sane() && Stage(p, s, i, j)
    ensures |Pending(s, p.user)| == j - i
  {
    IntervalSize(Pending(s, p.user).Keys, i, j);
  }

  /** A step that admits nothing keeps the number in flight within the plan's. */
  lemma ContinueQuietly(p: Plan, s: State, e: Event, s': State)
    requires Runs(p, s) && Enabled(s, e) && !e.Admit? && Step(s, e) == s'
    requires |Pending(s, p.user)| <= p.k
    ensures Runs(p, s') && |Pending(s', p.user)| <= p.k
  {
    PendingShrinks(s, e, p.user);
    FewerKeys(Pending(s', p.user), Pending(s, p.user));
    Continue(p, s, e, s');
  }

  lemma {:induction false} FewerKeys(m: map<Tid, int>, n: map<Tid, int>)
    requires m.Keys <= n.Keys
    ensures |m| <= |n|
    decreases |m|
  {
    if m != map[] {
      var t :| t in m;
      FewerKeys(m - {t}, n - {t});
      assert (m - {t}).Keys == m.Keys - {t} && (n - {t}).Keys == n.Keys - {t};
    }
  }

  /** As long as the cap is not reached the check admits one more, whatever is in flight. */
  lemma CheckPasses(p: Plan, s: State, i: nat, j: nat)
    requires p.Sane() && Stage(p, s, i, j) && i <= p.Early()
    ensures CheckUploadQuota(p.cfg, StatOf(s.db.table, p.user), p.SizeOf(j), p.File(j).roles).Ok?
  {
    TotalIs(p, i);
  }

  /** The state after the admission of upload `j`. */
  function AdmittedTo(p: Plan, s: State, j: Tid): State
    requires p.Sane()
  {
    State(s.db.(drawn := s.db.drawn[Name(j) := j]), s.locks, s.procs[j := UpAdmitted(p.File(j), Name(j), "")])
  }

  lemma AdmittedIsStage(p: Plan, s: State, i: nat, j: nat)
    requires p.Sane() && Stage(p, s, i, j)
    ensures Stage(p, AdmittedTo(p, s, j), i, j + 1)
  {
    assert Committed(AdmittedTo(p, s, j), p.user) == Committed(s, p.user);
  }

  lemma AdmissionStep(p: Plan, s: State, i: nat, j: nat)
    requires p.Sane() && Stage(p, s, i, j) && i <= p.Early()
    ensures var s1 := Goto(s, j, UpStart(p.File(j)));
      && Enabled(s, Spawn(j, UpStart(p.File(j)))) && Step(s, Spawn(j, UpStart(p.File(j)))) == s1
      && Enabled(s1, Admit(j, Name(j), "")) && Step(s1, Admit(j, Name(j), "")) == AdmittedTo(p, s, j)
      && PlainUpload(s1, Admit(j, Name(j), ""), p.user, p.big)
  {
    CheckPasses(p, s, i, j);
    assert s.procs[j := UpStart(p.File(j))][j := UpAdmitted(p.File(j), Name(j), "")]
        == s.procs[j := UpAdmitted(p.File(j), Name(j), "")];
  }

  lemma AdmitOne(p: Plan, s: State, i: nat, j: nat) returns (s': State)
    requires p.Sane() && Runs(p, s) && Stage(p, s, i, j) && i <= p.Early() && j - i < p.k
    ensures Runs(p, s') && Stage(p, s', i, j + 1)
  {
    InFlight(p, s, i, j);
    AdmissionStep(p, s, i, j);
    ContinueQuietly(p, s, Spawn(j, UpStart(p.File(j))), Goto(s, j, UpStart(p.File(j))));
    s' := AdmittedTo(p, s, j);
    AdmittedIsStage(p, s, i, j);
    InFlight(p, s', i, j + 1);
    Continue(p, Goto(s, j, UpStart(p.File(j))), Admit(j, Name(j), ""), s');
  }

  /** The row of upload `i`. */
  function RowOf(p: Plan, s: State, i: Tid): Row
    requires p.Sane()
  {
    NewRow(p.File(i), "", s.db.now)
  }

  /** The state after the Commit of upload `i`. */
  function CommittedTo(p: Plan, s: State, i: Tid): State
    requires p.Sane()
  {
    var up, a, row := p.File(i), Name(i), RowOf(p, s, i);
    State(s.db.(table := s.db.table[a := row], blobs := s.db.blobs[a := up.bytes],
                uploads := s.db.uploads[a := Record(row, up, "")]),
          map[], s.procs[i := Finished(true)])
  }

  lemma ProcsCommit(p: Plan, procs: map<Tid, Pc>, i: nat, j: nat)
    requires p.Sane() && i < j && StageProcs(p, procs, i, j)
    ensures StageProcs(p, procs[i := Finished(true)], i + 1, j)
  {
  }

  lemma CommittedCounts(p: Plan, s: State, i: nat)
    requires p.Sane() && Name(i) !in s.db.table
    requires |Committed(s, p.user)| == i && Sum(Committed(s, p.user)) == p.Total(i)
    ensures var c := Committed(CommittedTo(p, s, i), p.user); |c| == i + 1 && Sum(c) == p.Total(i + 1)
  {
    var row := RowOf(p, s, i);
    OneMoreRow(s.db.table, Name(i), row, p.user);
    SumInsert(Committed(s, p.user), Name(i), row.size);
  }

  lemma CommittedIsStage(p: Plan, s: State, i: nat, j: nat)
    requires p.Sane() && Stage(p, s, i, j) && i < j
    ensures Stage(p, CommittedTo(p, s, i), i + 1, j)
  {
    CommittedCounts(p, s, i);
    ProcsCommit(p, s.procs, i, j);
  }

  /** The state after the INSERT of upload `i`, and after its storage call. */
  function InsertedTo(p: Plan, s: State, i: Tid): State
    requires p.Sane()
  {
    State(s.db, map[Name(i) := i], s.procs[i := UpInserted(p.File(i), Name(i), "", RowOf(p, s, i))])
  }

  function StoredTo(p: Plan, s: State, i: Tid): State
    requires p.Sane()
  {
    State(s.db.(blobs := s.db.blobs[Name(i) := p.File(i).bytes]), map[Name(i) := i],
          s.procs[i := UpStored(p.File(i), Name(i), "", RowOf(p, s, i))])
  }

  lemma InsertStep(p: Plan, s: State, i: nat, j: nat)
    requires p.Sane() && Stage(p, s, i, j) && i < j
    ensures CanGo(s, i) && Advance(s, i) == InsertedTo(p, s, i)
  {
    assert s.procs[i] == UpAdmitted(p.File(i), Name(i), "");
    assert s.locks[Name(i) := i] == map[Name(i) := i];
  }

  lemma StoreStep(p: Plan, s: State, i: nat)
    requires p.Sane()
    ensures var s1 := InsertedTo(p, s, i); i in s1.procs && CanGo(s1, i) && Advance(s1, i) == StoredTo(p, s, i)
  {
    var stored := UpStored(p.File(i), Name(i), "", RowOf(p, s, i));
    assert InsertedTo(p, s, i).procs[i := stored] == s.procs[i := stored];
  }

  lemma CommitStep(p: Plan, s: State, i: nat)
    requires p.Sane()
    ensures var s2 := StoredTo(p, s, i); i in s2.procs && CanGo(s2, i) && Advance(s2, i) == CommittedTo(p, s, i)
  {
    assert StoredTo(p, s, i).procs[i := Finished(true)] == s.procs[i := Finished(true)];
  }

  lemma CommitOldest(p: Plan, s: State, i: nat, j: nat) returns (s': State)
    requires p.Sane() && Runs(p, s) && Stage(p, s, i, j) && i < j <= i + p.k
    ensures Runs(p, s') && Stage(p, s', i + 1, j)
  {
    InFlight(p, s, i, j);
    var s1, s2 := InsertedTo(p, s, i), StoredTo(p, s, i);
    InsertStep(p, s, i, j);
    ContinueQuietly(p, s, Go(i), s1);
    StoreStep(p, s, i);
    ContinueQuietly(p, s1, Go(i), s2);
    CommitStep(p, s, i);
    s' := CommittedTo(p, s, i);
    ContinueQuietly(p, s2, Go(i), s');
    CommittedIsStage(p, s, i, j);
  }

  lemma NothingYet(p: Plan)
    requires p.Sane()
    ensures Runs(p, Init(p.cfg, 0)) && Stage(p, Init(p.cfg, 0), 0, 0)
  {
    var s := Init(p.cfg, 0);
    assert Committed(s, p.user) == map[] && Pending(s, p.user) == map[];
    assert IsRun(s, []) && After(s, []) == s && AtMostInFlight(s, [], p.user, p.k, p.big);
  }

  /** The stages the run goes through: early uploads one by one, then `k` admissions, then `k` Commits. */
  predicate OnTheWay(p: Plan, i: nat, j: nat)
    requires p.Sane()
  {
    || (i <= p.Early() && i <= j <= i + 1)
    || (i == p.Early() <= j <= p.Early() + p.k)
    || (p.Early() <= i <= j == p.Early() + p.k)
  }

  lemma {:induction false} ToStage(p: Plan, i: nat, j: nat) returns (s: State)
    requires p.Sane() && OnTheWay(p, i, j)
    ensures Runs(p, s) && Stage(p, s, i, j)
    decreases i + j
  {
    hide Runs, Stage;
    if j == 0 {
      s := Init(p.cfg, 0);
      NothingYet(p);
    } else if i <= p.Early() && i < j {
      s := ToStage(p, i, j - 1);
      s := AdmitOne(p, s, i, j - 1);
    } else {
      s := ToStage(p, i - 1, j);
      s := CommitOldest(p, s, i - 1, j);
    }
  }

  ghost predicate QuotaRun(cfg: Config, now: int, es: seq<Event>, user: int, k: nat, biggest: int) {
    && IsRun(Init(cfg, now), es)
    && AtMostInFlight(Init(cfg, now), es, user, k, biggest)
    && NoOverflow(cfg, k, biggest)
  }

  lemma AllCommitted(p: Plan, s: State)
    requires p.Sane() && Stage(p, s, p.Early() + p.k, p.Early() + p.k)
    ensures |Committed(s, p.user)| == p.cfg.maxUploadedFiles - 1 + p.k
    ensures Sum(Committed(s, p.user)) == Times(p.k, p.big)
  {
    TotalIs(p, p.Early() + p.k);
  }

  lemma RunTo(p: Plan, s: State) returns (es: seq<Event>)
    requires p.Sane() && Runs(p, s)
    ensures QuotaRun(p.cfg, 0, es, p.user, p.k, p.big) && After(Init(p.cfg, 0), es) == s
  {
    var s0 := Init(p.cfg, 0);
    es :| IsRun(s0, es) && AtMostInFlight(s0, es, p.user, p.k, p.big) && After(s0, es) == s;
  }

  /** Both bounds are tight: for every cap, every limit and every number `k` of uploads in flight a run ends
      with k - 1 committed files more than the cap, the last k of them as big as wanted below the limit. */
  lemma QuotaIsTight(p: Plan) returns (es: seq<Event>)
    requires p.Sane()
    ensures QuotaRun(p.cfg, 0, es, p.user, p.k, p.big)
    ensures |Committed(After(Init(p.cfg, 0), es), p.user)| == p.cfg.maxUploadedFiles - 1 + p.k
    ensures Sum(Committed(After(Init(p.cfg, 0), es), p.user)) == Times(p.k, p.big)
  {
    hide Runs, Stage, AtMostInFlight;
    var s := ToStage(p, p.Early() + p.k, p.Early() + p.k);
    AllCommitted(p, s);
    es := RunTo(p, s);
  }

  // ---------------------------------------------------------------- exactly one in flight

  ghost predicate CapAlwaysKept(cfg: Config, k: nat) {
    forall now, es, user, biggest | QuotaRun(cfg, now, es, user, k, biggest) ::
      |Committed(After(Init(cfg, now), es), user)| <= cfg.maxUploadedFiles
  }

  ghost predicate LimitAlwaysKept(cfg: Config, k: nat) {
    forall now, es, user, biggest | QuotaRun(cfg, now, es, user, k, biggest) ::
      Sum(Committed(After(Init(cfg, now), es), user)) < LargerLimit(cfg)
  }

  lemma OneInFlightKeepsBoth(cfg: Config, now: int, es: seq<Event>, user: int, biggest: int)
    requires QuotaRun(cfg, now, es, user, 1, biggest) && cfg.maxUploadedFiles >= 1 && LargerLimit(cfg) >= 1
    ensures |Committed(After(Init(cfg, now), es), user)| <= cfg.maxUploadedFiles
    ensures Sum(Committed(After(Init(cfg, now), es), user)) < LargerLimit(cfg)
  {
    QuotaOverRuns(cfg, now, es, user, 1, biggest);
    OneFits(UsageOf(After(Init(cfg, now), es), user));
  }

  /** Under every configuration that admits a file, and short of overflow, the cap holds over all runs with
      at most `k` uploads of a user in flight exactly for k = 1. */
  lemma CapHoldsIffOneInFlight(cfg: Config, k: nat)
    requires cfg.maxUploadedFiles >= 1 && LargerLimit(cfg) >= 1 && k >= 1 && NoOverflow(cfg, k, 0)
    ensures CapAlwaysKept(cfg, k) <==> k == 1
  {
    if k == 1 {
      forall now, es, user, biggest | QuotaRun(cfg, now, es, user, 1, biggest)
        ensures |Committed(After(Init(cfg, now), es), user)| <= cfg.maxUploadedFiles
      {
        OneInFlightKeepsBoth(cfg, now, es, user, biggest);
      }
    } else {
      var es := QuotaIsTight(Plan(cfg, 0, k, 0));
    }
  }

  /** So does the size limit, where it leaves room for a byte. */
  lemma LimitHoldsIffOneInFlight(cfg: Config, k: nat)
    requires cfg.maxUploadedFiles >= 1 && LargerLimit(cfg) >= 2 && k >= 1
    requires NoOverflow(cfg, k, LargerLimit(cfg) - 1)
    ensures LimitAlwaysKept(cfg, k) <==> k == 1
  {
    if k == 1 {
      forall now, es, user, biggest | QuotaRun(cfg, now, es, user, 1, biggest)
        ensures Sum(Committed(After(Init(cfg, now), es), user)) < LargerLimit(cfg)
      {
        OneInFlightKeepsBoth(cfg, now, es, user, biggest);
      }
    } else {
      var most := LargerLimit(cfg) - 1;
      var es := QuotaIsTight(Plan(cfg, 0, k, most));
      TimesGrows(2, k, most);
      assert Times(2, most) == Times(1, most) + most && Times(1, most) == Times(0, most) + most;
    }
  }
}
