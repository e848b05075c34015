/** Who may do what: ownership, passwords, roles and upload quotas. */
module Access {
  import opened Entities
  import opened FilesTable

  /** `verify` stands for bcrypt's comparison of a hash with a password. */
  datatype Config = Config(
    maxUploadedFiles: int,
    userLimit: int,
    vipLimit: int,
    verify: (string, string) -> bool)

  datatype Stat = Stat(count: int, size: int)

  /** The usage the quota check sees: all rows of the user. */
  ghost function StatOf(table: Table, user: int): Stat {
    Stat(|UserSizes(table, user)|, Sum(UserSizes(table, user)))
  }

  datatype Limits = Limits(maxCount: int, maxSize: int)

  predicate HasRole(roles: seq<Role>, role: Role) {
    role in roles
  }

  predicate MayManage(owner: int, user: int, roles: seq<Role>) {
    HasRole(roles, ROLE_ADMIN) || owner == user
  }

  function CheckPassword(cfg: Config, hash: string, password: string): Result<(), Error> {
    if hash != "" && password == "" then Err(FilePasswordRequired)
    else if !cfg.verify(hash, password) && hash != "" then Err(FilePasswordInvalid)
    else Ok(())
  }

  function CheckUploadQuota(cfg: Config, stat: Stat, filesize: int, roles: seq<Role>): Result<(), Error> {
    if HasRole(roles, ROLE_ADMIN) then Ok(())
    else if stat.count >= cfg.maxUploadedFiles then Err(UploadLimitExceeded)
    else if HasRole(roles, ROLE_VIP) && Wrap64(stat.size + filesize) < cfg.vipLimit then Ok(())
    else if HasRole(roles, ROLE_USER) && Wrap64(stat.size + filesize) < cfg.userLimit then Ok(())
    else Err(FileSizeTooBig)
  }

  function UserLimits(cfg: Config, roles: seq<Role>): Limits {
    if HasRole(roles, ROLE_ADMIN) || HasRole(roles, ROLE_VIP) then
      Limits(cfg.maxUploadedFiles, cfg.vipLimit)
    else
      Limits(cfg.maxUploadedFiles, cfg.userLimit)
  }

  /** The larger of the two size limits. */
  function LargerLimit(cfg: Config): int {
    if cfg.userLimit < cfg.vipLimit then cfg.vipLimit else cfg.userLimit
  }

  // ---------------------------------------------------------------- what the quota check enforces

  /** A protected file opens to a matching non-empty password only, and asks for one or refuses the one it
      got; an open file opens to any. */
  lemma PasswordNeeded(cfg: Config, hash: string, password: string)
    ensures CheckPassword(cfg, hash, password) == Ok(()) <==>
              hash == "" || (password != "" && cfg.verify(hash, password))
    ensures CheckPassword(cfg, hash, password) == Err(FilePasswordRequired) <==> hash != "" && password == ""
    ensures CheckPassword(cfg, hash, password) == Err(FilePasswordInvalid) <==>
              hash != "" && password != "" && !cfg.verify(hash, password)
  {
  }

  /** Owners manage their files and admins all; no other role makes a difference. */
  lemma OwnersAndAdmins(owner: int, user: int, roles: seq<Role>, roles': seq<Role>)
    ensures MayManage(owner, user, roles) <==> owner == user || "admin" in roles
    ensures ("admin" in roles <==> "admin" in roles') ==>
              (MayManage(owner, user, roles) <==> MayManage(owner, user, roles'))
  {
  }

  /** Usage counts every row of the user, live or not, and no other: it starts at nothing, and a row adds
      one file and its size to its owner only. */
  lemma UsageAddsUp(table: Table, a: Alias, row: Row, user: int)
    requires a !in table
    ensures StatOf(map[], user) == Stat(0, 0)
    ensures var stat := StatOf(table, user);
      StatOf(table[a := row], user) == if row.owner == user then Stat(stat.count + 1, stat.size + row.size) else stat
  {
    assert UserSizes(map[], user) == map[];
    if row.owner == user {
      SumInsert(UserSizes(table, user), a, row.size);
      assert UserSizes(table[a := row], user) == UserSizes(table, user)[a := row.size];
    } else {
      assert UserSizes(table[a := row], user) == UserSizes(table, user);
    }
  }

  /** The check on every stat and file size, overflow included: who passes, and with which error the others
      fail. A sum beyond int64 wraps below any limit. */
  lemma QuotaExactly(cfg: Config, stat: Stat, filesize: int, roles: seq<Role>)
    requires 0 <= stat.size <= MAX_INT64 && 0 <= filesize <= MAX_INT64
    requires 0 <= cfg.userLimit <= MAX_INT64 && 0 <= cfg.vipLimit <= MAX_INT64
    ensures var total := stat.size + filesize;
      var checked := CheckUploadQuota(cfg, stat, filesize, roles);
      var fits := || ("vip" in roles && (total < cfg.vipLimit || total > 0x7FFF_FFFF_FFFF_FFFF))
                  || ("user" in roles && (total < cfg.userLimit || total > 0x7FFF_FFFF_FFFF_FFFF));
      && (checked == Ok(()) <==> "admin" in roles || (stat.count < cfg.maxUploadedFiles && fits))
      && (checked == Err(UploadLimitExceeded) <==> "admin" !in roles && stat.count >= cfg.maxUploadedFiles)
      && (checked == Err(FileSizeTooBig) <==> "admin" !in roles && stat.count < cfg.maxUploadedFiles && !fits)
  {
    WrapIsExactInRange(stat.size + filesize);
    assert stat.size + filesize > MAX_INT64 ==> Wrap64(stat.size + filesize) < 0;
  }

  /** More roles never hurt; less usage never hurts, short of overflow. */
  lemma QuotaIsMonotone(cfg: Config, stat: Stat, filesize: int, roles: seq<Role>,
                        stat': Stat, filesize': int, roles': seq<Role>)
    requires CheckUploadQuota(cfg, stat, filesize, roles).Ok?
    requires forall r | r in roles :: r in roles'
    requires stat'.count <= stat.count && 0 <= stat'.size <= stat.size && 0 <= filesize' <= filesize
    requires stat.size + filesize <= MAX_INT64
    ensures CheckUploadQuota(cfg, stat', filesize', roles').Ok?
  {
  }

  /** The result of the stat endpoint: usage and the limits reported for the user's roles. */
  datatype StatReport = StatReport(stat: Stat, maxCount: int, maxSize: int)

  function GetFilesStat(cfg: Config, stat: Stat, roles: seq<Role>): StatReport {
    var limits := UserLimits(cfg, roles);
    StatReport(stat, limits.maxCount, limits.maxSize)
  }

  /** The report is the usage with the limits of the best role; an admin, whom no limit binds, is shown those
      of a vip. */
  lemma ReportedLimits(cfg: Config, stat: Stat, roles: seq<Role>)
    ensures GetFilesStat(cfg, stat, roles).stat == stat
    ensures GetFilesStat(cfg, stat, roles).maxCount == cfg.maxUploadedFiles
    ensures "admin" in roles || "vip" in roles ==> GetFilesStat(cfg, stat, roles).maxSize == cfg.vipLimit
    ensures "admin" !in roles && "vip" !in roles ==> GetFilesStat(cfg, stat, roles).maxSize == cfg.userLimit
  {
  }

  /** For this usage and file, passing the check is the same as staying below the reported limits. */
  ghost predicate AgreesOn(cfg: Config, roles: seq<Role>, stat: Stat, filesize: int) {
    var report := GetFilesStat(cfg, stat, roles);
    CheckUploadQuota(cfg, stat, filesize, roles).Ok? <==>
      stat.count < report.maxCount && stat.size + filesize < report.maxSize
  }

  ghost predicate ReportedIsEnforced(cfg: Config, roles: seq<Role>) {
    forall stat: Stat, filesize: int |
      stat.count >= 0 && stat.size >= 0 && filesize >= 0 && stat.size + filesize <= MAX_INT64 ::
      AgreesOn(cfg, roles, stat, filesize)
  }

  /** What is reported is what is enforced, short of overflow, exactly for: no admin role, and - unless
      nobody may upload anything - either vip without a larger user limit beside it, or user. */
  lemma ReportedIsEnforcedExactly(cfg: Config, roles: seq<Role>)
    requires InInt64(cfg.userLimit) && InInt64(cfg.vipLimit)
    ensures ReportedIsEnforced(cfg, roles) <==>
      && "admin" !in roles
      && (|| cfg.maxUploadedFiles <= 0
          || cfg.userLimit <= 0
          || (if "vip" in roles then "user" in roles ==> cfg.userLimit <= cfg.vipLimit else "user" in roles))
  {
    var nobody := if cfg.maxUploadedFiles < 0 then 0 else cfg.maxUploadedFiles;
    assert HasRole(roles, ROLE_ADMIN) ==> !AgreesOn(cfg, roles, Stat(nobody, 0), 0);
    var full := if cfg.vipLimit < 0 then 0 else cfg.vipLimit;
    if !HasRole(roles, ROLE_ADMIN) && cfg.maxUploadedFiles > 0 && cfg.userLimit > 0 {
      if HasRole(roles, ROLE_VIP) {
        assert HasRole(roles, ROLE_USER) && cfg.userLimit > cfg.vipLimit ==>
            !AgreesOn(cfg, roles, Stat(0, full), 0);
      } else {
        assert !HasRole(roles, ROLE_USER) ==> !AgreesOn(cfg, roles, Stat(0, 0), 0);
      }
    }
  }
}
