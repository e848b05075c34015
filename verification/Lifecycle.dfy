/** Uploads, downloads, owner deletes and expiry sweeps as one transition system.

    Every request and every sweep is a process. A step of the system is one statement, one storage
    call, or one Commit of one process, or a failure of the call it is about to make. The table is
    the committed one: an open transaction's writes are kept in its process until it commits, and
    plain SELECTs read the table. A row lock is taken by INSERT, UPDATE, DELETE and FOR UPDATE and
    is held until the transaction ends; a statement that needs a lock held elsewhere waits. */
module Lifecycle {
  import opened Entities
  import opened FilesTable
  import opened Access

  type Tid = nat

  /** A download that has an open handle on `content`. */
  datatype Handle = Handle(alias: Alias, password: string, content: Bytes)

  /** Where a process stands: each state is named after the last call that succeeded. */
  datatype Pc =
    | UpStart(up: UploadCommand)
    | UpAdmitted(up: UploadCommand, alias: Alias, hash: string)          // quota passed, alias and hash drawn
    | UpInserted(up: UploadCommand, alias: Alias, hash: string, row: Row)  // row inserted, blob being written
    | UpStored(up: UploadCommand, alias: Alias, hash: string, row: Row)    // blob written, Commit next
    | DnStart(alias: Alias, password: string)
    | DnFound(alias: Alias, password: string)                     // live row read, password accepted
    | DnOpened(h: Handle)                                         // handle open
    | DnRead(h: Handle, read: int, at: int)                       // downloads_left read at time `at`
    | DnUpdated(h: Handle, left: int, at: int, hit: bool)         // UPDATE ran; `hit`: it matched a row
    | DnRowDeleted(h: Handle, read: int, at: int, delAt: int)     // last download: row deleted, blob next
    | DnBlobDeleted(h: Handle, read: int, at: int, delAt: int)    // blob deleted, Commit next
    | RmStart(alias: Alias, user: int, roles: seq<Role>)
    | RmFound(alias: Alias, user: int, roles: seq<Role>)          // live row read, access granted
    | RmDeleting(alias: Alias, user: int, roles: seq<Role>, delAt: int)  // DELETE issued, may wait for the lock
    | RmRowDeleted(alias: Alias, user: int, roles: seq<Role>, delAt: int)
    | RmBlobDeleted(alias: Alias, user: int, roles: seq<Role>, delAt: int)
    | SwScanning(at: int, batch: set<Alias>)                      // SELECT ... FOR UPDATE in progress
    | SwDeleting(at: int, batch: set<Alias>, todo: set<Alias>)    // rows deleted, blobs in `todo` left
    | Finished(ok: bool)

  /** What was committed by an upload, for which request and with which hash. */
  datatype Record = Record(row: Row, up: UploadCommand, hash: string)

  /** `uploads`, `served`, `removed` and `torn` are history: what was committed under each alias,
      how many downloads of it succeeded, how many transactions committed its removal, and the
      aliases for which a request's Commit failed after its storage Delete had succeeded. */
  datatype Store = Store(
    cfg: Config,
    now: int,
    table: Table,
    blobs: map<Alias, Bytes>,
    drawn: map<Alias, Tid>,
    uploads: map<Alias, Record>,
    served: multiset<Alias>,
    removed: multiset<Alias>,
    torn: set<Alias>)

  datatype State = State(db: Store, locks: map<Alias, Tid>, procs: map<Tid, Pc>)

  /** What a failing storage call leaves behind: nothing, a partly written folder, a lost blob. */
  datatype Damage = Clean | Partial(rest: Bytes) | Lost(alias: Alias)

  datatype Event =
    | Tick(d: nat)
    | Spawn(t: Tid, pc: Pc)
    | Admit(t: Tid, alias: Alias, hash: string)
    | Pick(t: Tid, alias: Alias)
    | Go(t: Tid)
    | Fail(t: Tid, damage: Damage)

  function Init(cfg: Config, now: int): State {
    State(Store(cfg, now, map[], map[], map[], map[], multiset{}, multiset{}, {}), map[], map[])
  }

  /** The aliases whose row locks a process in this state must hold. */
  function Held(pc: Pc): set<Alias> {
    match pc
    case UpInserted(_, a, _, _) => {a}
    case UpStored(_, a, _, _) => {a}
    case DnUpdated(h, _, _, hit) => if hit then {h.alias} else {}
    case DnRowDeleted(h, _, _, _) => {h.alias}
    case DnBlobDeleted(h, _, _, _) => {h.alias}
    case RmRowDeleted(a, _, _, _) => {a}
    case RmBlobDeleted(a, _, _, _) => {a}
    case SwScanning(_, batch) => batch
    case SwDeleting(_, batch, _) => batch
    case _ => {}
  }

  /** The aliases whose folder the process is writing or removing right now. */
  function Touching(pc: Pc): set<Alias> {
    match pc
    case UpInserted(_, a, _, _) => {a}
    case DnRowDeleted(h, _, _, _) => {h.alias}
    case RmRowDeleted(a, _, _, _) => {a}
    case SwDeleting(_, _, todo) => todo
    case _ => {}
  }

  /** The aliases whose row the next Commit of the process removes. */
  function Removing(pc: Pc): set<Alias> {
    match pc
    case DnBlobDeleted(h, _, _, _) => {h.alias}
    case RmBlobDeleted(a, _, _, _) => {a}
    case SwDeleting(_, batch, todo) => if todo == {} then batch else {}
    case _ => {}
  }

  /** The alias a request deletes once the blob is already gone and only the Commit is missing. */
  predicate BlobGone(pc: Pc, alias: Alias) {
    (pc.DnBlobDeleted? && pc.h.alias == alias) || (pc.RmBlobDeleted? && pc.alias == alias)
  }

  predicate Startable(pc: Pc, now: int) {
    match pc
    case UpStart(up) => up.size >= 0 && 1 <= up.max <= 10000
    case DnStart(_, _) => true
    case RmStart(_, _, _) => true
    case SwScanning(at, batch) => at == now && batch == {}
    case _ => false
  }

  predicate Accepts(cfg: Config, hash: string, password: string) {
    CheckPassword(cfg, hash, password).Ok?
  }

  /** The next call of `t` can succeed now. */
  predicate CanGo(s: State, t: Tid)
    requires t in s.procs
  {
    match s.procs[t]
    case UpAdmitted(_, a, _) => a !in s.db.table && a !in s.locks
    case UpInserted(_, _, _, _) => true
    case UpStored(_, _, _, _) => true
    case DnStart(a, p) => HasLive(s.db.table, a, s.db.now) && Accepts(s.db.cfg, s.db.table[a].hash, p)
    case DnFound(a, _) => a in s.db.blobs
    case DnOpened(h) => HasLive(s.db.table, h.alias, s.db.now) && s.db.table[h.alias].left != 0
    case DnRead(h, _, _) => h.alias in s.db.table ==> h.alias !in s.locks
    case DnUpdated(h, left, _, hit) => left > 0 || (hit && HasLive(s.db.table, h.alias, s.db.now))
    case DnRowDeleted(_, _, _, _) => true
    case DnBlobDeleted(_, _, _, _) => true
    case RmStart(a, user, roles) => HasLive(s.db.table, a, s.db.now) && MayManage(s.db.table[a].owner, user, roles)
    case RmFound(_, _, _) => true
    case RmDeleting(a, _, _, delAt) => HasLive(s.db.table, a, delAt) && a !in s.locks
    case RmRowDeleted(_, _, _, _) => true
    case RmBlobDeleted(_, _, _, _) => true
    case SwScanning(at, batch) => |batch| == BATCH_LIMIT || SweepableAliases(s.db.table, at) <= batch
    case SwDeleting(_, _, todo) => todo == {}
    case _ => false
  }

  ghost predicate Enabled(s: State, e: Event) {
    match e
    case Tick(_) => true
    case Spawn(t, pc) => t !in s.procs && Startable(pc, s.db.now)
    case Admit(t, alias, hash) =>
      && t in s.procs && s.procs[t].UpStart? && alias !in s.db.drawn
      && (s.procs[t].up.password == "" ==> hash == "")
      && (var up := s.procs[t].up; CheckUploadQuota(s.db.cfg, StatOf(s.db.table, up.user), up.size, up.roles).Ok?)
    case Pick(t, alias) =>
      && t in s.procs
      && (match s.procs[t]
          case SwScanning(at, batch) =>
            && alias in SweepableAliases(s.db.table, at) - batch && alias !in s.locks && |batch| < BATCH_LIMIT
          case SwDeleting(_, _, todo) => alias in todo
          case _ => false)
    case Go(t) => t in s.procs && CanGo(s, t)
    case Fail(t, damage) =>
      && t in s.procs && !s.procs[t].Finished?
      && (damage.Partial? ==> s.procs[t].UpInserted?)
      && (damage.Lost? ==> s.procs[t].SwDeleting? && damage.alias in s.procs[t].todo)
  }

  function Goto(s: State, t: Tid, pc: Pc): State {
    s.(procs := s.procs[t := pc])
  }

  /** The transaction of `t` ends with the store as given: its locks are released. */
  function Finish(s: State, t: Tid, ok: bool, db: Store): State {
    State(db, map a | a in s.locks && s.locks[a] != t :: s.locks[a], s.procs[t := Finished(ok)])
  }

  function WithBlobs(s: State, blobs: map<Alias, Bytes>): State {
    s.(db := s.db.(blobs := blobs))
  }

  function Insert(s: State, t: Tid, up: UploadCommand, a: Alias, hash: string): State {
    Goto(s, t, UpInserted(up, a, hash, NewRow(up, hash, s.db.now))).(locks := s.locks[a := t])
  }

  function CommitUpload(s: State, t: Tid, up: UploadCommand, a: Alias, hash: string, row: Row): State {
    Finish(s, t, true, s.db.(table := s.db.table[a := row], uploads := s.db.uploads[a := Record(row, up, hash)]))
  }

  function Update(s: State, t: Tid, h: Handle, read: int, at: int): State {
    var hit := h.alias in s.db.table;
    Goto(s, t, DnUpdated(h, read - 1, at, hit)).(locks := if hit then s.locks[h.alias := t] else s.locks)
  }

  function CommitDecrement(s: State, t: Tid, h: Handle, left: int, hit: bool): State {
    Finish(s, t, true, s.db.(
      table := if hit then UpdateLeft(s.db.table, h.alias, left) else s.db.table,
      served := s.db.served + multiset{h.alias}))
  }

  function CommitLastDownload(s: State, t: Tid, h: Handle): State {
    Finish(s, t, true, s.db.(
      table := s.db.table - {h.alias},
      served := s.db.served + multiset{h.alias},
      removed := s.db.removed + multiset{h.alias}))
  }

  function CommitDelete(s: State, t: Tid, a: Alias): State {
    Finish(s, t, true, s.db.(table := s.db.table - {a}, removed := s.db.removed + multiset{a}))
  }

  function CommitSweep(s: State, t: Tid, batch: set<Alias>): State {
    Finish(s, t, true, s.db.(table := s.db.table - batch, removed := s.db.removed + multiset(batch)))
  }

  /** The next call of `t` succeeds. */
  function Advance(s: State, t: Tid): State
    requires t in s.procs && CanGo(s, t)
  {
    match s.procs[t]
    case UpAdmitted(up, a, hash) => Insert(s, t, up, a, hash)
    case UpInserted(up, a, hash, row) =>
      WithBlobs(Goto(s, t, UpStored(up, a, hash, row)), s.db.blobs[a := up.bytes])
    case UpStored(up, a, hash, row) => CommitUpload(s, t, up, a, hash, row)
    case DnStart(a, p) => Goto(s, t, DnFound(a, p))
    case DnFound(a, p) => Goto(s, t, DnOpened(Handle(a, p, s.db.blobs[a])))
    case DnOpened(h) => Goto(s, t, DnRead(h, s.db.table[h.alias].left, s.db.now))
    case DnRead(h, read, at) => Update(s, t, h, read, at)
    case DnUpdated(h, left, at, hit) =>
      if left > 0 then CommitDecrement(s, t, h, left, hit) else Goto(s, t, DnRowDeleted(h, left + 1, at, s.db.now))
    case DnRowDeleted(h, read, at, delAt) =>
      WithBlobs(Goto(s, t, DnBlobDeleted(h, read, at, delAt)), s.db.blobs - {h.alias})
    case DnBlobDeleted(h, _, _, _) => CommitLastDownload(s, t, h)
    case RmStart(a, user, roles) => Goto(s, t, RmFound(a, user, roles))
    case RmFound(a, user, roles) => Goto(s, t, RmDeleting(a, user, roles, s.db.now))
    case RmDeleting(a, user, roles, delAt) =>
      Goto(s, t, RmRowDeleted(a, user, roles, delAt)).(locks := s.locks[a := t])
    case RmRowDeleted(a, user, roles, delAt) =>
      WithBlobs(Goto(s, t, RmBlobDeleted(a, user, roles, delAt)), s.db.blobs - {a})
    case RmBlobDeleted(a, _, _, _) => CommitDelete(s, t, a)
    case SwScanning(at, batch) => Goto(s, t, SwDeleting(at, batch, batch))
    case SwDeleting(_, batch, _) => CommitSweep(s, t, batch)
  }

  /** The next call of `t` fails: Rollback, or a Commit that applied nothing. */
  function Abort(s: State, t: Tid, damage: Damage): State
    requires t in s.procs
    requires damage.Partial? ==> s.procs[t].UpInserted?
  {
    var pc := s.procs[t];
    Finish(s, t, false, s.db.(
      blobs := match damage
        case Clean => s.db.blobs
        case Partial(rest) => s.db.blobs[pc.alias := rest]
        case Lost(a) => s.db.blobs - {a},
      torn := s.db.torn +
        (if pc.DnBlobDeleted? then {pc.h.alias} else if pc.RmBlobDeleted? then {pc.alias} else {})))
  }

  ghost function Step(s: State, e: Event): State
    requires Enabled(s, e)
  {
    match e
    case Tick(d) => s.(db := s.db.(now := s.db.now + d))
    case Spawn(t, pc) => Goto(s, t, pc)
    case Admit(t, alias, hash) => 
      Goto(s, t, UpAdmitted(s.procs[t].up, alias, hash)).(db := s.db.(drawn := s.db.drawn[alias := t]))
    case Pick(t, alias) => (
      match s.procs[t]
      case SwScanning(at, batch) => Goto(s, t, SwScanning(at, batch + {alias})).(locks := s.locks[alias := t])
      case SwDeleting(at, batch, todo) =>
        WithBlobs(Goto(s, t, SwDeleting(at, batch, todo - {alias})), s.db.blobs - {alias}))
    case Go(t) => Advance(s, t)
    case Fail(t, damage) => Abort(s, t, damage)
  }

  /** A run: the events in order, each enabled where it happens. */
  ghost predicate IsRun(s0: State, es: seq<Event>)
    decreases |es|, 0
  {
    es == [] || (IsRun(s0, es[..|es| - 1]) && Enabled(After(s0, es[..|es| - 1]), es[|es| - 1]))
  }

  /** The state a run ends in. */
  ghost function After(s0: State, es: seq<Event>): State
    requires IsRun(s0, es)
    decreases |es|, 1
  {
    if es == [] then s0 else Step(After(s0, es[..|es| - 1]), es[|es| - 1])
  }

  ghost predicate Reachable(s: State) {
    exists cfg, now, es :: IsRun(Init(cfg, now), es) && After(Init(cfg, now), es) == s
  }
}
