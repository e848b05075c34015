/** The file service over one repository and one blob store, every call of which may fail. */
module Service {
  import opened Entities
  import opened FilesTable
  import opened Access
  import opened Storage
  import opened Repository

  /** The errors of the calls an operation makes; None where the call works. */
  datatype UploadFaults = UploadFaults(
    stat: Option<Error>, begin: Option<Error>, insert: Option<Error>, store: UploadFault, commit: Option<Error>)

  datatype DownloadFaults = DownloadFaults(
    find: Option<Error>, open: Option<Error>, begin: Option<Error>, read: Option<Error>, update: Option<Error>,
    delete: Option<Error>, remove: DeleteFault, commit: Option<Error>)

  datatype DeleteFaults = DeleteFaults(
    find: Option<Error>, begin: Option<Error>, delete: Option<Error>, remove: DeleteFault, commit: Option<Error>)

  const NO_UPLOAD_FAULT := UploadFaults(None, None, None, Stored, None)
  const NO_DOWNLOAD_FAULT := DownloadFaults(None, None, None, None, None, None, Deleted, None)
  const NO_DELETE_FAULT := DeleteFaults(None, None, None, Deleted, None)

  type Folders = map<Alias, Folder>

  /** What an upload that fails may leave under its alias: what was there, nothing, or some of the file. */
  ghost predicate Leftover(f: Folders, f': Folders, alias: Alias, name: string) {
    || FolderAt(f', alias) == FolderAt(f, alias)
    || FolderAt(f', alias) == map[]
    || exists rest :: HasWritten(f, f', alias, name, rest)
  }

  ghost predicate HasWritten(f: Folders, f': Folders, alias: Alias, name: string, rest: Bytes) {
    FolderAt(f', alias) == FolderAt(f, alias)[name := rest]
  }

  class FileService {
    const cfg: Config
    const repo: FileRepo
    const storage: FileStorage
    /** Handles returned by the storage and not closed yet. */
    var openHandles: int

    constructor (cfg: Config, repo: FileRepo, storage: FileStorage)
      ensures this.cfg == cfg && this.repo == repo && this.storage == storage && openHandles == 0
    {
      this.cfg, this.repo, this.storage, this.openHandles := cfg, repo, storage, 0;
    }

    method CloseHandle()
      modifies this`openHandles
      ensures openHandles == old(openHandles) - 1
    {
      openHandles := openHandles - 1;
    }

    /** A user's usage, with the limits of the user's roles. */
    method GetFilesStat(user: int, roles: seq<Role>, fault: Option<Error>) returns (r: Result<StatReport, Error>)
      ensures r.Ok? <==> fault == None
      ensures r.Ok? ==>
                && r.value.stat.count == |set a | a in repo.table && repo.table[a].owner == user|
                && r.value.stat.size
                   == Sum(map a | a in repo.table && repo.table[a].owner == user :: repo.table[a].size)
                && r.value.maxCount == cfg.maxUploadedFiles
                && r.value.maxSize == if "admin" in roles || "vip" in roles then cfg.vipLimit else cfg.userLimit
    {
      var stat := repo.GetFilesStatByUserID(user, fault);
      if stat.Err? {
        return Err(stat.error);
      }
      return Ok(Access.GetFilesStat(cfg, stat.value, roles));
    }

    /** Uploads under the drawn alias. The table changes exactly when the upload succeeds, and then by one
        row; no transaction is left open; nothing is stored before quota, hashing and alias are right. Without
        faults the outcome is decided by the quota, the hashing of a password and the alias, in this order. */
    method UploadFile(up: UploadCommand, alias: Alias, hashed: Result<string, Error>, f: UploadFaults)
      returns (r: Result<Alias, Error>)
      requires repo.tx == None
      modifies repo, storage
      ensures repo.tx == None && repo.now == old(repo.now)
      ensures r.Err? ==> repo.table == old(repo.table)
      ensures r.Err? ==> Leftover(old(storage.folders), storage.folders, alias, up.name)
      ensures r.Ok? || storage.folders != old(storage.folders) ==>
                && CheckUploadQuota(cfg, StatOf(old(repo.table), up.user), up.size, up.roles).Ok?
                && alias !in old(repo.table)
                && (up.password != "" ==> hashed.Ok?)
      ensures r.Ok? ==>
                && r.value == alias
                && repo.table == old(repo.table)[alias := Row(
                     up.name, up.size, up.max, repo.now, repo.now + up.ttl,
                     if up.password == "" then "" else hashed.value, up.user)]
                && alias in storage.folders
                && storage.folders[alias] == FolderAt(old(storage.folders), alias)[up.name := up.bytes]
                && (alias !in old(storage.folders) ==> storage.folders[alias] == map[up.name := up.bytes])
      ensures forall a | a != alias ::
                (a in storage.folders <==> a in old(storage.folders)) &&
                (a in storage.folders ==> storage.folders[a] == old(storage.folders)[a])
      ensures f == NO_UPLOAD_FAULT ==>
                var quota := CheckUploadQuota(cfg, StatOf(old(repo.table), up.user), up.size, up.roles);
                r == if quota.Err? then Err(quota.error)
                     else if up.password != "" && hashed.Err? then Err(hashed.error)
                     else if alias in old(repo.table) then Err(AliasTaken)
                     else Ok(alias)
    {
      var stat := repo.GetFilesStatByUserID(up.user, f.stat);
      if stat.Err? {
        return Err(stat.error);
      }
      var quota := CheckUploadQuota(cfg, stat.value, up.size, up.roles);
      if quota.Err? {
        return Err(quota.error);
      }
      var hash := "";
      if |up.password| > 0 {
        if hashed.Err? {
          return Err(hashed.error);
        }
        hash := hashed.value;
      }
      var begun := repo.BeginTx(f.begin);
      if begun.Err? {
        return Err(begun.error);
      }
      var done := UploadInTx(up, alias, hash, f);
      if done.Err? {
        repo.Rollback();
        return Err(done.error);
      }
      return Ok(alias);
    }

    /** The transaction of an upload. */
    method UploadInTx(up: UploadCommand, alias: Alias, hash: string, f: UploadFaults) returns (r: Result<(), Error>)
      requires repo.tx == Some(repo.table)
      modifies repo, storage
      ensures repo.now == old(repo.now)
      ensures r.Ok? ==> repo.tx == None
      ensures r.Ok? || storage.folders != old(storage.folders) ==> alias !in old(repo.table)
      ensures r.Err? ==> Leftover(old(storage.folders), storage.folders, alias, up.name)
      ensures repo.table == if r.Ok? then old(repo.table)[alias := NewRow(up, hash, repo.now)] else old(repo.table)
      ensures r.Ok? ==>
                && alias in storage.folders
                && storage.folders[alias] == FolderAt(old(storage.folders), alias)[up.name := up.bytes]
      ensures forall a | a != alias ::
                (a in storage.folders <==> a in old(storage.folders)) &&
                (a in storage.folders ==> storage.folders[a] == old(storage.folders)[a])
      ensures f == NO_UPLOAD_FAULT ==> r == if alias in old(repo.table) then Err(AliasTaken) else Ok(())
    {
      r := repo.AddFileTx(alias, up, hash, f.insert);
      if r.Err? {
        return;
      }
      r := storage.Upload(alias, up.name, up.bytes, f.store);
      assert f.store in {Cancelled, SyncFails, Stored} || (f.store.CopyFails? && f.store.cleanup.Kept?) ==>
          HasWritten(old(storage.folders), storage.folders, alias, up.name, storage.folders[alias][up.name]);
      if r.Err? {
        return;
      }
      r := repo.Commit(f.commit);
    }

    /** Downloads a file. On success one handle is left open and one download is used up; the last one
        takes row and folder with it. On failure nothing is left open and the table is as before. */
    method DownloadFile(alias: Alias, password: string, f: DownloadFaults) returns (r: Result<Bytes, Error>)
      requires repo.tx == None
      modifies this, repo, storage
      ensures repo.tx == None && repo.now == old(repo.now)
      ensures openHandles == old(openHandles) + if r.Ok? then 1 else 0
      ensures r.Ok? ==>
                && alias in old(repo.table) && old(repo.table)[alias].expiresAt > repo.now
                && (var hash := old(repo.table)[alias].hash;
                    hash == "" || (password != "" && cfg.verify(hash, password)))
                && alias in old(storage.folders) && FirstFile(old(storage.folders)[alias], r.value)
                && var left := old(repo.table)[alias].left;
                   if left > 1 then
                     && repo.table == old(repo.table)[alias := old(repo.table)[alias].(left := left - 1)]
                     && storage.folders == old(storage.folders)
                   else
                     repo.table == old(repo.table) - {alias} && storage.folders == old(storage.folders) - {alias}
      ensures r.Err? ==>
                && repo.table == old(repo.table)
                && (|| storage.folders == old(storage.folders)
                    || (&& (f.commit.Some? || f.remove == DeleteFails(true))
                        && alias in repo.table && repo.table[alias].expiresAt > repo.now && repo.table[alias].left <= 1
                        && CheckPassword(cfg, repo.table[alias].hash, password).Ok?
                        && FolderAt(old(storage.folders), alias) != map[]
                        && storage.folders == old(storage.folders) - {alias}))
      ensures f == NO_DOWNLOAD_FAULT ==>
                var table := old(repo.table);
                if !(alias in table && table[alias].expiresAt > repo.now) then r == Err(FileNotFound)
                else if table[alias].hash != "" && password == "" then r == Err(FilePasswordRequired)
                else if table[alias].hash != "" && !cfg.verify(table[alias].hash, password) then
                  r == Err(FilePasswordInvalid)
                else if alias !in old(storage.folders) || old(storage.folders)[alias] == map[] then
                  r == Err(FileNotFound)
                else if table[alias].left == 0 then r == Err(NoDownloadsLeft)
                else r.Ok?
    {
      var info := repo.GetFileByAlias(alias, f.find);
      if info.Err? {
        return Err(info.error);
      }
      var checked := CheckPassword(cfg, info.value.hash, password);
      if checked.Err? {
        return Err(checked.error);
      }
      var handle := storage.Download(alias, f.open);
      if handle.Err? {
        return Err(handle.error);
      }
      openHandles := openHandles + 1;
      var begun := repo.BeginTx(f.begin);
      if begun.Err? {
        CloseHandle();
        return Err(begun.error);
      }
      var done := DecrementInTx(alias, f);
      if done.Err? {
        CloseHandle();
        repo.Rollback();
        return Err(done.error);
      }
      return Ok(handle.value);
    }

    method DecrementInTx(alias: Alias, f: DownloadFaults) returns (r: Result<(), Error>)
      requires repo.tx == Some(repo.table) && alias in repo.table && repo.table[alias].expiresAt > repo.now
      modifies repo, storage
      ensures repo.now == old(repo.now)
      ensures r.Ok? ==> repo.tx == None
      ensures r.Ok? ==>
                var left := old(repo.table)[alias].left;
                if left > 1 then
                  && repo.table == old(repo.table)[alias := old(repo.table)[alias].(left := left - 1)]
                  && storage.folders == old(storage.folders)
                else
                  repo.table == old(repo.table) - {alias} && storage.folders == old(storage.folders) - {alias}
      ensures r.Err? ==>
                && repo.table == old(repo.table)
                && (|| storage.folders == old(storage.folders)
                    || (&& (f.commit.Some? || f.remove == DeleteFails(true)) && repo.table[alias].left <= 1
                        && storage.folders == old(storage.folders) - {alias}))
      ensures f == NO_DOWNLOAD_FAULT ==>
                if old(repo.table)[alias].left == 0 then r == Err(NoDownloadsLeft) else r.Ok?
    {
      var left := repo.DecrementDownloadsByAliasTx(alias, f.read, f.update);
      if left.Err? {
        return Err(left.error);
      }
      if left.value > 0 {
        r := repo.Commit(f.commit);
        return;
      }
      r := repo.DeleteFileTx(alias, f.delete);
      if r.Err? {
        return;
      }
      assert old(repo.table)[alias := old(repo.table)[alias].(left := left.value)] - {alias}
          == old(repo.table) - {alias};
      r := storage.Delete(alias, f.remove);
      if r.Err? {
        return;
      }
      r := repo.Commit(f.commit);
    }

    /** The download handler: sends what the service opened and closes it again, once, whether or not the
        client reads to the end. */
    method ServeDownload(alias: Alias, password: string, f: DownloadFaults, read: nat) returns (sent: Option<Bytes>)
      requires repo.tx == None
      modifies this, repo, storage
      ensures openHandles == old(openHandles)
      ensures repo.tx == None
      ensures sent == None ==> repo.table == old(repo.table)
      ensures sent.Some? ==>
                && alias in old(repo.table) && old(repo.table)[alias].expiresAt > repo.now
                && (var hash := old(repo.table)[alias].hash;
                    hash == "" || (password != "" && cfg.verify(hash, password)))
                && alias in old(storage.folders)
                && exists content | FirstFile(old(storage.folders)[alias], content) ::
                     sent.value <= content && (|content| <= read ==> sent.value == content)
    {
      var file := DownloadFile(alias, password, f);
      if file.Err? {
        return None;
      }
      sent := Some(if read < |file.value| then file.value[..read] else file.value);
      CloseHandle();
    }

    /** Deletes a file for its owner or an admin, row and folder together or not at all. */
    method DeleteFile(alias: Alias, user: int, roles: seq<Role>, f: DeleteFaults) returns (r: Result<(), Error>)
      requires repo.tx == None
      modifies repo, storage
      ensures repo.tx == None && repo.now == old(repo.now)
      ensures r.Ok? || storage.folders != old(storage.folders) ==>
                && alias in old(repo.table) && old(repo.table)[alias].expiresAt > repo.now
                && (old(repo.table)[alias].owner == user || "admin" in roles)
      ensures r.Ok? ==>
                repo.table == old(repo.table) - {alias} && storage.folders == old(storage.folders) - {alias}
      ensures r.Err? ==>
                && repo.table == old(repo.table)
                && (|| storage.folders == old(storage.folders)
                    || (&& (f.commit.Some? || f.remove == DeleteFails(true))
                        && storage.folders == old(storage.folders) - {alias}))
      ensures f == NO_DELETE_FAULT ==>
                var table := old(repo.table);
                if !(alias in table && table[alias].expiresAt > repo.now) then r == Err(FileNotFound)
                else if table[alias].owner == user || "admin" in roles then r.Ok?
                else r == Err(Forbidden)
    {
      var info := repo.GetFileByAlias(alias, f.find);
      if info.Err? {
        return Err(info.error);
      }
      if !MayManage(info.value.owner, user, roles) {
        return Err(Forbidden);
      }
      var begun := repo.BeginTx(f.begin);
      if begun.Err? {
        return Err(begun.error);
      }
      r := DeleteInTx(alias, f);
      if r.Err? {
        repo.Rollback();
      }
    }

    method DeleteInTx(alias: Alias, f: DeleteFaults) returns (r: Result<(), Error>)
      requires repo.tx == Some(repo.table) && alias in repo.table && repo.table[alias].expiresAt > repo.now
      modifies repo, storage
      ensures repo.now == old(repo.now)
      ensures r.Ok? ==> repo.tx == None
      ensures r.Ok? ==>
                repo.table == old(repo.table) - {alias} && storage.folders == old(storage.folders) - {alias}
      ensures r.Err? ==>
                && repo.table == old(repo.table)
                && (|| storage.folders == old(storage.folders)
                    || (&& (f.commit.Some? || f.remove == DeleteFails(true))
                        && storage.folders == old(storage.folders) - {alias}))
      ensures f == NO_DELETE_FAULT ==> r.Ok?
    {
      r := repo.DeleteFileTx(alias, f.delete);
      if r.Err? {
        return;
      }
      r := storage.Delete(alias, f.remove);
      if r.Err? {
        return;
      }
      r := repo.Commit(f.commit);
    }
  }
}
