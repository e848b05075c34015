/** What the service promises across its operations, in terms of requests and times alone: upload and then
    download, download as often as allowed, delete and then download. */
module ServiceLaws {
  import opened Entities
  import opened Access
  import opened FilesTable
  import opened Storage
  import opened Service

  /** Nothing is stored under the alias, and the upload passes: the caller is an admin, or has fewer files
      than the cap and enough room. */
  ghost predicate Uploadable(fs: FileService, up: UploadCommand, a: Alias)
    reads fs.repo, fs.storage
  {
    && fs.repo.tx == None && a !in fs.repo.table && a !in fs.storage.folders
    && CheckUploadQuota(fs.cfg, StatOf(fs.repo.table, up.user), up.size, up.roles).Ok?
  }

  /** A file uploaded under `a` at some time is downloaded at `later`, by anybody, without a failing call. It
      opens exactly as long as its time to live has not passed, and, when a password was set, to a non-empty
      one that matches the hash handed in; and what comes back is what was sent. */
  method UploadThenDownload(fs: FileService, up: UploadCommand, a: Alias, hash: string, later: int, password: string)
    returns (r: Result<Bytes, Error>)
    requires Uploadable(fs, up, a) && up.max >= 1 && fs.repo.now <= later
    requires up.password != "" ==> hash != ""
    modifies fs, fs.repo, fs.storage
    ensures r.Ok? <==>
              && later < old(fs.repo.now) + up.ttl
              && (up.password == "" || (password != "" && fs.cfg.verify(hash, password)))
    ensures r.Ok? ==> r.value == up.bytes
    ensures later < old(fs.repo.now) + up.ttl && up.password != "" && password == "" ==> r == Err(FilePasswordRequired)
    ensures later >= old(fs.repo.now) + up.ttl ==> r == Err(FileNotFound)
  {
    var uploaded := fs.UploadFile(up, a, Ok(hash), NO_UPLOAD_FAULT);
    assert uploaded.Ok?;
    fs.repo.AdvanceClock(later);
    var content := map[up.name := up.bytes];
    assert fs.storage.folders[a] == content && content.Keys == {up.name};
    r := fs.DownloadFile(a, password, NO_DOWNLOAD_FAULT);
  }

  /** `n` downloads in a row, without a failing call, of a live file without a password: the first `left` of
      them succeed, and then there is no file any more. */
  method DownloadTimes(fs: FileService, a: Alias, n: nat) returns (served: nat)
    requires fs.repo.tx == None && a in fs.repo.table && fs.repo.table[a].expiresAt > fs.repo.now
    requires fs.repo.table[a].hash == "" && fs.repo.table[a].left >= 1
    requires a in fs.storage.folders && fs.storage.folders[a] != map[]
    modifies fs, fs.repo, fs.storage
    ensures var left := old(fs.repo.table)[a].left;
      if n < left then
        && served == n && a in fs.repo.table && a in fs.storage.folders
        && fs.repo.table == old(fs.repo.table)[a := old(fs.repo.table)[a].(left := left - n)]
      else
        && served == left && a !in fs.repo.table && a !in fs.storage.folders
        && fs.repo.table == old(fs.repo.table) - {a}
    ensures forall b | b != a :: (b in fs.storage.folders <==> b in old(fs.storage.folders))
                                 && (b in fs.storage.folders ==> fs.storage.folders[b] == old(fs.storage.folders)[b])
  {
    served := 0;
    var i := 0;
    while i < n
      invariant 0 <= i <= n && fs.repo.tx == None && fs.repo.now == old(fs.repo.now)
      invariant var left := old(fs.repo.table)[a].left;
        if i < left then
          && served == i && fs.storage.folders == old(fs.storage.folders)
          && fs.repo.table == old(fs.repo.table)[a := old(fs.repo.table)[a].(left := left - i)]
        else
          && served == left && fs.repo.table == old(fs.repo.table) - {a}
          && fs.storage.folders == old(fs.storage.folders) - {a}
    {
      var r := fs.DownloadFile(a, "", NO_DOWNLOAD_FAULT);
      if r.Ok? {
        served := served + 1;
        fs.CloseHandle();
      }
      i := i + 1;
    }
  }

  /** After a successful delete nobody finds the file, at that time or later, whatever fails. */
  method DeleteThenDownload(fs: FileService, a: Alias, user: int, roles: seq<Role>, f: DeleteFaults,
                            later: int, password: string, g: DownloadFaults)
    returns (deleted: bool, r: Result<Bytes, Error>)
    requires fs.repo.tx == None && fs.repo.now <= later
    modifies fs, fs.repo, fs.storage
    ensures deleted ==> r.Err? && a !in fs.repo.table && a !in fs.storage.folders
    ensures deleted && g == NO_DOWNLOAD_FAULT ==> r == Err(FileNotFound)
    ensures deleted ==> a in old(fs.repo.table) && (old(fs.repo.table)[a].owner == user || "admin" in roles)
  {
    var d := fs.DeleteFile(a, user, roles, f);
    deleted := d.Ok?;
    fs.repo.AdvanceClock(later);
    r := fs.DownloadFile(a, password, g);
  }
}
