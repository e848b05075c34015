/** The repository over table `files`, one transaction at a time. Each method takes the error its
    database call fails with, if it does. */
module Repository {
  import opened Entities
  import opened FilesTable
  import opened Access

  function ToSet(s: seq<Alias>): set<Alias> {
    set a | a in s
  }

  lemma RemoveNext(t: Table, s: seq<Alias>, i: nat)
    requires i < |s|
    ensures t - ToSet(s[..i]) - {s[i]} == t - ToSet(s[..i + 1])
  {
    assert s[..i + 1] == s[..i] + [s[i]];
    assert ToSet(s[..i + 1]) == ToSet(s[..i]) + {s[i]};
  }

  class FileRepo {
    var table: Table
    var now: int
    /** The table as the open transaction sees it. */
    var tx: Option<Table>

    constructor (now: int)
      ensures table == map[] && this.now == now && tx == None
    {
      this.table, this.now, this.tx := map[], now, None;
    }

    /** Time passes; it never runs backwards. */
    method AdvanceClock(now: int)
      requires this.now <= now
      modifies this`now
      ensures this.now == now
    {
      this.now := now;
    }

    method GetFileByAlias(alias: Alias, fault: Option<Error>) returns (r: Result<Row, Error>)
      ensures r == if fault.Some? then Err(fault.value)
                   else if alias in table && table[alias].expiresAt > now then Ok(table[alias])
                   else Err(FileNotFound)
    {
      if fault.Some? {
        return Err(fault.value);
      }
      if !HasLive(table, alias, now) {
        return Err(FileNotFound);
      }
      return Ok(table[alias]);
    }

    method GetFilesStatByUserID(user: int, fault: Option<Error>) returns (r: Result<Stat, Error>)
      ensures r.Ok? <==> fault == None
      ensures r.Ok? ==> r.value.count == |set a | a in table && table[a].owner == user|
      ensures r.Ok? ==> r.value.size == Sum(map a | a in table && table[a].owner == user :: table[a].size)
    {
      if fault.Some? {
        return Err(fault.value);
      }
      var sizes := UserSizes(table, user);
      var left, size := sizes, 0;
      while left != map[]
        invariant left.Keys <= sizes.Keys && forall a | a in left :: left[a] == sizes[a]
        invariant size + Sum(left) == Sum(sizes)
        decreases |left|
      {
        var a :| a in left;
        SumRemove(left, a);
        size := size + left[a];
        left := left - {a};
      }
      assert sizes.Keys == set a | a in table && table[a].owner == user;
      return Ok(Stat(|sizes|, size));
    }

    method BeginTx(fault: Option<Error>) returns (r: Result<(), Error>)
      requires tx == None
      modifies this`tx
      ensures r.Ok? <==> fault == None
      ensures tx == if fault == None then Some(table) else None
    {
      if fault.Some? {
        return Err(fault.value);
      }
      tx := Some(table);
      return Ok(());
    }

    method AddFileTx(alias: Alias, up: UploadCommand, hash: string, fault: Option<Error>)
      returns (r: Result<(), Error>)
      requires tx.Some?
      modifies this`tx
      ensures r == if alias in old(tx).value && fault == None then Err(AliasTaken)
                   else if fault.Some? then Err(fault.value) else Ok(())
      ensures r.Err? ==> tx == old(tx)
      ensures r.Ok? ==>
                tx == Some(old(tx).value[alias := Row(up.name, up.size, up.max, now, now + up.ttl, hash, up.user)])
    {
      if fault.Some? {
        return Err(fault.value);
      }
      if alias in tx.value {
        return Err(AliasTaken);
      }
      tx := Some(tx.value[alias := NewRow(up, hash, now)]);
      return Ok(());
    }

    method DecrementDownloadsByAliasTx(alias: Alias, selectFault: Option<Error>, updateFault: Option<Error>)
      returns (r: Result<int, Error>)
      requires tx.Some?
      modifies this`tx
      ensures var t := old(tx).value;
        var live := alias in t && t[alias].expiresAt > now;
        && (r.Ok? <==> selectFault == None && updateFault == None && live && t[alias].left != 0)
        && (r.Ok? ==> r.value == t[alias].left - 1 && tx == Some(t[alias := t[alias].(left := r.value)]))
        && (r.Err? ==> tx == old(tx))
        && (selectFault == None && !live ==> r == Err(FileNotFound))
        && (selectFault == None && live && t[alias].left == 0 ==> r == Err(NoDownloadsLeft))
    {
      if selectFault.Some? {
        return Err(selectFault.value);
      }
      if !HasLive(tx.value, alias, now) {
        return Err(FileNotFound);
      }
      var downloadsLeft := tx.value[alias].left;
      if downloadsLeft == 0 {
        return Err(NoDownloadsLeft);
      }
      downloadsLeft := downloadsLeft - 1;
      if updateFault.Some? {
        return Err(updateFault.value);
      }
      tx := Some(UpdateLeft(tx.value, alias, downloadsLeft));
      return Ok(downloadsLeft);
    }

    method DeleteFileTx(alias: Alias, fault: Option<Error>) returns (r: Result<(), Error>)
      requires tx.Some?
      modifies this`tx
      ensures r.Ok? <==> fault == None && alias in old(tx).value && old(tx).value[alias].expiresAt > now
      ensures tx == if r.Ok? then Some(old(tx).value - {alias}) else old(tx)
      ensures fault == None && r.Err? ==> r == Err(FileNotFound)
    {
      if fault.Some? {
        return Err(fault.value);
      }
      if !HasLive(tx.value, alias, now) {
        return Err(FileNotFound);
      }
      tx := Some(tx.value - {alias});
      return Ok(());
    }

    /** Deletes up to `limit` expired rows, in no particular order, and returns their aliases. */
    method DeleteExpiredFilesTx(limit: nat, selectFault: Option<Error>, deleteFault: Option<nat>)
      returns (r: Result<seq<Alias>, Error>)
      requires tx.Some?
      modifies this`tx
      ensures tx.Some?
      ensures selectFault == None && deleteFault == None ==> r.Ok?
      ensures r.Ok? ==>
                var t := old(tx).value;
                && |r.value| <= limit
                && (|r.value| == limit || forall a | a in t && t[a].expiresAt < now :: a in r.value)
                && (forall i | 0 <= i < |r.value| :: r.value[i] in t && t[r.value[i]].expiresAt < now)
                && (forall i, j | 0 <= i < j < |r.value| :: r.value[i] != r.value[j])
                && tx.value == t - set a | a in r.value
    {
      if selectFault.Some? {
        return Err(selectFault.value);
      }
      var expired := SweepableAliases(tx.value, now);
      var rows := expired;
      var aliases: seq<Alias> := [];
      while rows != {} && |aliases| < limit
        invariant rows <= expired && |aliases| <= limit && |aliases| + |rows| == |expired|
        invariant forall a | a in expired :: a in rows || a in aliases
        invariant forall i | 0 <= i < |aliases| :: aliases[i] in expired && aliases[i] !in rows
        invariant forall i, j | 0 <= i < j < |aliases| :: aliases[i] != aliases[j]
        decreases rows
      {
        var alias :| alias in rows;
        rows := rows - {alias};
        aliases := aliases + [alias];
      }
      var i := 0;
      assert tx.value == old(tx).value - ToSet(aliases[..0]);
      while i < |aliases|
        invariant 0 <= i <= |aliases|
        invariant tx == Some(old(tx).value - ToSet(aliases[..i]))
      {
        if deleteFault == Some(i) {
          return Err(Other(7));
        }
        RemoveNext(old(tx).value, aliases, i);
        tx := Some(tx.value - {aliases[i]});
        i := i + 1;
      }
      assert aliases[..i] == aliases;
      return Ok(aliases);
    }

    /** A failed Commit applies nothing; either way the transaction is over. */
    method Commit(fault: Option<Error>) returns (r: Result<(), Error>)
      requires tx.Some?
      modifies this`tx, this`table
      ensures tx == None
      ensures r == if fault.Some? then Err(fault.value) else Ok(())
      ensures table == if fault == None then old(tx).value else old(table)
    {
      var working := tx.value;
      tx := None;
      if fault.Some? {
        return Err(fault.value);
      }
      table := working;
      return Ok(());
    }

    /** Discards the transaction; after a Commit there is nothing to discard. */
    method Rollback()
      modifies this`tx
      ensures tx == None
    {
      tx := None;
    }
  }
}
