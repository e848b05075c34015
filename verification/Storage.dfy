/** The blob store: one folder per alias. */
module Storage {
  import opened Entities

  type Folder = map<string, Bytes>

  /** What the cleanup after a failed copy, whose own error nobody looks at, leaves of the folder: nothing,
      an empty folder, or a folder that still has the part of the file that was copied. */
  datatype Cleanup = Removed | Emptied | Kept(part: Bytes)

  /** Where an upload fails, if it does; what is on disk then is part of the contract. */
  datatype UploadFault = Stored | MkdirFails | CreateFails | Cancelled | CopyFails(cleanup: Cleanup) | SyncFails

  /** A failing Delete leaves the folder alone or takes it with it. */
  datatype DeleteFault = Deleted | DeleteFails(gone: bool)

  function FolderAt(folders: map<Alias, Folder>, alias: Alias): Folder {
    if alias in folders then folders[alias] else map[]
  }

  // ---------------------------------------------------------------- the order of a directory

  /** File names in the order of a directory listing. */
  predicate NameLeq(a: string, b: string) {
    a == [] || (b != [] && (a[0] < b[0] || (a[0] == b[0] && NameLeq(a[1..], b[1..]))))
  }

  lemma {:induction false} NamesAreOrdered(a: string, b: string)
    ensures NameLeq(a, b) || NameLeq(b, a)
    ensures NameLeq(a, b) && NameLeq(b, a) ==> a == b
    decreases |a|
  {
    if a != [] && b != [] && a[0] == b[0] {
      NamesAreOrdered(a[1..], b[1..]);
      assert a == [a[0]] + a[1..] && b == [b[0]] + b[1..];
    }
  }

  /** The order is that of the first character that differs; a name comes before its extensions. */
  lemma {:induction false} NamesDiffer(prefix: string, a: string, b: string)
    ensures NameLeq(prefix, prefix + a)
    ensures a != [] ==> !NameLeq(prefix + a, prefix)
    ensures a != [] && b != [] && a[0] < b[0] ==> NameLeq(prefix + a, prefix + b) && !NameLeq(prefix + b, prefix + a)
    decreases |prefix|
  {
    if prefix != [] {
      NamesDiffer(prefix[1..], a, b);
      assert (prefix + a)[1..] == prefix[1..] + a && (prefix + b)[1..] == prefix[1..] + b;
    } else {
      assert prefix + a == a && prefix + b == b;
    }
  }

  lemma {:induction false} NameLeqChains(a: string, b: string, c: string)
    requires NameLeq(a, b) && NameLeq(b, c)
    ensures NameLeq(a, c)
    decreases |a|
  {
    if a != [] && a[0] == b[0] == c[0] {
      NameLeqChains(a[1..], b[1..], c[1..]);
    }
  }

  predicate IsFirst(names: set<string>, name: string) {
    name in names && forall m | m in names :: NameLeq(name, m)
  }

  lemma {:induction false} SomeNameIsFirst(names: set<string>)
    requires names != {}
    ensures exists name :: IsFirst(names, name)
    decreases names
  {
    var n :| n in names;
    NamesAreOrdered(n, n);
    if names == {n} {
      assert IsFirst(names, n);
    } else {
      SomeNameIsFirst(names - {n});
      var name :| IsFirst(names - {n}, name);
      NamesAreOrdered(n, name);
      var first := if NameLeq(n, name) then n else name;
      forall m | m in names ensures NameLeq(first, m) {
        if first == n != m {
          NameLeqChains(n, name, m);
        }
      }
      assert IsFirst(names, first);
    }
  }

  /** The content of the first file of the folder, in the order of a directory listing. */
  ghost predicate FirstFile(folder: Folder, content: Bytes) {
    exists name :: IsFirst(folder.Keys, name) && folder[name] == content
  }

  lemma FirstFileIsUnique(folder: Folder, c: Bytes, d: Bytes)
    requires FirstFile(folder, c) && FirstFile(folder, d)
    ensures c == d
  {
    var m :| IsFirst(folder.Keys, m) && folder[m] == c;
    var n :| IsFirst(folder.Keys, n) && folder[n] == d;
    NamesAreOrdered(m, n);
  }

  class FileStorage {
    var folders: map<Alias, Folder>

    constructor ()
      ensures folders == map[]
    {
      folders := map[];
    }

    /** `base` is the last element of the uploaded file's path. */
    method Upload(alias: Alias, base: string, file: Bytes, fault: UploadFault) returns (r: Result<(), Error>)
      modifies this
      ensures r.Ok? <==> fault == Stored
      ensures forall a | a != alias ::
                (a in folders <==> a in old(folders)) && (a in folders ==> folders[a] == old(folders)[a])
      ensures fault == MkdirFails ==> folders == old(folders)
      ensures fault != MkdirFails ==> (alias in folders <==> fault != CopyFails(Removed))
      ensures alias in folders && fault != MkdirFails ==>
                var was := if alias in old(folders) then old(folders)[alias] else map[];
                folders[alias] == match fault
                  case CreateFails => was
                  case Cancelled => was[base := []]
                  case CopyFails(Kept(part)) => was[base := part]
                  case CopyFails(_) => map[]
                  case _ => was[base := file]
    {
      if fault == MkdirFails {
        return Err(Other(1));
      }
      folders := folders[alias := FolderAt(folders, alias)];
      if fault == CreateFails {
        return Err(Other(2));
      }
      folders := folders[alias := folders[alias][base := []]];
      if fault == Cancelled {
        return Err(Other(3));
      }
      if fault.CopyFails? {
        folders := match fault.cleanup
          case Removed => folders - {alias}
          case Emptied => folders[alias := map[]]
          case Kept(part) => folders[alias := folders[alias][base := part]];
        return Err(Other(4));
      }
      folders := folders[alias := folders[alias][base := file]];
      if fault == SyncFails {
        return Err(Other(5));
      }
      return Ok(());
    }

    /** Opens the first file of the folder. */
    method Download(alias: Alias, fault: Option<Error>) returns (r: Result<Bytes, Error>)
      ensures r.Ok? ==> alias in folders && FirstFile(folders[alias], r.value)
      ensures r.Ok? ==>
                exists name | name in folders[alias] ::
                  r.value == folders[alias][name] && forall m | m in folders[alias] :: NameLeq(name, m)
      ensures fault == None ==>
                if alias in folders && folders[alias] != map[] then r.Ok? else r == Err(FileNotFound)
      ensures fault.Some? ==> r.Err?
    {
      if fault.Some? {
        return Err(fault.value);
      }
      if alias !in folders || folders[alias] == map[] {
        return Err(FileNotFound);
      }
      SomeNameIsFirst(folders[alias].Keys);
      var name :| IsFirst(folders[alias].Keys, name);
      r := Ok(folders[alias][name]);
      assert name in folders[alias] && forall m | m in folders[alias] :: NameLeq(name, m);
    }

    /** Deleting a missing folder succeeds. */
    method Delete(alias: Alias, fault: DeleteFault) returns (r: Result<(), Error>)
      modifies this
      ensures r.Ok? <==> fault == Deleted
      ensures folders == if fault == DeleteFails(false) then old(folders) else old(folders) - {alias}
    {
      if fault.DeleteFails? {
        if fault.gone {
          folders := folders - {alias};
        }
        return Err(Other(6));
      }
      folders := folders - {alias};
      return Ok(());
    }
  }
}
