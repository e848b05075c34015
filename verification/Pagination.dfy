/** Listing a user's files page by page. */
module Pagination {
  import opened Entities
  import opened FilesTable
  import opened Strconv

  /** Missing, malformed or too small arguments give the defaults; large limits are cut. */
  method ScanPaginationArgs(pageArg: string, limitArg: string) returns (page: int, limit: int)
    ensures 1 <= page <= MAX_INT64 && 1 <= limit <= 100
    ensures forall n | Atoi(pageArg) == Some(n) && n >= 1 :: page == n
    ensures (forall n | Atoi(pageArg) == Some(n) :: n < 1) ==> page == 1
    ensures forall n | Atoi(limitArg) == Some(n) && n >= 1 :: limit == if n <= 100 then n else 100
    ensures (forall n | Atoi(limitArg) == Some(n) :: n < 1) ==> limit == 10
    ensures pageArg == "" ==> page == 1
    ensures limitArg == "" ==> limit == 10
    ensures forall n: nat | pageArg == Decimal(n) :: page == if 1 <= n <= 0x7FFF_FFFF_FFFF_FFFF then n else 1
    ensures forall n: nat | limitArg == Decimal(n) ::
              limit == if 1 <= n <= 100 then n else if 100 < n <= 0x7FFF_FFFF_FFFF_FFFF then 100 else 10
  {
    forall n: nat {
      AtoiOfDecimal(n);
    }
    AtoiOfNothing();
    var parsed := Atoi(pageArg);
    page := if parsed.Some? then parsed.value else 0;
    if parsed == None || page < 1 {
      page := 1;
    }
    parsed := Atoi(limitArg);
    limit := if parsed.Some? then parsed.value else 0;
    if parsed == None || limit < 1 {
      limit := 10;
    } else if limit > 100 {
      limit := 100;
    }
  }

  type File = (Alias, Row)

  /** The rows the WHERE clause keeps, in the order in which the engine scans the table. */
  function LiveFiles(scan: seq<File>, user: int, now: int): seq<File> {
    if scan == [] then []
    else (if scan[0].1.owner == user && Live(scan[0].1, now) then [scan[0]] else [])
         + LiveFiles(scan[1..], user, now)
  }

  function Clamp(x: int, n: nat): nat {
    if x < 0 then 0 else if x > n then n else x
  }

  /** The rows that fill this many pages. */
  function RowsOn(pages: nat, limit: nat): nat {
    if pages == 0 then 0 else RowsOn(pages - 1, limit) + limit
  }

  lemma {:induction false} RowsOnIsProduct(pages: nat, limit: nat)
    ensures RowsOn(pages, limit) == pages * limit
    decreases pages
  {
    if pages > 0 {
      RowsOnIsProduct(pages - 1, limit);
      OneMore(pages - 1, limit);
    }
  }

  lemma {:induction false} RowsOnGrows(a: nat, b: nat, limit: nat)
    requires a <= b
    ensures RowsOn(a, limit) <= RowsOn(b, limit)
    decreases b
  {
    if a < b {
      RowsOnGrows(a, b - 1, limit);
    }
  }

  /** The offset of a page in int64, and whether int64 can hold it. */
  function Offset(page: nat, limit: nat): int
    requires page >= 1
  {
    Wrap64(RowsOn(page - 1, limit))
  }

  predicate Fits(page: nat, limit: nat)
    requires page >= 1
  {
    RowsOn(page - 1, limit) <= MAX_INT64
  }

  /** LIMIT limit OFFSET offset. */
  function Window(rows: seq<File>, offset: nat, limit: nat): seq<File> {
    rows[Clamp(offset, |rows|)..Clamp(offset + limit, |rows|)]
  }

  function Page(rows: seq<File>, page: nat, limit: nat): seq<File>
    requires page >= 1
  {
    Window(rows, RowsOn(page - 1, limit), limit)
  }

  /** A page in numbers: its length, and where its rows stand in the list. */
  lemma PageInNumbers(rows: seq<File>, page: nat, limit: nat)
    requires page >= 1 && limit >= 1
    ensures var skip := (page - 1) * limit;
      && 0 <= skip == RowsOn(page - 1, limit)
      && |Page(rows, page, limit)|
           == (if |rows| <= skip then 0 else if |rows| - skip < limit then |rows| - skip else limit)
      && forall i | 0 <= i < |Page(rows, page, limit)| :: Page(rows, page, limit)[i] == rows[skip + i]
  {
    RowsOnIsProduct(page - 1, limit);
  }

  /** The errors of the two queries, and the row at which reading fails; past the last row it is the end of
      the iteration that does. */
  datatype ListFaults = ListFaults(count: Option<Error>, query: Option<Error>, scan: Option<nat>)

  predicate ScanFails(rows: seq<File>, fault: Option<nat>) {
    fault.Some? && fault.value <= |rows|
  }

  /** Reads the rows of a query one by one and hands out what it has read, error or not. */
  method ScanRows(rows: seq<File>, fault: Option<nat>) returns (files: seq<File>, error: Option<Error>)
    ensures error.Some? <==> ScanFails(rows, fault)
    ensures files == if ScanFails(rows, fault) then rows[..fault.value] else rows
  {
    files := [];
    var next := 0;
    while next < |rows|
      invariant 0 <= next <= |rows|
      invariant files == rows[..next]
      invariant fault.Some? ==> fault.value >= next
    {
      if fault == Some(next) {
        return files, Some(Other(1));
      }
      files := files + [rows[next]];
      next := next + 1;
    }
    return files, if fault == Some(next) then Some(Other(2)) else None;
  }

  /** Counts the user's live files and reads one page of them. An error of a query leaves nothing to return;
      one in reading leaves the rows read so far and the total. */
  method GetFilesByUserID(scan: seq<File>, user: int, now: int, page: nat, limit: nat, f: ListFaults)
    returns (files: seq<File>, total: nat, error: Option<Error>)
    requires 1 <= page && 1 <= limit
    ensures var all := LiveFiles(scan, user, now);
      if f.count.Some? then files == [] && total == 0 && error == f.count
      else if all == [] then files == [] && total == 0 && error == None
      else if f.query.Some? || Offset(page, limit) < 0 then files == [] && total == 0 && error.Some?
      else
        var rows := Window(all, Offset(page, limit), limit);
        && total == |all|
        && (error.Some? <==> ScanFails(rows, f.scan))
        && files == if ScanFails(rows, f.scan) then rows[..f.scan.value] else rows
    ensures error == None && Fits(page, limit) ==>
              total == |LiveFiles(scan, user, now)| && files == Page(LiveFiles(scan, user, now), page, limit)
    ensures var all, skip := LiveFiles(scan, user, now), (page - 1) * limit;
      f == ListFaults(None, None, None) && 0 <= skip <= 0x7FFF_FFFF_FFFF_FFFF ==>
        && error == None && total == |all|
        && |files| == (if |all| <= skip then 0 else if |all| - skip < limit then |all| - skip else limit)
        && forall i | 0 <= i < |files| :: files[i] == all[skip + i]
  {
    WrapIsExactInRange(RowsOn(page - 1, limit));
    PageInNumbers(LiveFiles(scan, user, now), page, limit);
    if f.count.Some? {
      return [], 0, f.count;
    }
    var all := LiveFiles(scan, user, now);
    total := |all|;
    if total == 0 {
      return [], 0, None;
    }
    var offset := Offset(page, limit);
    if f.query.Some? {
      return [], 0, f.query;
    }
    if offset < 0 {
      return [], 0, Some(Other(0));
    }
    files, error := ScanRows(Window(all, offset, limit), f.scan);
    if Fits(page, limit) {
      assert Window(all, offset, limit) == Page(all, page, limit);
    }
  }

  // ---------------------------------------------------------------- pages make up the list

  /** Listed are exactly the user's live rows. */
  lemma {:induction false} ListedAreLive(scan: seq<File>, user: int, now: int, f: File)
    ensures f in LiveFiles(scan, user, now) <==> f in scan && f.1.owner == user && f.1.expiresAt > now
    decreases |scan|
  {
    if scan != [] {
      ListedAreLive(scan[1..], user, now, f);
      assert f in scan <==> f == scan[0] || f in scan[1..];
    }
  }

  /** A scan without repetition is listed without repetition. */
  lemma {:induction false} ListedOnce(scan: seq<File>, user: int, now: int)
    requires forall i, j | 0 <= i < j < |scan| :: scan[i].0 != scan[j].0
    ensures var l := LiveFiles(scan, user, now); forall i, j | 0 <= i < j < |l| :: l[i].0 != l[j].0
    decreases |scan|
  {
    if scan != [] {
      var rest := LiveFiles(scan[1..], user, now);
      ListedOnce(scan[1..], user, now);
      forall k | 0 <= k < |rest| ensures rest[k].0 != scan[0].0 {
        ListedAreLive(scan[1..], user, now, rest[k]);
        assert rest[k] in rest;
      }
    }
  }

  /** Pages 1 to `count`, one after the other. */
  function Pages(rows: seq<File>, count: nat, limit: nat): seq<File> {
    if count == 0 then [] else Pages(rows, count - 1, limit) + Page(rows, count, limit)
  }

  lemma {:induction false} PagesArePrefix(rows: seq<File>, count: nat, limit: nat)
    ensures Pages(rows, count, limit) == rows[..Clamp(RowsOn(count, limit), |rows|)]
    decreases count
  {
    if count > 0 {
      PagesArePrefix(rows, count - 1, limit);
      TakeThenWindow(rows, RowsOn(count - 1, limit), RowsOn(count, limit));
    }
  }

  lemma TakeThenWindow(rows: seq<File>, from: nat, to: nat)
    requires from <= to
    ensures rows[..Clamp(from, |rows|)] + rows[Clamp(from, |rows|)..Clamp(to, |rows|)] == rows[..Clamp(to, |rows|)]
  {
  }

  function PageCount(total: nat, limit: nat): nat
    requires limit >= 1
  {
    (total + limit - 1) / limit
  }

  lemma PagesCover(total: nat, limit: nat)
    requires limit >= 1
    ensures RowsOn(PageCount(total, limit), limit) >= total
  {
    RowsOnIsProduct(PageCount(total, limit), limit);
  }

  /** The first ceil(total / limit) pages are the whole list in order, and every page after them is empty. */
  lemma PagesMakeUpTheList(rows: seq<File>, limit: nat, page: nat)
    requires limit >= 1
    ensures Pages(rows, PageCount(|rows|, limit), limit) == rows
    ensures page > PageCount(|rows|, limit) ==> Page(rows, page, limit) == []
  {
    var count := PageCount(|rows|, limit);
    PagesArePrefix(rows, count, limit);
    PagesCover(|rows|, limit);
    if page > count {
      RowsOnGrows(count, page - 1, limit);
    }
  }

  /** The offset is the product the code computes, and survives int64 exactly when the product is in range;
      any page up to a hundredth of the range is safe. */
  lemma OffsetIsExact(page: nat, limit: nat)
    requires 1 <= page && 1 <= limit <= 100
    ensures Offset(page, limit) == Wrap64((page - 1) * limit)
    ensures Offset(page, limit) == (page - 1) * limit <==> Fits(page, limit)
    ensures page <= MAX_INT64 / 100 ==> Fits(page, limit)
  {
    RowsOnIsProduct(page - 1, limit);
    WrapIsExactInRange(RowsOn(page - 1, limit));
    AtMostHundredfold(page - 1, limit);
  }

  lemma {:induction false} AtMostHundredfold(pages: nat, limit: nat)
    requires limit <= 100
    ensures RowsOn(pages, limit) <= 100 * pages
    decreases pages
  {
    if pages > 0 {
      AtMostHundredfold(pages - 1, limit);
    }
  }
}
