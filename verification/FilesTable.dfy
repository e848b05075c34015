/** What each SQL statement of the repository reads from and writes to table `files`. */
module FilesTable {
  import opened Entities

  type Table = map<Alias, Row>

  /** `expires_at > NOW()`. */
  predicate Live(r: Row, now: int) {
    r.expiresAt > now
  }

  /** `expires_at < NOW()`; a row with `expires_at = NOW()` is neither live nor sweepable. */
  predicate Sweepable(r: Row, now: int) {
    r.expiresAt < now
  }

  /** A live row under this alias, the WHERE clause of every request statement but the UPDATE. */
  predicate HasLive(table: Table, alias: Alias, now: int) {
    alias in table && Live(table[alias], now)
  }

  /** The row an upload inserts. */
  function NewRow(up: UploadCommand, hash: string, now: int): Row {
    Row(up.name, up.size, up.max, now, now + up.ttl, hash, up.user)
  }

  /** UPDATE files SET downloads_left = left WHERE alias = alias: no row, no effect, no error. */
  function UpdateLeft(table: Table, alias: Alias, left: int): Table {
    if alias in table then table[alias := table[alias].(left := left)] else table
  }

  /** The aliases a sweep at `now` may take. */
  function SweepableAliases(table: Table, now: int): set<Alias> {
    set a | a in table && Sweepable(table[a], now)
  }

  /** A map's sum, taken key by key in no particular order: SUM(...) of a grouped query. */
  ghost function Sum<K>(m: map<K, int>): int {
    if m == map[] then 0 else
      var k :| k in m;
      m[k] + Sum(m - {k})
  }

  /** The order of summation does not matter: any key may be split off. */
  lemma {:induction false} SumSplit<K>(m: map<K, int>, k: K)
    requires k in m
    ensures Sum(m) == m[k] + Sum(m - {k})
    decreases |m|
  {
    var j :| j in m && Sum(m) == m[j] + Sum(m - {j});
    if j != k {
      SumSplit(m - {j}, k);
      SumSplit(m - {k}, j);
      assert m - {j} - {k} == m - {k} - {j};
    }
  }

  lemma SumInsert<K>(m: map<K, int>, k: K, v: int)
    requires k !in m
    ensures Sum(m[k := v]) == Sum(m) + v
    ensures |m[k := v]| == |m| + 1
  {
    SumSplit(m[k := v], k);
    assert m[k := v] - {k} == m;
  }

  lemma SumRemove<K>(m: map<K, int>, k: K)
    requires k in m
    ensures Sum(m - {k}) == Sum(m) - m[k]
    ensures |m - {k}| == |m| - 1
  {
    SumSplit(m, k);
    assert (m - {k}).Keys == m.Keys - {k};
  }

  /** Fewer keys with values bounded below by zero sum to less. */
  lemma {:induction false} SumSubset<K>(m: map<K, int>, n: map<K, int>)
    requires m.Keys <= n.Keys
    requires forall k | k in m :: m[k] == n[k]
    requires forall k | k in n :: n[k] >= 0
    ensures 0 <= Sum(m) <= Sum(n)
    ensures |m| <= |n|
    decreases |n|
  {
    if n == map[] {
      assert m == map[];
    } else {
      var k :| k in n;
      SumRemove(n, k);
      if k in m {
        SumRemove(m, k);
        SumSubset(m - {k}, n - {k});
      } else {
        SumSubset(m, n - {k});
      }
    }
  }

  /** Every value at most `bound`: the sum is at most the key count times `bound`. */
  lemma {:induction false} SumBound<K>(m: map<K, int>, bound: int)
    requires forall k | k in m :: m[k] <= bound
    ensures Sum(m) <= Times(|m|, bound)
    decreases |m|
  {
    if m != map[] {
      var k :| k in m;
      SumRemove(m, k);
      SumBound(m - {k}, bound);
    }
  }

  /** `SELECT COUNT(*), COALESCE(SUM(file_size), 0) ... WHERE user_id = u` sums these sizes;
      expired rows are included. */
  function UserSizes(table: Table, user: int): map<Alias, int> {
    map a | a in table && table[a].owner == user :: table[a].size
  }
}
