/** The arithmetic of quotas: what a user has stored and what is on its way. */
module QuotaUsage {
  import opened Entities
  import opened FilesTable
  import opened Access

  /** With at most `k` uploads in flight: at most k - 1 files more than the cap, and k times the most bytes
      the larger limit lets a user have. */
  ghost predicate Bounded(cfg: Config, count: int, bytes: int, k: nat) {
    count == 0 || (count <= cfg.maxUploadedFiles - 1 + k && bytes <= Times(k, LargerLimit(cfg) - 1))
  }

  /** Sizes of files by alias and by process: what a user has, and what is on its way. */
  datatype Usage = Usage(cfg: Config, committed: map<Alias, int>, pending: map<nat, int>) {
    function Count(): int {
      |committed| + |pending|
    }

    ghost function Bytes(): int {
      Sum(committed) + Sum(pending)
    }

    ghost predicate Within(k: nat) {
      Bounded(cfg, Count(), Bytes(), k)
    }

    predicate Fits() {
      && (forall a | a in committed :: 0 <= committed[a])
      && (forall t | t in pending :: 0 <= pending[t] < LargerLimit(cfg))
    }
  }

  ghost predicate Shrunk<K>(m: map<K, int>, n: map<K, int>) {
    m.Keys <= n.Keys && forall k | k in m :: m[k] == n[k]
  }

  lemma ShrinkingKeeps(u: Usage, v: Usage, k: nat)
    requires u.Within(k) && u.Fits() && v.cfg == u.cfg
    requires Shrunk(v.committed, u.committed) && Shrunk(v.pending, u.pending)
    ensures v.Within(k) && v.Fits()
  {
    assert v.Count() <= u.Count() && v.Bytes() <= u.Bytes() by {
      SumSubset(v.committed, u.committed);
      SumSubset(v.pending, u.pending);
    }
    assert Bounded(v.cfg, v.Count(), v.Bytes(), k);
  }

  lemma OneMorePending(pending: map<nat, int>, t: nat, size: int, most: int)
    requires t !in pending && forall u | u in pending :: pending[u] <= most
    ensures Sum(pending[t := size]) <= Times(|pending|, most) + size && |pending[t := size]| == |pending| + 1
  {
    SumInsert(pending, t, size);
    SumBound(pending, most);
  }

  lemma RoomForOne(n: nat, k: nat, x: int)
    requires n < k && x >= 0
    ensures Times(n, x) + x <= Times(k, x)
  {
    TimesGrows(n, k - 1, x);
  }

  /** Files in flight are each below the larger limit; one more that fits on top of the committed ones keeps
      the total within `k` times what fits. */
  lemma AdmissionKeeps(u: Usage, t: nat, size: int, k: nat)
    requires u.Within(k) && u.Fits()
    requires t !in u.pending && |u.pending[t := size]| <= k
    requires |u.committed| < u.cfg.maxUploadedFiles
    requires 0 <= size && 0 <= Sum(u.committed) && Sum(u.committed) + size < LargerLimit(u.cfg)
    ensures var v := u.(pending := u.pending[t := size]); v.Within(k) && v.Fits()
  {
    var most := LargerLimit(u.cfg) - 1;
    OneMorePending(u.pending, t, size, most);
    RoomForOne(|u.pending|, k, most);
    var v := u.(pending := u.pending[t := size]);
    assert v.Count() <= u.cfg.maxUploadedFiles - 1 + k && v.Bytes() <= Times(k, most);
    assert Bounded(v.cfg, v.Count(), v.Bytes(), k);
  }

  /** A file in flight is committed. */
  lemma CommitKeeps(u: Usage, t: nat, a: Alias, k: nat)
    requires u.Within(k) && u.Fits()
    requires t in u.pending && a !in u.committed
    ensures var v := Usage(u.cfg, u.committed[a := u.pending[t]], u.pending - {t}); v.Within(k) && v.Fits()
  {
    var v := Usage(u.cfg, u.committed[a := u.pending[t]], u.pending - {t});
    assert v.Count() == u.Count() && v.Bytes() == u.Bytes() by {
      SumInsert(u.committed, a, u.pending[t]);
      SumRemove(u.pending, t);
    }
    assert Bounded(v.cfg, v.Count(), v.Bytes(), k);
  }

  lemma NothingIsNegative(u: Usage)
    requires u.Fits()
    ensures 0 <= Sum(u.committed) && 0 <= Sum(u.pending)
    ensures u.Count() == 0 ==> u.Bytes() == 0
  {
    assert 0 <= Sum(u.committed) by {
      SumSubset(map[], u.committed);
    }
    assert 0 <= Sum(u.pending) by {
      SumSubset(map[], u.pending);
    }
    if u.Count() == 0 {
      assert u.committed == map[] && u.pending == map[];
    }
  }

  lemma NoOverflowAtCheck(u: Usage, k: nat, size: int)
    requires u.Within(k) && u.Fits()
    requires 0 <= size <= MAX_INT64 && Times(k, LargerLimit(u.cfg) - 1) + size <= MAX_INT64
    ensures 0 <= Sum(u.committed)
    ensures InInt64(Sum(u.committed) + size)
  {
    NothingIsNegative(u);
    assert Bounded(u.cfg, u.Count(), u.Bytes(), k);
  }

  lemma OneFits(u: Usage)
    requires u.Within(1) && u.Fits() && u.cfg.maxUploadedFiles >= 1 && LargerLimit(u.cfg) >= 1
    ensures |u.committed| <= u.cfg.maxUploadedFiles && Sum(u.committed) < LargerLimit(u.cfg)
  {
    NothingIsNegative(u);
    TimesIsProduct(1, LargerLimit(u.cfg) - 1);
  }
}
