/** Bounds on what the limiter lets through, over whole logs of one key. */
module RateLimitingBounds {
  import opened Entities
  import opened RateLimiting

  /** An attempt to give, and a window and a block that last. */
  predicate Lasting(p: Params) {
    p.max >= 1 && p.window >= 1 && p.block >= 1
  }

  /** The Resets at times in [from, to). */
  ghost function ResetsIn(log: seq<Call>, from: int, to: int): nat {
    if log == [] then 0 else
      var c := log[|log| - 1];
      ResetsIn(log[..|log| - 1], from, to) + (if c.Cleared? && from <= c.time < to then 1 else 0)
  }

  /** The calls allowed at times in [from, to). */
  ghost function AllowedIn(log: seq<Call>, from: int, to: int): nat {
    if log == [] then 0 else
      var c := log[|log| - 1];
      AllowedIn(log[..|log| - 1], from, to) + (if c.Asked? && c.allowed && from <= c.time < to then 1 else 0)
  }

  /** The last call opened a window. */
  predicate Opens(log: seq<Call>, p: Params) {
    |log| > 0 && log[|log| - 1].Asked? && log[|log| - 1].allowed && Opener(log, p) == |log| - 1
  }

  /** The windows opened at times in [from, to). */
  ghost function WindowsIn(log: seq<Call>, p: Params, from: int, to: int): nat {
    if log == [] then 0 else
      WindowsIn(log[..|log| - 1], p, from, to)
      + (if Opens(log, p) && from <= log[|log| - 1].time < to then 1 else 0)
  }

  lemma {:induction false} FaithfulAt(log: seq<Call>, p: Params, i: nat)
    requires Faithful(log, p) && i < |log|
    ensures Faithful(log[..i], p) && AllBefore(log[..i], log[i].time)
    ensures log[i].Asked? ==> log[i].allowed == Decide(log[..i], p, log[i].time)
    decreases |log|
  {
    var n := |log| - 1;
    if i < n {
      FaithfulAt(log[..n], p, i);
      assert log[..n][..i] == log[..i];
    }
  }

  /** The allowed calls of the window the log ends in; a full window after a refusal or a Reset, which
      leave no window open. */
  function Current(log: seq<Call>, p: Params): nat
    requires p.max >= 0
  {
    if log == [] then 0
    else if log[|log| - 1].Cleared? || !log[|log| - 1].allowed then p.max
    else |log| - Opener(log, p)
  }

  lemma {:induction false} WindowNeverOverfull(log: seq<Call>, p: Params)
    requires Faithful(log, p) && p.max >= 1
    ensures Current(log, p) <= p.max
    decreases |log|
  {
    if |log| > 1 {
      WindowNeverOverfull(log[..|log| - 1], p);
    }
  }

  lemma {:induction false} NothingBefore(log: seq<Call>, p: Params, from: int, to: int)
    requires Faithful(log, p)
    requires log != [] ==> log[|log| - 1].time < from
    ensures AllowedIn(log, from, to) == 0 && WindowsIn(log, p, from, to) == 0
    decreases |log|
  {
    if log != [] {
      NothingBefore(log[..|log| - 1], p, from, to);
    }
  }

  /** Each window opened in the interval, and the one open when it starts, lets at most `max` through. */
  lemma {:induction false} AllowedPerWindow(log: seq<Call>, p: Params, from: int, to: int)
    requires Faithful(log, p) && p.max >= 1
    ensures AllowedIn(log, from, to) <= Times(WindowsIn(log, p, from, to), p.max) + p.max
    ensures (log == [] || log[|log| - 1].time < to) ==>
              AllowedIn(log, from, to) <= Times(WindowsIn(log, p, from, to), p.max) + Current(log, p)
    decreases |log|
  {
    if log != [] {
      var n := |log| - 1;
      var before := log[..n];
      AllowedPerWindow(before, p, from, to);
      WindowNeverOverfull(before, p);
      WindowNeverOverfull(log, p);
      if log[n].time < from {
        NothingBefore(log, p, from, to);
      } else if log[n].Cleared? || !log[n].allowed {
        assert WindowsIn(log, p, from, to) == WindowsIn(before, p, from, to);
      } else if Opens(log, p) {
        assert Current(log, p) == 1;
      } else {
        assert WindowsIn(log, p, from, to) == WindowsIn(before, p, from, to);
        assert Current(log, p) == Current(before, p) + 1;
      }
    }
  }

  // ---------------------------------------------------------------- spacing of windows

  function Min(a: int, b: int): int {
    if a < b then a else b
  }

  /** The shortest time between the openings of two windows without a Reset between them. */
  function Spacing(p: Params): int {
    1000 * Min(p.window, p.block)
  }

  /** When the latest window of the log was opened. */
  ghost function LatestOpening(log: seq<Call>, p: Params): Option<int>
    decreases |log|
  {
    if log == [] then None
    else if Opens(log, p) then Some(log[|log| - 1].time)
    else LatestOpening(log[..|log| - 1], p)
  }

  /** The latest window is the one the log's last call is in, and every refusal comes after a window. */
  lemma {:induction false} OpeningsAreLatest(log: seq<Call>, p: Params)
    requires Faithful(log, p) && p.max >= 1 && log != []
    ensures LatestOpening(log, p).Some? ==> LatestOpening(log, p).value <= log[|log| - 1].time
    ensures log[|log| - 1].Asked? ==> LatestOpening(log, p).Some?
    ensures log[|log| - 1].Asked? && log[|log| - 1].allowed ==>
              LatestOpening(log, p) == Some(log[Opener(log, p)].time)
    decreases |log|
  {
    if |log| > 1 {
      OpeningsAreLatest(log[..|log| - 1], p);
    }
  }

  /** Windows that open within the spacing of the one before them have a Reset between the two. */
  lemma OpeningIsFar(log: seq<Call>, p: Params)
    requires Faithful(log, p) && Lasting(p) && Opens(log, p)
    requires LatestOpening(log[..|log| - 1], p).Some?
    ensures var n := |log| - 1;
      var latest := LatestOpening(log[..n], p).value;
      n > 0 && latest <= log[n].time && (log[n - 1].Asked? ==> latest + Spacing(p) <= log[n].time)
  {
    var n := |log| - 1;
    OpeningsAreLatest(log[..n], p);
    FaithfulAt(log, p, n);
  }

  lemma NextMultiple(s: int, d: int)
    ensures s * (d + 1) == s * d + s
  {
  }

  lemma Nonpositive(s: int, d: int)
    requires s >= 0 && d <= 0
    ensures s * d <= 0
  {
  }

  /** The windows of the interval that no Reset in it accounts for, less the first. */
  ghost function Spaced(log: seq<Call>, p: Params, from: int, to: int): int {
    WindowsIn(log, p, from, to) - 1 - ResetsIn(log, from, to)
  }

  /** Where the latest opening lies: as many spacings into the interval, and one more if a Reset that has
      not been followed by a window yet is among those counted. */
  ghost predicate WellSpaced(log: seq<Call>, p: Params, from: int, to: int) {
    log != [] && LatestOpening(log, p).Some? &&
    var d := Spaced(log, p, from, to) + (if log[|log| - 1].Cleared? then 1 else 0);
    from + Spacing(p) * d <= LatestOpening(log, p).value
  }

  /** Windows opened in [from, to) are spaced out, but for one more with each Reset in it. */
  lemma {:induction false} WindowsAreSpaced(log: seq<Call>, p: Params, from: int, to: int)
    requires Faithful(log, p) && Lasting(p)
    requires WindowsIn(log, p, from, to) >= 1
    ensures from + Spacing(p) * Spaced(log, p, from, to) < to
    ensures log[|log| - 1].time < to ==> WellSpaced(log, p, from, to)
    decreases |log|
  {
    var n := |log| - 1;
    var before := log[..n];
    if log[n].time < from {
      NothingBefore(log, p, from, to);
    } else if WindowsIn(before, p, from, to) == 0 {
      Nonpositive(Spacing(p), Spaced(log, p, from, to));
    } else {
      WindowsAreSpaced(before, p, from, to);
      NextMultiple(Spacing(p), Spaced(before, p, from, to));
      NextMultiple(Spacing(p), Spaced(before, p, from, to) - 1);
      if Opens(log, p) && log[n].time < to {
        OpeningIsFar(log, p);
      }
    }
  }

  function CeilDiv(a: int, b: int): int
    requires b > 0
  {
    (a + b - 1) / b
  }

  lemma SpacedCount(w: int, m: int, t: int)
    requires m > 0 && t >= 0 && m * (w - 1) < t
    ensures w <= CeilDiv(t, m)
  {
    var q := CeilDiv(t, m);
    assert q * m >= t;
    if w > q {
      Monotone(q, w - 1, m);
    }
  }

  lemma Monotone(a: int, b: int, m: int)
    requires a <= b && 0 <= m
    ensures a * m <= b * m
  {
  }

  /** In any interval [from, to) the limiter allows at most max * (ceil(T / min(window, block)) + 1 + r) calls
      on a key, where T is the length of the interval and r the number of Resets of the key in it. */
  lemma AllowedInInterval(log: seq<Call>, p: Params, from: int, to: int)
    requires Faithful(log, p) && Lasting(p) && from <= to
    ensures AllowedIn(log, from, to) <= p.max * (CeilDiv(to - from, Spacing(p)) + 1 + ResetsIn(log, from, to))
  {
    var w: int, r: int := WindowsIn(log, p, from, to), ResetsIn(log, from, to);
    AllowedPerWindow(log, p, from, to);
    if w == 0 {
      assert CeilDiv(to - from, Spacing(p)) >= 0;
    } else {
      WindowsAreSpaced(log, p, from, to);
      SpacedCount(w - r, Spacing(p), to - from);
    }
    FewWindows(w, p.max, CeilDiv(to - from, Spacing(p)) + r);
  }

  lemma FewWindows(w: nat, max: int, c: int)
    requires w <= c && max >= 0
    ensures Times(w, max) + max <= max * (c + 1)
  {
    TimesIsProduct(w, max);
    OneMore(w, max);
    Monotone(w + 1, c + 1, max);
  }

  // ---------------------------------------------------------------- blocking

  /** The most recent refusal of the log, if no Reset came after it. */
  ghost function LastRefusal(log: seq<Call>): Option<int>
  {
    if log == [] || log[|log| - 1].Cleared? then None
    else if !log[|log| - 1].allowed then Some(log[|log| - 1].time)
    else None
  }

  /** A call right after a refusal is allowed exactly when the block since that refusal is over; a refusal
      in between counts as the refusal. */
  lemma BlockedUntil(log: seq<Call>, p: Params, i: nat)
    requires Faithful(log, p) && i < |log| && log[i].Asked? && LastRefusal(log[..i]).Some?
    ensures log[i].allowed <==> log[i].time >= LastRefusal(log[..i]).value + 1000 * p.block
  {
    FaithfulAt(log, p, i);
  }

  /** A caller refused at `r` and retrying at gaps shorter than the block is not allowed until a Reset. */
  lemma {:induction false} HastyRetriesNeverPass(log: seq<Call>, p: Params, r: nat, i: nat)
    requires Faithful(log, p) && r < i < |log|
    requires forall k | r <= k <= i :: log[k].Asked?
    requires !log[r].allowed
    requires forall k | r < k <= i :: log[k].time < log[k - 1].time + 1000 * p.block
    ensures !log[i].allowed
    decreases i
  {
    if i > r + 1 {
      HastyRetriesNeverPass(log, p, r, i - 1);
    }
    assert log[..i][i - 1] == log[i - 1];
    BlockedUntil(log, p, i);
  }
}
