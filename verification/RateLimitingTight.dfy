/** The most calls a limiter allows in an interval of a given length: the bound, and logs that reach it. */
module RateLimitingTight {
  import opened Entities
  import opened RateLimiting
  import opened RateLimitingBounds

  /** The most calls allowed in an interval of `t` milliseconds by windows of `max` calls that are `s` apart.
      A full window at each multiple of `s` that fits, and, when there is room to spare, one that opened
      before the interval with all its calls but the first. */
  function MostOf(max: int, s: int, t: int): int
    requires s > 0 && t >= 1
  {
    max * ((t - 1) / s + 1) + (if (t - 1) % s == 0 then 0 else max - 1)
  }

  function Most(p: Params, t: int): int
    requires Lasting(p) && t >= 1
  {
    MostOf(p.max, Spacing(p), t)
  }

  // ---------------------------------------------------------------- the window open at the start

  /** The last call was allowed in a window opened before `from`. */
  predicate Carried(log: seq<Call>, p: Params, from: int) {
    log != [] && log[|log| - 1].Asked? && log[|log| - 1].allowed && log[Opener(log, p)].time < from
  }

  /** The calls allowed at times in [from, to), in windows opened before. */
  ghost function CarriedIn(log: seq<Call>, p: Params, from: int, to: int): nat {
    if log == [] then 0 else
      CarriedIn(log[..|log| - 1], p, from, to)
      + (if Carried(log, p, from) && from <= log[|log| - 1].time < to then 1 else 0)
  }

  lemma {:induction false} NothingCarriedBefore(log: seq<Call>, p: Params, from: int, to: int)
    requires Faithful(log, p)
    requires log != [] ==> log[|log| - 1].time < from
    ensures CarriedIn(log, p, from, to) == 0
    decreases |log|
  {
    if log != [] {
      NothingCarriedBefore(log[..|log| - 1], p, from, to);
    }
  }

  /** A call allowed in the window that the calls before it are in. */
  lemma GoesOn(log: seq<Call>, p: Params)
    requires Faithful(log, p) && log != [] && log[|log| - 1].Asked? && log[|log| - 1].allowed && !Opens(log, p)
    ensures var n := |log| - 1;
      && n > 0 && log[n - 1].Asked? && log[n - 1].allowed && Opener(log[..n], p) == Opener(log, p)
      && log[n - 1].time <= log[n].time < log[Opener(log, p)].time + 1000 * p.window
      && n - Opener(log, p) < p.max
  {
  }

  /** Its opening call lies before the interval, so that one at least is missing. */
  lemma {:induction false} CarriedIsLess(log: seq<Call>, p: Params, from: int, to: int)
    requires Faithful(log, p) && p.max >= 1
    ensures CarriedIn(log, p, from, to) <= p.max - 1
    ensures Carried(log, p, from) && log[|log| - 1].time >= from ==>
              CarriedIn(log, p, from, to) <= |log| - 1 - Opener(log, p)
    decreases |log|
  {
    if log != [] {
      var n := |log| - 1;
      CarriedIsLess(log[..n], p, from, to);
      if Carried(log, p, from) && log[n].time >= from {
        GoesOn(log, p);
        if log[n - 1].time < from {
          NothingCarriedBefore(log[..n], p, from, to);
        }
      }
    }
  }

  /** Every allowed call of the interval is in a window opened in it, or carried. */
  lemma {:induction false} AllowedOrCarried(log: seq<Call>, p: Params, from: int, to: int)
    requires Faithful(log, p) && p.max >= 1
    ensures AllowedIn(log, from, to) <= Times(WindowsIn(log, p, from, to), p.max) + CarriedIn(log, p, from, to)
    ensures log != [] && log[|log| - 1].Asked? && log[|log| - 1].allowed && !Carried(log, p, from)
              && log[|log| - 1].time < to ==>
              && WindowsIn(log, p, from, to) >= 1
              && AllowedIn(log, from, to) <= Times(WindowsIn(log, p, from, to) - 1, p.max)
                                             + (|log| - Opener(log, p)) + CarriedIn(log, p, from, to)
    decreases |log|
  {
    if log != [] {
      var n := |log| - 1;
      AllowedOrCarried(log[..n], p, from, to);
      if log[n].Asked? && log[n].allowed && !Opens(log, p) {
        GoesOn(log, p);
      }
    }
  }

  // ---------------------------------------------------------------- openings at the start

  lemma {:induction false} SplitWindows(log: seq<Call>, p: Params, a: int, b: int, c: int)
    requires a <= b <= c
    ensures WindowsIn(log, p, a, c) == WindowsIn(log, p, a, b) + WindowsIn(log, p, b, c)
    ensures ResetsIn(log, a, c) == ResetsIn(log, a, b) + ResetsIn(log, b, c)
    decreases |log|
  {
    if log != [] {
      SplitWindows(log[..|log| - 1], p, a, b, c);
    }
  }

  lemma {:induction false} LatestIsInside(log: seq<Call>, p: Params, from: int, to: int)
    requires Faithful(log, p) && p.max >= 1 && WindowsIn(log, p, from, to) >= 1
    ensures LatestOpening(log, p).Some? && LatestOpening(log, p).value >= from
    decreases |log|
  {
    var n := |log| - 1;
    if log[n].time < from {
      NothingBefore(log, p, from, to);
    } else if !Opens(log, p) {
      LatestIsInside(log[..n], p, from, to);
    }
  }

  lemma NoWindowWhenCarried(log: seq<Call>, p: Params, from: int, to: int)
    requires Faithful(log, p) && p.max >= 1 && Carried(log, p, from)
    ensures WindowsIn(log, p, from, to) == 0
  {
    OpeningsAreLatest(log, p);
    if WindowsIn(log, p, from, to) >= 1 {
      LatestIsInside(log, p, from, to);
    }
  }

  /** A Reset at `from` that no window has followed yet. */
  function Unused(log: seq<Call>, from: int): int {
    if log != [] && log[|log| - 1] == Cleared(from) then 1 else 0
  }

  /** While a window carries calls into the interval, another opens at its very start only after a Reset. */
  lemma {:induction false} StartNeedsReset(log: seq<Call>, p: Params, from: int, to: int)
    requires Faithful(log, p) && Lasting(p) && CarriedIn(log, p, from, to) > 0
    ensures WindowsIn(log, p, from, from + 1) + Unused(log, from) <= ResetsIn(log, from, from + 1)
    decreases |log|
  {
    var n := |log| - 1;
    if log[n].time < from {
      NothingCarriedBefore(log, p, from, to);
    } else if Carried(log, p, from) {
      NoWindowWhenCarried(log, p, from, from + 1);
    } else {
      StartNeedsReset(log[..n], p, from, to);
      if n > 0 && log[n - 1].time < from {
        NothingCarriedBefore(log[..n], p, from, to);
      }
      if Opens(log, p) && log[n].time == from {
        OpensAfterReset(log, p, from);
      }
    }
  }

  lemma OpensAfterReset(log: seq<Call>, p: Params, from: int)
    requires Faithful(log, p) && Lasting(p) && Opens(log, p)
    requires |log| > 1 && log[|log| - 1].time == from == log[|log| - 2].time
    ensures log[|log| - 2] == Cleared(from)
  {
    var n := |log| - 1;
    var before := log[..n];
    assert log[n].allowed == Decide(before, p, from);
    if log[n - 1].Asked? && log[n - 1].allowed {
      if Opens(before, p) {
        assert before[Opener(before, p)].time == from;
      } else {
        GoesOn(before, p);
      }
    }
  }

  // ---------------------------------------------------------------- the bound

  lemma DivIs(x: int, s: int, q: int)
    requires s > 0 && q * s <= x < q * s + s
    ensures x / s == q
  {
    var r := x / s;
    assert r * s <= x < r * s + s;
    if r < q {
      OneMore(r, s);
      Monotone(r + 1, q, s);
    } else if q < r {
      OneMore(q, s);
      Monotone(q + 1, r, s);
    }
  }

  lemma CeilIs(t: nat, s: int)
    requires s > 0
    ensures CeilDiv(t, s) == t / s + (if t % s == 0 then 0 else 1)
    ensures CeilDiv(t + 1, s) == t / s + 1
  {
    var q := t / s;
    assert t == q * s + t % s;
    OneMore(q, s);
    if t % s == 0 {
      DivIs(t + s - 1, s, q);
    } else {
      DivIs(t + s - 1, s, q + 1);
    }
    DivIs(t + 1 + s - 1, s, q + 1);
  }

  /** How many windows open, when one is open at the start and when none is. */
  lemma FewOpenings(log: seq<Call>, p: Params, from: int, to: int)
    requires Faithful(log, p) && Lasting(p) && from < to
    ensures WindowsIn(log, p, from, to) <= CeilDiv(to - from, Spacing(p)) + ResetsIn(log, from, to)
    ensures CarriedIn(log, p, from, to) > 0 ==>
              WindowsIn(log, p, from, to) <= CeilDiv(to - from - 1, Spacing(p)) + ResetsIn(log, from, to)
  {
    SpacedOut(log, p, from, to);
    if CarriedIn(log, p, from, to) > 0 {
      StartNeedsReset(log, p, from, to);
      SplitWindows(log, p, from, from + 1, to);
      SpacedOut(log, p, from + 1, to);
    }
  }

  lemma CeilIsNat(t: nat, s: int)
    requires s > 0
    ensures CeilDiv(t, s) >= 0
  {
  }

  lemma SpacedOut(log: seq<Call>, p: Params, from: int, to: int)
    requires Faithful(log, p) && Lasting(p) && from <= to
    ensures WindowsIn(log, p, from, to) <= CeilDiv(to - from, Spacing(p)) + ResetsIn(log, from, to)
  {
    var w: int, r: int := WindowsIn(log, p, from, to), ResetsIn(log, from, to);
    if w == 0 {
      CeilIsNat(to - from, Spacing(p));
    } else {
      WindowsAreSpaced(log, p, from, to);
      SpacedCount(w - r, Spacing(p), to - from);
    }
  }

  lemma Spread(max: int, c: int, r: int)
    ensures max * (c + r) == max * c + max * r
  {
  }

  lemma TimesAtMost(w: nat, max: int, c: int, r: int)
    requires w <= c + r && max >= 0
    ensures Times(w, max) <= max * c + max * r
  {
    TimesIsProduct(w, max);
    Monotone(w, c + r, max);
    Spread(max, c, r);
  }

  /** The windows of an interval, when the one open at its start has `x` calls in it. */
  lemma MostCovers(max: int, s: int, t: int, w: nat, r: nat, x: nat)
    requires max >= 1 && s > 0 && t >= 1 && x <= max - 1
    requires w <= CeilDiv(t, s) + r && (x > 0 ==> w <= CeilDiv(t - 1, s) + r)
    ensures Times(w, max) + x <= MostOf(max, s, t) + max * r
  {
    CeilIs(t - 1, s);
    var q := (t - 1) / s;
    Spread(max, q, 1);
    if x > 0 && (t - 1) % s == 0 {
      TimesAtMost(w, max, q, r);
    } else {
      TimesAtMost(w, max, q + 1, r);
    }
  }

  /** No interval of length T >= 1 sees more allowed calls than `Most`, but for a full window more with each
      Reset in it. */
  lemma AllowedAtMost(log: seq<Call>, p: Params, from: int, to: int)
    requires Faithful(log, p) && Lasting(p) && from < to
    ensures AllowedIn(log, from, to) <= Most(p, to - from) + p.max * ResetsIn(log, from, to)
  {
    AllowedOrCarried(log, p, from, to);
    CarriedIsLess(log, p, from, to);
    FewOpenings(log, p, from, to);
    MostCovers(p.max, Spacing(p), to - from, WindowsIn(log, p, from, to), ResetsIn(log, from, to),
               CarriedIn(log, p, from, to));
  }

  // ---------------------------------------------------------------- logs that reach it

  /** One more call at `t`, decided as the specification does. */
  function Ask(log: seq<Call>, p: Params, t: int): seq<Call> {
    log + [Asked(t, Decide(log, p, t))]
  }

  /** `n` calls at `t`. */
  function Burst(log: seq<Call>, p: Params, t: int, n: nat): seq<Call> {
    if n == 0 then log else Ask(Burst(log, p, t, n - 1), p, t)
  }

  ghost predicate NoReset(log: seq<Call>) {
    forall i | 0 <= i < |log| :: log[i].Asked?
  }

  /** A log without Resets that goes up to `t`. */
  ghost predicate Upto(log: seq<Call>, p: Params, t: int) {
    Faithful(log, p) && AllBefore(log, t) && NoReset(log)
  }

  /** The next call, at `t`, opens a window. */
  ghost predicate Fresh(log: seq<Call>, p: Params, t: int) {
    Upto(log, p, t) && Opens(Ask(log, p, t), p)
  }

  /** The log ends in a window opened at `o` by call `j`. */
  ghost predicate InWindow(log: seq<Call>, p: Params, j: nat, o: int) {
    && log != [] && log[|log| - 1].Asked? && log[|log| - 1].allowed
    && j < |log| && Opener(log, p) == j && log[j].time == o
  }

  /** After `log`, `b` has `n` more allowed calls, all of them at `t`. */
  ghost predicate Adds(log: seq<Call>, b: seq<Call>, t: int, n: nat, from: int, to: int) {
    AllowedIn(b, from, to) == AllowedIn(log, from, to) + (if from <= t < to then n else 0)
  }

  lemma AskGoesOn(log: seq<Call>, p: Params, t: int, from: int, to: int)
    requires Upto(log, p, t)
    ensures Upto(Ask(log, p, t), p, t)
    ensures Adds(log, Ask(log, p, t), t, if Decide(log, p, t) then 1 else 0, from, to)
  {
    FaithfulExtends(log, p, t);
    assert Ask(log, p, t)[..|log|] == log;
  }

  /** A call at `t` that still fits into the open window is allowed. */
  lemma AskInWindow(log: seq<Call>, p: Params, t: int, j: nat, o: int)
    requires InWindow(log, p, j, o) && t < o + 1000 * p.window && |log| - j < p.max
    ensures Decide(log, p, t) && InWindow(Ask(log, p, t), p, j, o)
  {
    assert Ask(log, p, t)[..|log|] == log;
  }

  lemma {:induction false} FillWindow(log: seq<Call>, p: Params, t: int, n: nat, j: nat, o: int, from: int, to: int)
    requires Upto(log, p, t) && InWindow(log, p, j, o)
    requires t < o + 1000 * p.window && |log| - j + n <= p.max
    ensures var b := Burst(log, p, t, n);
      Upto(b, p, t) && InWindow(b, p, j, o) && |b| == |log| + n && Adds(log, b, t, n, from, to)
    decreases n
  {
    hide Upto, InWindow;
    if n > 0 {
      FillWindow(log, p, t, n - 1, j, o, from, to);
      var b := Burst(log, p, t, n - 1);
      AskGoesOn(b, p, t, from, to);
      AskInWindow(b, p, t, j, o);
    }
  }

  lemma AskOpens(log: seq<Call>, p: Params, t: int)
    requires Fresh(log, p, t)
    ensures Decide(log, p, t) && InWindow(Ask(log, p, t), p, |log|, t)
  {
  }

  /** A window opened and filled at `t`. */
  lemma FullWindow(log: seq<Call>, p: Params, t: int, from: int, to: int)
    requires Lasting(p) && Fresh(log, p, t)
    ensures var b := Burst(Ask(log, p, t), p, t, p.max - 1);
      Upto(b, p, t) && InWindow(b, p, |log|, t) && |b| == |log| + p.max && Adds(log, b, t, p.max, from, to)
  {
    hide InWindow;
    var one := Ask(log, p, t);
    AskOpens(log, p, t);
    AskGoesOn(log, p, t, from, to);
    FillWindow(one, p, t, p.max - 1, |log|, t, from, to);
  }

  /** A window filled at `o` ends by itself. */
  lemma WindowEnds(log: seq<Call>, p: Params, j: nat, o: int, t: int)
    requires Upto(log, p, t) && InWindow(log, p, j, o) && t >= o + 1000 * p.window
    ensures Fresh(log, p, t)
  {
    assert Ask(log, p, t)[..|log|] == log;
  }

  /** Or, once it is full, by a refusal and the block after it. */
  lemma BlockEnds(log: seq<Call>, p: Params, j: nat, o: int, from: int, to: int)
    requires Lasting(p) && Upto(log, p, o) && InWindow(log, p, j, o) && |log| - j == p.max
    ensures var b := Ask(log, p, o); Fresh(b, p, o + 1000 * p.block) && Adds(log, b, o, 0, from, to)
  {
    AskGoesOn(log, p, o, from, to);
    var b := Ask(log, p, o);
    assert !Decide(log, p, o);
    assert Ask(b, p, o + 1000 * p.block)[..|b|] == b;
  }

  /** A full window, and whatever lets the next one open as soon as it can. */
  lemma Round(log: seq<Call>, p: Params, t: int, from: int, to: int) returns (b: seq<Call>)
    requires Lasting(p) && Fresh(log, p, t)
    ensures Fresh(b, p, t + Spacing(p)) && Adds(log, b, t, p.max, from, to)
  {
    hide Fresh, Upto, InWindow;
    b := Burst(Ask(log, p, t), p, t, p.max - 1);
    FullWindow(log, p, t, from, to);
    if p.window <= p.block {
      LaterToo(b, p, t, t + Spacing(p));
      WindowEnds(b, p, |log|, t, t + Spacing(p));
    } else {
      BlockEnds(b, p, |log|, t, from, to);
      b := Ask(b, p, t);
    }
  }

  lemma {:induction false} Rounds(log: seq<Call>, p: Params, t: int, q: nat, from: int, to: int) returns (b: seq<Call>)
    requires Lasting(p) && Fresh(log, p, t)
    requires from <= t && (q > 0 ==> t + Times(q - 1, Spacing(p)) < to)
    ensures Fresh(b, p, t + Times(q, Spacing(p)))
    ensures AllowedIn(b, from, to) == AllowedIn(log, from, to) + Times(q, p.max)
    decreases q
  {
    hide Fresh;
    b := log;
    if q > 0 {
      TimesGrows(if q > 1 then q - 2 else 0, q - 1, Spacing(p));
      b := Rounds(log, p, t, q - 1, from, to);
      b := Round(b, p, t + Times(q - 1, Spacing(p)), from, to);
    }
  }

  /** One call that opens a window. */
  lemma OpenOne(p: Params, o: int, to: int)
    requires o < 0
    ensures var one := Ask([], p, o);
      Upto(one, p, 0) && InWindow(one, p, 0, o) && |one| == 1 && AllowedIn(one, 0, to) == 0
  {
    StartsFresh(p, o);
    AskOpens([], p, o);
    AskGoesOn([], p, o, 0, to);
    LaterToo(Ask([], p, o), p, o, 0);
  }

  /** A window that opens before time 0 and keeps all its calls but one for then. */
  lemma OpenBefore(p: Params, to: int) returns (log: seq<Call>)
    requires Lasting(p) && to >= 1
    ensures Fresh(log, p, 1) && AllowedIn(log, 0, to) == p.max - 1
  {
    hide Fresh, Upto, InWindow, AllowedIn, Ask, Burst;
    var o := 1 - 1000 * p.window;
    var one := Ask([], p, o);
    OpenOne(p, o, to);
    FillWindow(one, p, 0, p.max - 1, 0, o, 0, to);
    log := Burst(one, p, 0, p.max - 1);
    LaterToo(log, p, 0, 1);
    WindowEnds(log, p, 0, o, 1);
  }

  lemma StartsFresh(p: Params, t: int)
    ensures Fresh([], p, t) && Upto([], p, t)
  {
  }

  lemma LaterToo(log: seq<Call>, p: Params, t: int, u: int)
    requires Upto(log, p, t) && t <= u
    ensures Upto(log, p, u)
  {
  }

  /** How often `s` goes into `t - 1`, as a sum. */
  lemma Quotient(s: int, t: int)
    requires s > 0 && t >= 1
    ensures (t - 1) / s >= 0 && Times((t - 1) / s, s) == t - 1 - (t - 1) % s
  {
    TimesIsProduct((t - 1) / s, s);
  }

  lemma MostAsSum(max: int, s: int, t: int)
    requires s > 0 && t >= 1
    ensures (t - 1) / s >= 0
    ensures MostOf(max, s, t) == Times((t - 1) / s + 1, max) + (if (t - 1) % s == 0 then 0 else max - 1)
  {
    TimesIsProduct((t - 1) / s + 1, max);
  }

  /** The bound is exact: for all parameters and every length some log without Resets reaches it. */
  lemma MostIsReached(p: Params, t: int) returns (log: seq<Call>)
    requires Lasting(p) && t >= 1
    ensures Faithful(log, p) && NoReset(log)
    ensures AllowedIn(log, 0, t) == Most(p, t)
  {
    var s := Spacing(p);
    Quotient(s, t);
    MostAsSum(p.max, s, t);
    log := ReachMost(p, t, (t - 1) / s, (t - 1) % s);
  }

  lemma ReachMost(p: Params, t: int, q: nat, rest: nat) returns (log: seq<Call>)
    requires Lasting(p) && t >= 1 && Times(q, Spacing(p)) + rest == t - 1
    ensures Faithful(log, p) && NoReset(log)
    ensures AllowedIn(log, 0, t) == Times(q + 1, p.max) + (if rest == 0 then 0 else p.max - 1)
  {
    if rest == 0 {
      StartsFresh(p, 0);
      log := Rounds([], p, 0, q + 1, 0, t);
    } else {
      log := OpenBefore(p, t);
      log := Rounds(log, p, 1, q + 1, 0, t);
    }
  }
}
