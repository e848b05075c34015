/** The Redis rate limiter: a counter with a time to live, against a specification that knows only
    the log of a key's own calls. Times are in milliseconds. */
module RateLimiting {
  import opened Entities

  /** Attempts and the two durations as the script receives them, in whole seconds. */
  datatype Params = Params(max: int, window: int, block: int)

  /** int(d.Seconds()) of a duration in nanoseconds: truncation toward zero. */
  function TruncSeconds(nanos: int): (s: int)
    ensures nanos >= 0 ==> s * 1_000_000_000 <= nanos < (s + 1) * 1_000_000_000
    ensures nanos <= 0 ==> (s - 1) * 1_000_000_000 < nanos <= s * 1_000_000_000
  {
    if nanos >= 0 then nanos / 1_000_000_000 else -((-nanos) / 1_000_000_000)
  }

  /** A key of the Redis store; it exists until `expireAt`. */
  datatype Counter = Counter(count: int, expireAt: Option<int>)

  // ---------------------------------------------------------------- specification by log

  /** What happened to a key, in order of time. */
  datatype Call =
    | Asked(time: int, allowed: bool)
    | Cleared(time: int)

  /** The last call opened a window, or lies in one opened by this earlier call: a window is opened by
      the first allowed call after nothing, a Reset, a refusal, or a window that has passed. */
  function Opener(log: seq<Call>, p: Params): nat
    requires |log| > 0 && log[|log| - 1].Asked? && log[|log| - 1].allowed
    ensures Opener(log, p) < |log|
    ensures log[Opener(log, p)].Asked? && log[Opener(log, p)].allowed
  {
    var n := |log| - 1;
    if n == 0 || log[n - 1].Cleared? || !log[n - 1].allowed then n
    else
      var j := Opener(log[..n], p);
      if log[n].time >= log[j].time + 1000 * p.window then n else j
  }

  /** Whether a call at `now` is allowed, given what happened before. After a refusal: once the block has
      passed since it. In a window: if fewer than `max` calls were allowed in it. */
  predicate Decide(log: seq<Call>, p: Params, now: int) {
    var n := |log|;
    if n == 0 || log[n - 1].Cleared? then true
    else if !log[n - 1].allowed then now >= log[n - 1].time + 1000 * p.block
    else
      var j := Opener(log, p);
      now >= log[j].time + 1000 * p.window || n - j < p.max
  }

  /** Every decision in the log is the one the specification makes, and time does not run backwards. */
  ghost predicate Faithful(log: seq<Call>, p: Params) {
    log == [] ||
    var n := |log| - 1;
    && Faithful(log[..n], p)
    && AllBefore(log[..n], log[n].time)
    && (log[n].Asked? ==> log[n].allowed == Decide(log[..n], p, log[n].time))
  }

  ghost predicate AllBefore(log: seq<Call>, now: int) {
    forall i | 0 <= i < |log| :: log[i].time <= now
  }

  // ---------------------------------------------------------------- the script on one key

  predicate Alive(c: Option<Counter>, now: int) {
    c.Some? && (c.value.expireAt.Some? ==> now < c.value.expireAt.value)
  }

  /** EXPIRE: a non-positive time to live deletes the key. */
  function Expire(count: int, seconds: int, now: int): Option<Counter> {
    if seconds <= 0 then None else Some(Counter(count, Some(now + 1000 * seconds)))
  }

  /** The count after INCR, which starts a missing or expired key at one. */
  function Incremented(c: Option<Counter>, now: int): int {
    if Alive(c, now) then c.value.count + 1 else 1
  }

  /** The script: INCR; EXPIRE window on the first call; EXPIRE block, which does nothing to a key that is
      gone, and refuse above `max`. */
  function Script(c: Option<Counter>, p: Params, now: int): (Option<Counter>, bool) {
    var count := Incremented(c, now);
    if count > p.max then (if count == 1 && p.window <= 0 then None else Expire(count, p.block, now), false)
    else if count == 1 then (Expire(1, p.window, now), true)
    else (Some(Counter(count, c.value.expireAt)), true)
  }

  /** The counter is what the log says: the size of the open window with its end, or a block. A window or
      block without a positive length leaves no counter. */
  ghost predicate Represents(c: Option<Counter>, log: seq<Call>, p: Params) {
    var n := |log|;
    if n == 0 || log[n - 1].Cleared? then c == None
    else if !log[n - 1].allowed then
      if p.block <= 0 then c == None
      else c.Some? && c.value.count > p.max && c.value.expireAt == Some(log[n - 1].time + 1000 * p.block)
    else
      var j := Opener(log, p);
      if p.window <= 0 then c == None && j == n - 1
      else c == Some(Counter(n - j, Some(log[j].time + 1000 * p.window))) && 1 <= n - j <= p.max
  }

  /** Refinement of one call: same decision, and the counter stays what the log says. That time does not
      run backwards matters to windows and blocks without a positive length only. */
  lemma ScriptRefinesLog(c: Option<Counter>, log: seq<Call>, p: Params, now: int)
    requires p.max >= 1 && Represents(c, log, p)
    requires (p.window >= 1 && p.block >= 1) || AllBefore(log, now)
    ensures Script(c, p, now).1 == Decide(log, p, now)
    ensures Represents(Script(c, p, now).0, log + [Asked(now, Decide(log, p, now))], p)
  {
    var next := log + [Asked(now, Decide(log, p, now))];
    assert next[..|log|] == log;
  }

  lemma FaithfulExtends(log: seq<Call>, p: Params, now: int)
    requires Faithful(log, p) && AllBefore(log, now)
    ensures Faithful(log + [Asked(now, Decide(log, p, now))], p)
    ensures Faithful(log + [Cleared(now)], p)
  {
    var next := log + [Asked(now, Decide(log, p, now))];
    assert next[..|log|] == log;
    assert (log + [Cleared(now)])[..|log|] == log;
  }

  /** A counter that may be relied on at `now`: it is what the log says, and the log what happened. */
  ghost predicate Sound(c: Option<Counter>, log: seq<Call>, p: Params, now: int) {
    Represents(c, log, p) && Faithful(log, p) && AllBefore(log, now)
  }

  lemma ScriptKeepsSound(c: Option<Counter>, log: seq<Call>, p: Params, now: int)
    requires p.max >= 1 && Sound(c, log, p, now)
    ensures var next := Script(c, p, now);
      next.1 == Decide(log, p, now) && Sound(next.0, log + [Asked(now, next.1)], p, now)
  {
    ScriptRefinesLog(c, log, p, now);
    FaithfulExtends(log, p, now);
  }

  lemma ResetKeepsSound(c: Option<Counter>, log: seq<Call>, p: Params, now: int)
    requires Sound(c, log, p, now)
    ensures Sound(None, log + [Cleared(now)], p, now)
  {
    FaithfulExtends(log, p, now);
  }

  // ---------------------------------------------------------------- keys

  function Key(field: string, value: string): string {
    "rate:" + field + ":" + value
  }

  /** The first field, with the colon that ends it, begins the second. */
  predicate Nested(f: string, g: string) {
    |f| < |g| && g[..|f| + 1] == f + ":"
  }

  ghost predicate KeysTell(f: string, g: string) {
    forall v, w | Key(f, v) == Key(g, w) :: f == g && v == w
  }

  lemma KeyTail(f: string, v: string)
    ensures Key(f, v)[5..] == f + ":" + v
  {
    assert Key(f, v) == "rate:" + (f + ":" + v);
  }

  lemma ShorterFieldIsNested(f: string, v: string, g: string, w: string)
    requires Key(f, v) == Key(g, w) && |f| < |g|
    ensures Nested(f, g)
  {
    KeyTail(f, v);
    KeyTail(g, w);
    var s := f + ":" + v;
    assert s[..|f| + 1] == f + ":" && s[..|g|] == (g + ":" + w)[..|g|] == g;
    assert g[..|f| + 1] == s[..|f| + 1];
  }

  lemma SameLengthSameFields(f: string, v: string, g: string, w: string)
    requires Key(f, v) == Key(g, w) && |f| == |g|
    ensures f == g && v == w
  {
    KeyTail(f, v);
    KeyTail(g, w);
    var s := f + ":" + v;
    var r := g + ":" + w;
    assert f == s[..|f|] && g == r[..|g|];
    assert v == s[|f| + 1..] && w == r[|g| + 1..];
  }

  lemma NestedFieldsCollide(f: string, g: string)
    requires Nested(f, g)
    ensures f != g && Key(f, g[|f| + 1..] + ":") == Key(g, "")
  {
    var rest := g[|f| + 1..];
    assert g == f + ":" + rest;
    assert "rate:" + f + ":" + (rest + ":") == "rate:" + (f + ":" + rest) + ":" + "";
  }

  /** Limiters share one store. Their keys tell fields and values apart exactly when neither field, with a
      colon after it, begins the other. */
  lemma KeysTellIffNotNested(f: string, g: string)
    ensures KeysTell(f, g) <==> !Nested(f, g) && !Nested(g, f)
  {
    if Nested(f, g) {
      NestedFieldsCollide(f, g);
    } else if Nested(g, f) {
      NestedFieldsCollide(g, f);
    } else {
      forall v, w | Key(f, v) == Key(g, w) ensures f == g && v == w {
        if |f| < |g| {
          ShorterFieldIsNested(f, v, g, w);
        } else if |g| < |f| {
          ShorterFieldIsNested(g, w, f, v);
        } else {
          SameLengthSameFields(f, v, g, w);
        }
      }
    }
  }

  /** In particular when no field has a colon in it. */
  lemma KeysAreInjective(f: string, v: string, g: string, w: string)
    requires ':' !in f && ':' !in g
    requires Key(f, v) == Key(g, w)
    ensures f == g && v == w
  {
    NestedHasColon(f, g);
    NestedHasColon(g, f);
    KeysTellIffNotNested(f, g);
  }

  lemma NestedHasColon(f: string, g: string)
    ensures Nested(f, g) ==> ':' in g
  {
    if Nested(f, g) {
      assert g[..|f| + 1][|f|] == ':';
    }
  }

  /** And not in general. */
  lemma ColonInFieldCollides()
    ensures Key("a:b", "c") == "rate:a:b:c" == Key("a", "b:c")
  {
    assert "rate:" + "a:b" + ":" + "c" == "rate:a:b:c";
    assert "rate:" + "a" + ":" + "b:c" == "rate:a:b:c";
  }

  // ---------------------------------------------------------------- runs over many keys

  /** A call of some limiter on its key, or a Reset of it. */
  datatype Request = Request(key: string, time: int, reset: bool)

  /** The store after serving the requests in order; `params` gives each key its limiter's parameters. */
  function Serve(params: string -> Params, rs: seq<Request>): map<string, Counter> {
    if rs == [] then map[] else
      var before := Serve(params, rs[..|rs| - 1]);
      var r := rs[|rs| - 1];
      var c := if r.reset then None else Script(Find(before, r.key), params(r.key), r.time).0;
      if c.Some? then before[r.key := c.value] else before - {r.key}
  }

  function Find(store: map<string, Counter>, key: string): Option<Counter> {
    if key in store then Some(store[key]) else None
  }

  /** What the specification makes of the requests on one key, which is all it looks at. */
  function Replay(p: Params, rs: seq<Request>, key: string): seq<Call> {
    if rs == [] then [] else
      var log := Replay(p, rs[..|rs| - 1], key);
      var r := rs[|rs| - 1];
      if r.key != key then log
      else if r.reset then log + [Cleared(r.time)]
      else log + [Asked(r.time, Decide(log, p, r.time))]
  }

  /** Time does not run backwards from one request to the next, nor to `now`. */
  ghost predicate InOrder(rs: seq<Request>, now: int) {
    && (forall i, j | 0 <= i < j < |rs| :: rs[i].time <= rs[j].time)
    && (forall i | 0 <= i < |rs| :: rs[i].time <= now)
  }

  lemma {:induction false} ReplayedBefore(p: Params, rs: seq<Request>, key: string, now: int)
    requires InOrder(rs, now)
    ensures AllBefore(Replay(p, rs, key), now)
    decreases |rs|
  {
    if rs != [] {
      ReplayedBefore(p, rs[..|rs| - 1], key, now);
    }
  }

  /** Over every sequence of requests on any keys, the next decision on a key is the one the
      specification reaches by replaying that key's own requests. */
  lemma {:induction false} LimiterRefinesLog(params: string -> Params, rs: seq<Request>, key: string, now: int)
    requires params(key).max >= 1
    requires (params(key).window >= 1 && params(key).block >= 1) || InOrder(rs, now)
    ensures Represents(Find(Serve(params, rs), key), Replay(params(key), rs, key), params(key))
    ensures Script(Find(Serve(params, rs), key), params(key), now).1
            == Decide(Replay(params(key), rs, key), params(key), now)
    decreases |rs|
  {
    var p := params(key);
    if rs != [] {
      var before := rs[..|rs| - 1];
      var r := rs[|rs| - 1];
      LimiterRefinesLog(params, before, key, r.time);
      if InOrder(rs, now) {
        ReplayedBefore(p, before, key, r.time);
      }
      ScriptRefinesLog(Find(Serve(params, before), key), Replay(p, before, key), p, r.time);
    }
    if InOrder(rs, now) {
      ReplayedBefore(p, rs, key, now);
    }
    ScriptRefinesLog(Find(Serve(params, rs), key), Replay(p, rs, key), p, now);
  }

  lemma {:induction false} CountsArePositive(params: string -> Params, rs: seq<Request>, key: string)
    ensures Find(Serve(params, rs), key).Some? ==> Find(Serve(params, rs), key).value.count >= 1
    decreases |rs|
  {
    if rs != [] {
      var before := rs[..|rs| - 1];
      CountsArePositive(params, before, key);
      CountsArePositive(params, before, rs[|rs| - 1].key);
    }
  }

  /** A limiter configured with no attempts lets nobody through, whatever happened before. */
  lemma NoAttemptsNoAccess(params: string -> Params, rs: seq<Request>, key: string, now: int)
    requires params(key).max < 1
    ensures !Script(Find(Serve(params, rs), key), params(key), now).1
  {
    CountsArePositive(params, rs, key);
  }

  /** Over every ordered sequence of requests the limiter with these parameters decides as the
      specification does. */
  ghost predicate AlwaysRefines(p: Params) {
    forall rs, key, now | InOrder(rs, now) ::
      Script(Find(Serve(k => p, rs), key), p, now).1 == Decide(Replay(p, rs, key), p, now)
  }

  /** The specification describes the limiter for exactly the configurations with at least one attempt,
      whatever their window and block. */
  lemma RefinesIffAttempts(p: Params)
    ensures AlwaysRefines(p) <==> p.max >= 1
  {
    if p.max >= 1 {
      forall rs, key, now | InOrder(rs, now)
        ensures Script(Find(Serve(k => p, rs), key), p, now).1 == Decide(Replay(p, rs, key), p, now)
      {
        LimiterRefinesLog(k => p, rs, key, now);
      }
    } else {
      assert InOrder([], 0) && Find(Serve(k => p, []), "") == None && Replay(p, [], "") == [];
    }
  }

  // ---------------------------------------------------------------- the store and its clients

  /** The Redis server as the limiters use it; `logs` records the calls on each key. */
  class Redis {
    var keys: map<string, Counter>
    var clock: int
    ghost var logs: map<string, seq<Call>>

    constructor (now: int)
      ensures keys == map[] && clock == now && logs == map[]
    {
      keys, clock, logs := map[], now, map[];
    }

    function Lookup(key: string): Option<Counter>
      reads this
    {
      if key in keys then Some(keys[key]) else None
    }

    ghost function Log(key: string): seq<Call>
      reads this
    {
      if key in logs then logs[key] else []
    }

    /** What the limiter with parameters `p` may rely on for its key. */
    ghost predicate Valid(key: string, p: Params)
      reads this
    {
      Sound(Lookup(key), Log(key), p, clock)
    }

    method Advance(now: int)
      requires now >= clock
      modifies this`clock
      ensures clock == now
      ensures forall key, p | old(Valid(key, p)) :: Valid(key, p)
    {
      clock := now;
      assert forall key, p | old(Valid(key, p)) :: Represents(Lookup(key), Log(key), p) && Faithful(Log(key), p);
      assert forall key | old(AllBefore(Log(key), clock)) :: AllBefore(Log(key), clock);
    }

    method Store(key: string, c: Option<Counter>)
      modifies this`keys
      ensures Lookup(key) == c
      ensures forall k | k != key :: Lookup(k) == old(Lookup(k))
    {
      keys := if c.Some? then keys[key := c.value] else keys - {key};
    }
  }

  class RateLimiter {
    const client: Redis
    const field: string
    const params: Params

    constructor (client: Redis, field: string, max: int, windowNanos: int, blockNanos: int)
      ensures this.client == client && this.field == field
      ensures params == Params(max, TruncSeconds(windowNanos), TruncSeconds(blockNanos))
    {
      this.client, this.field := client, field;
      this.params := Params(max, TruncSeconds(windowNanos), TruncSeconds(blockNanos));
    }

    /** Runs the script, whatever the parameters, on its key only; with an attempt to give, the decision is
        the specification's on the key's own log. */
    method Allow(value: string) returns (allowed: bool)
      modifies client`keys, client`logs
      ensures (client.Lookup(Key(field, value)), allowed)
           == Script(old(client.Lookup(Key(field, value))), params, client.clock)
      ensures params.max >= 1 && old(client.Valid(Key(field, value), params)) ==>
                && client.Valid(Key(field, value), params)
                && allowed == Decide(old(client.Log(Key(field, value))), params, client.clock)
      ensures client.Log(Key(field, value)) == old(client.Log(Key(field, value))) + [Asked(client.clock, allowed)]
      ensures forall k | k != Key(field, value) ::
                client.Lookup(k) == old(client.Lookup(k)) && client.Log(k) == old(client.Log(k))
    {
      var key := Key(field, value);
      ghost var c, log := client.Lookup(key), client.Log(key);
      if params.max >= 1 && Sound(c, log, params, client.clock) {
        ScriptKeepsSound(c, log, params, client.clock);
      }
      allowed := RunScript(key);
      client.logs := client.logs[key := log + [Asked(client.clock, allowed)]];
    }

    /** The commands of the script, one after the other. */
    method RunScript(key: string) returns (allowed: bool)
      modifies client`keys
      ensures (client.Lookup(key), allowed) == Script(old(client.Lookup(key)), params, client.clock)
      ensures forall k | k != key :: client.Lookup(k) == old(client.Lookup(k))
    {
      var count := Incremented(client.Lookup(key), client.clock);
      var expireAt := if client.Lookup(key).Some? then client.Lookup(key).value.expireAt else None;
      allowed := true;
      if count == 1 {
        client.Store(key, Expire(count, params.window, client.clock));
      } else {
        client.Store(key, Some(Counter(count, expireAt)));
      }
      if count > params.max {
        if client.Lookup(key).Some? {
          client.Store(key, Expire(count, params.block, client.clock));
        }
        allowed := false;
      }
    }

    method Reset(value: string)
      modifies client`keys, client`logs
      ensures client.Lookup(Key(field, value)) == None
      ensures old(client.Valid(Key(field, value), params)) ==> client.Valid(Key(field, value), params)
      ensures client.Log(Key(field, value)) == old(client.Log(Key(field, value))) + [Cleared(client.clock)]
      ensures forall k | k != Key(field, value) ::
                client.Lookup(k) == old(client.Lookup(k)) && client.Log(k) == old(client.Log(k))
    {
      var key := Key(field, value);
      if client.Valid(key, params) {
        ResetKeepsSound(client.Lookup(key), client.Log(key), params, client.clock);
      }
      client.Store(key, None);
      client.logs := client.logs[key := client.Log(key) + [Cleared(client.clock)]];
    }
  }
}
