/** Token buckets kept per key in a least-recently-used cache, and the per-key room counters.
    Time is in seconds, as a real number. */
module RateLimit {
  import opened Options
  import opened Sequences
  import opened LruSpec
  import opened Lru

  const NANOS: real := 1000000000.0
  const MILLISECOND: int := 1000000

  /** Rate per second and burst. */
  datatype Limit = Limit(rate: real, burst: real)

  datatype Level = Level(tokens: real, last: real)

  predicate LimitOk(l: Limit) {
    l.rate > 0.0 && l.burst >= 0.0
  }

  predicate LevelOk(l: Limit, b: Level) {
    0.0 <= b.tokens <= l.burst
  }

  function Min(a: real, b: real): real {
    if a < b then a else b
  }

  function Pos(x: real): real {
    if x < 0.0 then 0.0 else x
  }

  function Refill(rate: real, seconds: real): real {
    seconds * rate
  }

  function Refilled(l: Limit, b: Level, now: real): Level {
    Level(if now > b.last then Min(b.tokens + Refill(l.rate, now - b.last), l.burst) else b.tokens, now)
  }

  function Draw(l: Limit, b: Level, n: real, now: real): (Level, bool) {
    var r := Refilled(l, b, now);
    if r.tokens >= n then (r.(tokens := r.tokens - n), true) else (r, false)
  }

  /** The nanoseconds a refused caller is told to wait: the deficit over the rate, cut to whole
      nanoseconds, or a millisecond where that leaves nothing. */
  function WaitNanos(l: Limit, r: Level, n: real): int
    requires l.rate > 0.0
  {
    var w := ((n - r.tokens) / l.rate * NANOS).Floor;
    if w <= 0 then MILLISECOND else w
  }

  class Bucket {
    var tokens: real
    var last: real
    const limit: Limit

    ghost function View(): Level
      reads this
    {
      Level(tokens, last)
    }

    constructor (limit: Limit, now: real)
      ensures this.limit == limit && View() == Level(limit.burst, now)
    {
      this.limit := limit;
      tokens, last := limit.burst, now;
    }

    method Take(n: real, now: real) returns (ok: bool, wait: int)
      requires limit.rate > 0.0
      modifies this
      ensures (View(), ok) == Draw(limit, old(View()), n, now)
      ensures wait == if ok then 0 else WaitNanos(limit, View(), n)
    {
      var elapsed := now - last;
      assert elapsed * limit.rate == Refill(limit.rate, now - last);
      if elapsed > 0.0 {
        tokens := tokens + elapsed * limit.rate;
        if tokens > limit.burst {
          tokens := limit.burst;
        }
      }
      last := now;
      if tokens >= n {
        tokens := tokens - n;
        return true, 0;
      }
      var needed := n - tokens;
      wait := (needed / limit.rate * NANOS).Floor;
      if wait <= 0 {
        wait := MILLISECOND;
      }
      ok := false;
    }
  }

  // ---------------------------------------------------------------- one bucket

  lemma Scaled(rate: real, x: real, y: real)
    requires rate > 0.0
    ensures x <= y ==> Refill(rate, x) <= Refill(rate, y)
    ensures Refill(rate, 0.0) == 0.0
  {
    if x <= y {
      Nonneg(y - x, rate);
    }
  }

  lemma TakeStaysInRange(l: Limit, b: Level, n: real, now: real)
    requires LimitOk(l) && LevelOk(l, b) && n >= 0.0
    ensures LevelOk(l, Draw(l, b, n, now).0) && Draw(l, b, n, now).0.last == now
  {
    hide Refill;
    Scaled(l.rate, 0.0, now - b.last);
  }

  lemma Nonneg(x: real, y: real)
    requires x >= 0.0 && y >= 0.0
    ensures x * y >= 0.0
  {
  }

  /** A caller refused n tokens at `now` is served when it asks again after d seconds, if nobody
      else takes any in between, exactly when d covers the deficit at the refill rate. */
  lemma RetryAfter(l: Limit, b: Level, n: real, now: real, d: real)
    requires LimitOk(l) && LevelOk(l, b) && 0.0 <= n <= l.burst && d >= 0.0
    requires !Draw(l, b, n, now).1
    ensures var r := Draw(l, b, n, now).0;
            Draw(l, r, n, now + d).1 <==> d >= (n - r.tokens) / l.rate
  {
    var r := Draw(l, b, n, now).0;
    var deficit := n - r.tokens;
    QuotientBound(d, l.rate, deficit);
    assert now + d - r.last == d;
  }

  lemma QuotientBound(d: real, rate: real, deficit: real)
    requires rate > 0.0
    ensures d >= deficit / rate <==> d * rate >= deficit
  {
    var q := deficit / rate;
    assert q * rate == deficit;
    if d >= q {
      Nonneg(d - q, rate);
      assert (d - q) * rate == d * rate - deficit;
    } else {
      PositiveProduct(q - d, rate);
      assert (q - d) * rate == deficit - d * rate;
    }
  }

  lemma PositiveProduct(x: real, y: real)
    requires x > 0.0 && y > 0.0
    ensures x * y > 0.0
  {
  }

  /** The advertised wait is exact to the nanosecond: one nanosecond more always suffices. */
  lemma AdvertisedWait(l: Limit, b: Level, n: real, now: real)
    requires LimitOk(l) && LevelOk(l, b) && 0.0 <= n <= l.burst
    requires !Draw(l, b, n, now).1
    ensures var r := Draw(l, b, n, now).0;
            && Draw(l, r, n, now + (WaitNanos(l, r, n) + 1) as real / NANOS).1
            && (Draw(l, r, n, now + WaitNanos(l, r, n) as real / NANOS).1
                <==> WaitNanos(l, r, n) as real >= (n - r.tokens) / l.rate * NANOS)
  {
    var r := Draw(l, b, n, now).0;
    var w, q := WaitNanos(l, r, n), (n - r.tokens) / l.rate;
    RefusedDeficit(l, r, n);
    assert q * NANOS < (w + 1) as real;
    NanosBound(q, w);
    NanosBound(q, w + 1);
    RetryAfter(l, b, n, now, (w + 1) as real / NANOS);
    RetryAfter(l, b, n, now, w as real / NANOS);
  }

  lemma RefusedDeficit(l: Limit, r: Level, n: real)
    requires l.rate > 0.0 && r.tokens < n
    ensures (n - r.tokens) / l.rate > 0.0
  {
    QuotientBound(0.0, l.rate, n - r.tokens);
  }

  lemma NanosBound(q: real, w: int)
    requires w >= 0
    ensures w as real / NANOS >= q <==> w as real >= q * NANOS
    ensures w as real / NANOS >= 0.0
  {
  }

  /** Truncation can make the advertised wait too short: three tokens a second, one missing. The limits
      the server sets are not of this kind (see WaitsAreExact). */
  lemma AdvertisedWaitCanFallShort()
    ensures var l, b := Limit(3.0, 1.0), Level(0.0, 0.0);
            && !Draw(l, b, 1.0, 0.0).1
            && !Draw(l, b, 1.0, WaitNanos(l, b, 1.0) as real / NANOS).1
  {
    var l, b := Limit(3.0, 1.0), Level(0.0, 0.0);
    assert Draw(l, b, 1.0, 0.0).0 == b;
    AdvertisedWait(l, b, 1.0, 0.0);
    assert (1.0 / 3.0 * NANOS).Floor == 333333333;
  }

  // ---------------------------------------------------------------- many keys

  datatype Ask = Ask(key: string, n: real, now: real)

  /** The level a request for key finds: the resident one, or a full bucket made on the spot. */
  function Found(s: seq<(string, Level)>, l: Limit, key: string, now: real): Level {
    if Lookup(s, key).Some? then Lookup(s, key).value else Level(l.burst, now)
  }

  /** The other keys, after the cache has brought a.key to the front. */
  function Others<V>(s: seq<(string, V)>, key: string, capacity: nat): seq<(string, V)>
    requires capacity > 0
  {
    var d := Drop(s, key);
    if |d| + 1 > capacity then d[..capacity - 1] else d
  }

  function AllowStep(s: seq<(string, Level)>, l: Limit, a: Ask, capacity: nat): (seq<(string, Level)>, bool)
    requires capacity > 0
  {
    var (level, ok) := Draw(l, Found(s, l, a.key, a.now), a.n, a.now);
    ([(a.key, level)] + Others(s, a.key, capacity), ok)
  }

  // ---------------------------------------------------------------- the server's own limits

  /** Five rooms a minute, ten at once; ten handshakes a minute, twenty at once. */
  const CREATE_LIMIT := Limit(5.0 / 60.0, 10.0)
  const HANDSHAKE_LIMIT := Limit(10.0 / 60.0, 20.0)

  predicate Whole(x: real) {
    x == x.Floor as real
  }

  /** Seconds in nanoseconds. */
  function Nanos(seconds: real): real {
    seconds * NANOS
  }

  /** How many nanoseconds these tokens take to come. */
  function TokenTime(l: Limit, tokens: real): real
    requires l.rate > 0.0
  {
    tokens * (NANOS / l.rate)
  }

  ghost predicate TicksEvenly(l: Limit) {
    LimitOk(l) && Whole(TokenTime(l, 1.0)) && Whole(l.burst)
  }

  lemma ServersTickEvenly()
    ensures TicksEvenly(CREATE_LIMIT) && TokenTime(CREATE_LIMIT, 1.0) == 12000000000.0
    ensures TicksEvenly(HANDSHAKE_LIMIT) && TokenTime(HANDSHAKE_LIMIT, 1.0) == 6000000000.0
  {
  }

  /** The tokens are what a whole number of nanoseconds brings. */
  ghost predicate OnTick(l: Limit, b: Level)
    requires l.rate > 0.0
  {
    LevelOk(l, b) && Whole(TokenTime(l, b.tokens)) && Whole(Nanos(b.last))
  }

  lemma WholeOf(x: real, i: int)
    requires x == i as real
    ensures Whole(x)
  {
  }

  lemma WholeSums(x: real, y: real)
    requires Whole(x) && Whole(y)
    ensures Whole(x + y) && Whole(x - y)
  {
    WholeOf(x + y, x.Floor + y.Floor);
    WholeOf(x - y, x.Floor - y.Floor);
  }

  lemma {:induction false} Product(i: nat, j: int, y: real)
    requires y == j as real
    ensures i as real * y == (i * j) as real
  {
    if i > 0 {
      Product(i - 1, j, y);
      assert i as real == (i - 1) as real + 1.0;
      OneLess((i - 1) as real, y);
      assert i * j == (i - 1) * j + j;
    }
  }

  lemma OneLess(x: real, y: real)
    ensures (x + 1.0) * y == x * y + y
  {
  }

  lemma TokensTake(l: Limit, n: real)
    requires TicksEvenly(l) && n >= 0.0 && Whole(n)
    ensures Whole(TokenTime(l, n))
  {
    var one := TokenTime(l, 1.0);
    Product(n.Floor, one.Floor, one);
    WholeOf(TokenTime(l, n), n.Floor * one.Floor);
  }

  lemma TimesAdd(l: Limit, x: real, y: real)
    requires l.rate > 0.0
    ensures TokenTime(l, x + y) == TokenTime(l, x) + TokenTime(l, y)
    ensures TokenTime(l, x - y) == TokenTime(l, x) - TokenTime(l, y)
    ensures Nanos(x - y) == Nanos(x) - Nanos(y)
  {
  }

  lemma RefillTakes(l: Limit, seconds: real)
    requires l.rate > 0.0
    ensures TokenTime(l, Refill(l.rate, seconds)) == Nanos(seconds)
  {
    Regroup(seconds, l.rate, NANOS / l.rate);
    assert l.rate * (NANOS / l.rate) == NANOS;
  }

  lemma Regroup(x: real, y: real, z: real)
    ensures x * y * z == x * (y * z)
  {
  }

  lemma DrawKeepsTick(l: Limit, b: Level, n: real, now: real)
    requires TicksEvenly(l) && OnTick(l, b) && n >= 0.0 && Whole(n) && Whole(Nanos(now))
    ensures OnTick(l, Draw(l, b, n, now).0)
  {
    hide Whole, Refill, TokenTime, Nanos;
    TakeStaysInRange(l, b, n, now);
    TimesAdd(l, now, b.last);
    WholeSums(Nanos(now), Nanos(b.last));
    RefillTakes(l, now - b.last);
    TimesAdd(l, b.tokens, Refill(l.rate, now - b.last));
    WholeSums(TokenTime(l, b.tokens), Nanos(now - b.last));
    TokensTake(l, l.burst);
    TokensTake(l, n);
    var r := Refilled(l, b, now);
    TimesAdd(l, r.tokens, n);
    WholeSums(TokenTime(l, r.tokens), TokenTime(l, n));
  }

  /** The cache after every request of a run. */
  function After(s: seq<(string, Level)>, l: Limit, asks: seq<Ask>, capacity: nat): seq<(string, Level)>
    requires capacity > 0
    decreases |asks|
  {
    if asks == [] then s else After(AllowStep(s, l, asks[0], capacity).0, l, asks[1..], capacity)
  }

  /** Requests for whole numbers of tokens at whole nanoseconds. */
  ghost predicate OnClock(asks: seq<Ask>) {
    forall i :: 0 <= i < |asks| ==> asks[i].n >= 0.0 && Whole(asks[i].n) && Whole(Nanos(asks[i].now))
  }

  ghost predicate AllOnTick(s: seq<(string, Level)>, l: Limit)
    requires l.rate > 0.0
  {
    DistinctKeys(s) && forall i :: 0 <= i < |s| ==> OnTick(l, s[i].1)
  }

  lemma StepKeepsTick(s: seq<(string, Level)>, l: Limit, a: Ask, capacity: nat)
    requires capacity > 0 && TicksEvenly(l) && AllOnTick(s, l) && OnClock([a])
    ensures AllOnTick(AllowStep(s, l, a, capacity).0, l)
    ensures OnTick(l, Found(s, l, a.key, a.now))
  {
    hide Drop, Draw, OnTick, Whole;
    assert [a][0] == a;
    DropDistinct(s, a.key);
    if Lookup(s, a.key).Some? {
      var i := LookupFinds(s, a.key);
    } else {
      NewOnTick(l, a.now);
    }
    DrawKeepsTick(l, Found(s, l, a.key, a.now), a.n, a.now);
    var others := Others(s, a.key, capacity);
    forall i | 0 <= i < |others|
      ensures OnTick(l, others[i].1)
    {
      assert others[i] == Drop(s, a.key)[i];
    }
  }

  lemma NewOnTick(l: Limit, now: real)
    requires TicksEvenly(l) && Whole(Nanos(now))
    ensures OnTick(l, Level(l.burst, now))
  {
    hide Whole, TokenTime, Nanos;
    TokensTake(l, l.burst);
  }

  lemma {:induction false} RunKeepsTick(s: seq<(string, Level)>, l: Limit, asks: seq<Ask>, capacity: nat)
    requires capacity > 0 && TicksEvenly(l) && AllOnTick(s, l) && OnClock(asks)
    ensures AllOnTick(After(s, l, asks, capacity), l)
    decreases |asks|
  {
    hide AllOnTick, Whole, AllowStep;
    if asks != [] {
      StepKeepsTick(s, l, asks[0], capacity);
      RunKeepsTick(AllowStep(s, l, asks[0], capacity).0, l, asks[1..], capacity);
    }
  }

  /** A wait in whole milliseconds, as it is put into a reply: cut, but at least one. */
  function Millis(nanos: int): int {
    if nanos / MILLISECOND <= 0 then 1 else nanos / MILLISECOND
  }

  lemma TickWait(l: Limit, r: Level, n: real)
    requires TicksEvenly(l) && OnTick(l, r) && Whole(n) && r.tokens < n
    ensures WaitNanos(l, r, n) as real == (n - r.tokens) / l.rate * NANOS
    ensures WaitNanos(l, r, n) > 0
  {
    hide Whole, TokenTime;
    PerToken(n - r.tokens, l);
    TimesAdd(l, n, r.tokens);
    TokensTake(l, n);
    WholeSums(TokenTime(l, n), TokenTime(l, r.tokens));
    RefusedDeficit(l, r, n);
    WholeFloor((n - r.tokens) / l.rate * NANOS);
  }

  lemma PerToken(x: real, l: Limit)
    requires l.rate > 0.0
    ensures x / l.rate * NANOS == TokenTime(l, x)
  {
    var q, p := x / l.rate, NANOS / l.rate;
    assert q * l.rate == x && p * l.rate == NANOS;
    Regroup(q, l.rate, p);
    assert q * (l.rate * p) == q * NANOS;
  }

  lemma WholeFloor(x: real)
    requires Whole(x) && x > 0.0
    ensures x.Floor as real == x && x.Floor > 0
  {
  }

  /** Under a limit like the server's, whatever has been asked before, the wait in nanoseconds given to a
      refused caller is enough; the milliseconds it is cut to are enough exactly when the cut loses
      nothing, and one millisecond more always is. */
  lemma WaitsAreExact(l: Limit, asks: seq<Ask>, key: string, n: real, now: real, capacity: nat)
    requires capacity > 0 && TicksEvenly(l) && OnClock(asks) && OnClock([Ask(key, n, now)]) && n <= l.burst
    requires var s := After([], l, asks, capacity); !AllowStep(s, l, Ask(key, n, now), capacity).1
    ensures var (t, _) := AllowStep(After([], l, asks, capacity), l, Ask(key, n, now), capacity);
            var w := WaitNanos(l, t[0].1, n);
            && AllowStep(t, l, Ask(key, n, now + w as real / NANOS), capacity).1
            && AllowStep(t, l, Ask(key, n, now + (Millis(w) + 1) as real / 1000.0), capacity).1
            && (AllowStep(t, l, Ask(key, n, now + Millis(w) as real / 1000.0), capacity).1
                <==> w < MILLISECOND || w % MILLISECOND == 0)
  {
    hide Refill, Whole, Others, Draw, After, OnTick, WaitNanos;
    var s, a := After([], l, asks, capacity), Ask(key, n, now);
    assert [a][0] == a;
    RunKeepsTick([], l, asks, capacity);
    StepKeepsTick(s, l, a, capacity);
    var b, t := Found(s, l, key, now), AllowStep(s, l, a, capacity).0;
    var r := t[0].1;
    assert Lookup(t, key) == Some(r);
    WaitsOnTick(l, b, n, now);
  }

  /** The same for one bucket. */
  lemma WaitsOnTick(l: Limit, b: Level, n: real, now: real)
    requires TicksEvenly(l) && OnTick(l, b) && 0.0 <= n <= l.burst && Whole(n) && Whole(Nanos(now))
    requires !Draw(l, b, n, now).1
    ensures var r := Draw(l, b, n, now).0;
            var w := WaitNanos(l, r, n);
            && Draw(l, r, n, now + w as real / NANOS).1
            && Draw(l, r, n, now + (Millis(w) + 1) as real / 1000.0).1
            && (Draw(l, r, n, now + Millis(w) as real / 1000.0).1 <==> w < MILLISECOND || w % MILLISECOND == 0)
  {
    hide Refill, Whole, WaitNanos;
    var r := Draw(l, b, n, now).0;
    DrawKeepsTick(l, b, n, now);
    TickWait(l, r, n);
    var w, q := WaitNanos(l, r, n), (n - r.tokens) / l.rate;
    MillisOf(w);
    MillisBound(q, w, Millis(w));
    MillisBound(q, w, Millis(w) + 1);
    NanosBound(q, w);
    RetryAfter(l, b, n, now, w as real / NANOS);
    RetryAfter(l, b, n, now, Millis(w) as real / 1000.0);
    RetryAfter(l, b, n, now, (Millis(w) + 1) as real / 1000.0);
  }

  lemma MillisOf(w: int)
    requires w > 0
    ensures Millis(w) >= 1 && (Millis(w) + 1) * MILLISECOND >= w
    ensures Millis(w) * MILLISECOND >= w <==> w < MILLISECOND || w % MILLISECOND == 0
  {
  }

  lemma MillisBound(q: real, w: int, m: int)
    requires w as real == q * NANOS
    ensures m as real / 1000.0 >= q <==> m * MILLISECOND >= w
  {
    assert m as real / 1000.0 * NANOS == (m * MILLISECOND) as real;
  }

  /** A caller asking k times at once. */
  function AtOnce(key: string, k: nat): (asks: seq<Ask>)
    ensures |asks| == k && forall i :: 0 <= i < k ==> asks[i] == Ask(key, 1.0, 0.0)
  {
    seq(k, i => Ask(key, 1.0, 0.0))
  }

  lemma AloneTakes(s: seq<(string, Level)>, l: Limit, key: string, capacity: nat)
    requires capacity > 0 && LimitOk(l) && (s == [] || (|s| == 1 && s[0].0 == key && s[0].1.last == 0.0))
    requires Found(s, l, key, 0.0).tokens >= 1.0
    ensures AllowStep(s, l, Ask(key, 1.0, 0.0), capacity).0 == [(key, Level(Found(s, l, key, 0.0).tokens - 1.0, 0.0))]
  {
  }

  lemma {:induction false} AtOnceTakes(s: seq<(string, Level)>, l: Limit, key: string, k: nat, capacity: nat)
    requires capacity > 0 && LimitOk(l) && (s == [] || (|s| == 1 && s[0].0 == key && s[0].1.last == 0.0))
    requires k > 0 && Found(s, l, key, 0.0).tokens >= k as real
    ensures After(s, l, AtOnce(key, k), capacity) == [(key, Level(Found(s, l, key, 0.0).tokens - k as real, 0.0))]
    decreases k
  {
    hide Draw, AllowStep;
    assert AtOnce(key, k)[1..] == AtOnce(key, k - 1);
    AloneTakes(s, l, key, capacity);
    var t := AllowStep(s, l, AtOnce(key, k)[0], capacity).0;
    assert After(s, l, AtOnce(key, k), capacity) == After(t, l, AtOnce(key, k - 1), capacity);
    if k > 1 {
      AtOnceTakes(t, l, key, k - 1, capacity);
    }
  }

  /** Ten rooms at once empty the bucket. An eleventh asked for half a microsecond later is to come back
      in 11999 milliseconds, and is refused then. */
  lemma MillisecondsFallShort(key: string, capacity: nat)
    requires capacity > 0
    ensures var s := After([], CREATE_LIMIT, AtOnce(key, 10), capacity);
            var (t, ok) := AllowStep(s, CREATE_LIMIT, Ask(key, 1.0, 0.0000005), capacity);
            && !ok
            && Millis(WaitNanos(CREATE_LIMIT, t[0].1, 1.0)) == 11999
            && !AllowStep(t, CREATE_LIMIT, Ask(key, 1.0, 0.0000005 + 11999.0 / 1000.0), capacity).1
  {
    hide Draw, After, Millis, WaitNanos, Others;
    AtOnceTakes([], CREATE_LIMIT, key, 10, capacity);
    EmptyFallsShort();
  }

  lemma EmptyFallsShort()
    ensures var (r, ok) := Draw(CREATE_LIMIT, Level(0.0, 0.0), 1.0, 0.0000005);
            && !ok
            && Millis(WaitNanos(CREATE_LIMIT, r, 1.0)) == 11999
            && !Draw(CREATE_LIMIT, r, 1.0, 0.0000005 + 11999.0 / 1000.0).1
  {
    ServersTickEvenly();
    WaitsOnTick(CREATE_LIMIT, Level(0.0, 0.0), 1.0, 0.0000005);
  }

  // ---------------------------------------------------------------- the bound

  /** Requests in time order, none before clock, none for a negative amount. */
  ghost predicate Timely(asks: seq<Ask>, clock: real)
    decreases |asks|
  {
    asks == [] || (asks[0].now >= clock && asks[0].n >= 0.0 && Timely(asks[1..], asks[0].now))
  }

  ghost predicate Healthy(s: seq<(string, Level)>, l: Limit, clock: real, capacity: nat) {
    && DistinctKeys(s) && |s| <= capacity
    && forall i :: 0 <= i < |s| ==> LevelOk(l, s[i].1) && s[i].1.last <= clock
  }

  /** What key is granted at times within [from, to]. */
  function Granted(s: seq<(string, Level)>, l: Limit, asks: seq<Ask>, key: string, from: real, to: real,
                   capacity: nat): real
    requires capacity > 0
    decreases |asks|
  {
    if asks == [] then 0.0
    else
      var (s', ok) := AllowStep(s, l, asks[0], capacity);
      (if asks[0].key == key && ok && from <= asks[0].now <= to then asks[0].n else 0.0)
      + Granted(s', l, asks[1..], key, from, to, capacity)
  }

  /** How often key's bucket falls out of the cache at times within [from, to]. */
  function Evictions(s: seq<(string, Level)>, l: Limit, asks: seq<Ask>, key: string, from: real, to: real,
                     capacity: nat): nat
    requires capacity > 0
    decreases |asks|
  {
    if asks == [] then 0
    else
      var s' := AllowStep(s, l, asks[0], capacity).0;
      (if Evicted(s, s', key) && from <= asks[0].now <= to then 1 else 0)
      + Evictions(s', l, asks[1..], key, from, to, capacity)
  }

  predicate Evicted(s: seq<(string, Level)>, s': seq<(string, Level)>, key: string) {
    Lookup(s, key).Some? && Lookup(s', key).None?
  }

  /** The most a bucket can still grant within [from, to]. */
  function Credit(l: Limit, b: Level, from: real, to: real): real {
    if b.last > to then 0.0
    else if b.last < from then l.burst + Refill(l.rate, Pos(to - from))
    else b.tokens + Refill(l.rate, to - b.last)
  }

  /** The most a key without a bucket can still be granted within [from, to], from clock on. */
  function Prospect(l: Limit, clock: real, from: real, to: real): real {
    if clock > to then 0.0
    else if clock < from then l.burst + Refill(l.rate, Pos(to - from))
    else l.burst + Refill(l.rate, to - clock)
  }

  function KeyCredit(s: seq<(string, Level)>, l: Limit, key: string, clock: real, from: real, to: real): real {
    match Lookup(s, key)
    case None => Prospect(l, clock, from, to)
    case Some(b) => Credit(l, b, from, to)
  }

  lemma Split(rate: real, x: real, y: real)
    ensures Refill(rate, x) + Refill(rate, y) == Refill(rate, x + y)
  {
  }

  /** Granting tokens inside the window spends credit; waiting never creates any. */
  lemma DrawSpendsCredit(l: Limit, b: Level, n: real, now: real, from: real, to: real)
    requires LimitOk(l) && LevelOk(l, b) && n >= 0.0 && now >= b.last
    ensures var (b', ok) := Draw(l, b, n, now);
            (if ok && from <= now <= to then n else 0.0) + Credit(l, b', from, to) <= Credit(l, b, from, to)
  {
    hide Refill;
    TakeStaysInRange(l, b, n, now);
    Scaled(l.rate, 0.0, to - b.last);
    Scaled(l.rate, 0.0, Pos(to - from));
    Scaled(l.rate, to - now, Pos(to - from));
    Scaled(l.rate, to - now, to - b.last);
    Split(l.rate, now - b.last, to - now);
    assert now - b.last + (to - now) == to - b.last;
  }

  lemma NewBucketCredit(l: Limit, clock: real, now: real, from: real, to: real)
    requires LimitOk(l) && clock <= now
    ensures Credit(l, Level(l.burst, now), from, to) <= Prospect(l, clock, from, to)
    ensures Prospect(l, now, from, to) <= Prospect(l, clock, from, to)
  {
    hide Refill;
    Scaled(l.rate, 0.0, to - clock);
    Scaled(l.rate, 0.0, Pos(to - from));
    Scaled(l.rate, to - now, Pos(to - from));
    Scaled(l.rate, to - now, to - clock);
  }

  /** Losing a bucket within the window is worth at most one burst to its key; before or after, nothing. */
  lemma EvictionGains(l: Limit, b: Level, now: real, from: real, to: real)
    requires LimitOk(l) && LevelOk(l, b) && b.last <= now
    ensures Prospect(l, now, from, to) <= Credit(l, b, from, to) + if from <= now <= to then l.burst else 0.0
  {
    hide Refill;
    Scaled(l.rate, 0.0, to - b.last);
    Scaled(l.rate, 0.0, Pos(to - from));
    Scaled(l.rate, to - now, Pos(to - from));
    Scaled(l.rate, Pos(to - from), to - b.last);
    Scaled(l.rate, to - now, to - b.last);
  }

  lemma StepHealthy(s: seq<(string, Level)>, l: Limit, a: Ask, clock: real, capacity: nat)
    requires capacity > 0 && LimitOk(l) && Healthy(s, l, clock, capacity) && a.now >= clock && a.n >= 0.0
    ensures Healthy(AllowStep(s, l, a, capacity).0, l, a.now, capacity)
    ensures LevelOk(l, Found(s, l, a.key, a.now)) && Found(s, l, a.key, a.now).last <= a.now
  {
    hide Drop, Draw;
    DropDistinct(s, a.key);
    if Lookup(s, a.key).Some? {
      var i := LookupFinds(s, a.key);
    }
    TakeStaysInRange(l, Found(s, l, a.key, a.now), a.n, a.now);
    var others := Others(s, a.key, capacity);
    forall i | 0 <= i < |others|
      ensures LevelOk(l, others[i].1) && others[i].1.last <= clock
    {
      assert others[i] == Drop(s, a.key)[i];
    }
  }

  /** A step for another key leaves key's bucket alone or evicts it. */
  lemma StepLookup(s: seq<(string, Level)>, l: Limit, a: Ask, key: string, capacity: nat)
    requires capacity > 0 && DistinctKeys(s)
    ensures var t := AllowStep(s, l, a, capacity).0;
            if key == a.key then Lookup(t, key) == Some(Draw(l, Found(s, l, a.key, a.now), a.n, a.now).0)
            else Lookup(t, key) == Lookup(s, key) || Lookup(t, key).None?
  {
    hide Drop, Draw;
    var t, others := AllowStep(s, l, a, capacity).0, Others(s, a.key, capacity);
    assert t[1..] == others;
    if key != a.key {
      DropLookup(s, a.key);
      DropDistinct(s, a.key);
      if |Drop(s, a.key)| + 1 > capacity {
        PrefixLookup(Drop(s, a.key), capacity - 1, key);
      }
    }
  }

  lemma StepSpendsCredit(s: seq<(string, Level)>, l: Limit, a: Ask, key: string, clock: real, from: real,
                         to: real, capacity: nat)
    requires capacity > 0 && LimitOk(l) && Healthy(s, l, clock, capacity) && a.now >= clock && a.n >= 0.0
    ensures var (t, ok) := AllowStep(s, l, a, capacity);
            (if a.key == key && ok && from <= a.now <= to then a.n else 0.0) + KeyCredit(t, l, key, a.now, from, to)
            <= KeyCredit(s, l, key, clock, from, to)
               + if Evicted(s, t, key) && from <= a.now <= to then l.burst else 0.0
  {
    hide Drop, Draw, Credit, Prospect, Others;
    StepHealthy(s, l, a, clock, capacity);
    StepLookup(s, l, a, key, capacity);
    NewBucketCredit(l, clock, a.now, from, to);
    if a.key == key {
      DrawSpendsCredit(l, Found(s, l, a.key, a.now), a.n, a.now, from, to);
    } else if Lookup(s, key).Some? {
      var i := LookupFinds(s, key);
      EvictionGains(l, Lookup(s, key).value, a.now, from, to);
    }
  }

  lemma {:induction false} GrantedWithinCredit(s: seq<(string, Level)>, l: Limit, asks: seq<Ask>, key: string,
                                               clock: real, from: real, to: real, capacity: nat)
    requires capacity > 0 && LimitOk(l) && Healthy(s, l, clock, capacity) && Timely(asks, clock)
    ensures Granted(s, l, asks, key, from, to, capacity)
         <= KeyCredit(s, l, key, clock, from, to) + Evictions(s, l, asks, key, from, to, capacity) as real * l.burst
    decreases |asks|
  {
    hide AllowStep, KeyCredit, Healthy;
    if asks == [] {
      CreditNonneg(s, l, key, clock, from, to, capacity);
    } else {
      var t := AllowStep(s, l, asks[0], capacity).0;
      StepHealthy(s, l, asks[0], clock, capacity);
      StepSpendsCredit(s, l, asks[0], key, clock, from, to, capacity);
      GrantedWithinCredit(t, l, asks[1..], key, asks[0].now, from, to, capacity);
      OneMore(Evictions(t, l, asks[1..], key, from, to, capacity), l.burst);
    }
  }

  lemma OneMore(n: nat, x: real)
    ensures (1 + n) as real * x == x + n as real * x
  {
  }

  lemma CreditNonneg(s: seq<(string, Level)>, l: Limit, key: string, clock: real, from: real, to: real, capacity: nat)
    requires LimitOk(l) && Healthy(s, l, clock, capacity)
    ensures KeyCredit(s, l, key, clock, from, to) >= 0.0
  {
    hide Refill;
    Scaled(l.rate, 0.0, Pos(to - from));
    if Lookup(s, key).Some? {
      var i := LookupFinds(s, key);
      Scaled(l.rate, 0.0, to - s[i].1.last);
    } else {
      Scaled(l.rate, 0.0, to - clock);
    }
  }

  /** In any window a key is granted at most one burst, one more for each time its bucket was
      evicted within the window, and what refills meanwhile. */
  lemma WindowBound(l: Limit, asks: seq<Ask>, key: string, clock: real, from: real, to: real, capacity: nat)
    requires capacity > 0 && LimitOk(l) && Timely(asks, clock) && from <= to
    ensures Granted([], l, asks, key, from, to, capacity)
         <= (1 + Evictions([], l, asks, key, from, to, capacity)) as real * l.burst + Refill(l.rate, to - from)
  {
    hide Refill, Granted, Evictions;
    GrantedWithinCredit([], l, asks, key, clock, from, to, capacity);
    OneMore(Evictions([], l, asks, key, from, to, capacity), l.burst);
    assert KeyCredit([], l, key, clock, from, to) == Prospect(l, clock, from, to);
    Scaled(l.rate, to - clock, to - from);
    Scaled(l.rate, 0.0, to - from);
  }

  class Map {
    const c: Cache<Bucket?>
    const limit: Limit

    ghost function Buckets(): set<object>
      reads this, c
    {
      set i | 0 <= i < |c.entries| && c.entries[i].1 != null :: c.entries[i].1
    }

    ghost predicate Valid()
      reads this, c, c.Repr
    {
      c.Valid() && Owned(c.entries, limit) && Apart(c.entries, c.Repr) && limit.rate > 0.0
    }

    /** The levels of the resident buckets, most recently asked first. */
    ghost function View(): seq<(string, Level)>
      requires Owned(c.entries, limit)
      reads this, c, Buckets()
    {
      LevelsOf(c.entries, limit)
    }

    constructor (capacity: nat, limit: Limit)
      requires capacity > 0 && limit.rate > 0.0
      ensures Valid() && fresh(c.Repr) && this.limit == limit && c.capacity == capacity && c.entries == []
    {
      var cache := new Cache<Bucket?>(capacity);
      c, this.limit := cache, limit;
    }

    /** The bucket for key, resident or made on the spot, brought to the front. */
    method FindOrMake(key: string, now: real) returns (b: Bucket)
      requires Valid()
      modifies c.Repr
      ensures Valid() && fresh(c.Repr - old(c.Repr))
      ensures c.entries != [] && c.entries[0] == (key, b) && (b in old(Buckets()) || fresh(b))
      ensures View() == [(key, Found(old(View()), limit, key, now))] + Others(old(View()), key, c.capacity)
    {
      hide Cache.Within, Drop, Others, LevelsOf, Owned;
      ghost var was := c.entries;
      LevelsDrop(was, limit, key);
      LevelsOthers(was, limit, key, c.capacity, c.Repr);
      var bucket, found := c.GetMut(key, Keep);
      if found {
        b := bucket;
      } else {
        b := new Bucket(limit, now);
        var _ := c.Put(key, b);
      }
      OthersAfter<Bucket?>(was, key, b, c.capacity);
      LevelsFront(Others(was, key, c.capacity), limit, key, b, c.Repr);
    }

    method AllowN(key: string, n: real, now: real) returns (ok: bool, wait: int)
      requires Valid()
      modifies c.Repr, Buckets()
      ensures Valid() && fresh(c.Repr - old(c.Repr))
      ensures (View(), ok) == AllowStep(old(View()), limit, Ask(key, n, now), c.capacity)
    {
      hide Cache.Within, Drop, Draw, Found, Others;
      var b := FindOrMake(key, now);
      ghost var rest := View()[1..];
      ok, wait := b.Take(n, now);
      assert View() == [(key, b.View())] + rest;
    }
  }

  ghost predicate Apart(s: seq<(string, Bucket?)>, repr: set<object>) {
    forall i :: 0 <= i < |s| && s[i].1 != null ==> s[i].1 !in repr
  }

  /** Every key has its own bucket, made with this limit. */
  ghost predicate Owned(s: seq<(string, Bucket?)>, limit: Limit) {
    && (forall i :: 0 <= i < |s| ==> s[i].1 != null && s[i].1.limit == limit)
    && (forall i, j :: 0 <= i < j < |s| ==> s[i].1 != s[j].1)
  }

  /** What a hit and a miss leave behind the front entry. */
  lemma OthersAfter<V>(s: seq<(string, V)>, key: string, v: V, capacity: nat)
    requires DistinctKeys(s) && 0 < capacity && |s| <= capacity
    ensures Insert(s, key, v, capacity) == [(key, v)] + Others(s, key, capacity)
    ensures Lookup(s, key).Some? ==> Touch(s, key, v) == [(key, v)] + Others(s, key, capacity)
  {
    hide Drop, Lookup;
    DropDistinct(s, key);
    if |Drop(s, key)| + 1 > capacity {
      assert Touch(s, key, v)[..|Touch(s, key, v)| - 1] == [(key, v)] + Others(s, key, capacity);
    }
  }

  lemma LevelsFront(rest: seq<(string, Bucket?)>, limit: Limit, key: string, b: Bucket, repr: set<object>)
    requires Owned(rest, limit) && Apart(rest, repr) && b.limit == limit && b !in repr
    requires forall i :: 0 <= i < |rest| ==> rest[i].1 != b
    ensures Owned([(key, b)] + rest, limit) && Apart([(key, b)] + rest, repr)
    ensures LevelsOf([(key, b)] + rest, limit) == [(key, b.View())] + LevelsOf(rest, limit)
  {
    assert ([(key, b)] + rest)[1..] == rest;
  }

  lemma LevelsOthers(s: seq<(string, Bucket?)>, limit: Limit, key: string, capacity: nat, repr: set<object>)
    requires Owned(s, limit) && Apart(s, repr) && DistinctKeys(s) && 0 < capacity
    ensures var d := Others(s, key, capacity);
            && Owned(d, limit) && Apart(d, repr) && (forall i :: 0 <= i < |d| ==> d[i] in s)
            && LevelsOf(d, limit) == Others(LevelsOf(s, limit), key, capacity)
            && (Lookup(s, key).Some? ==> forall i :: 0 <= i < |d| ==> d[i].1 != Lookup(s, key).value)
            && (Lookup(s, key).Some? ==> (key, Lookup(s, key).value) in s && Lookup(s, key).value !in repr)
  {
    hide Drop, Lookup, LevelsOf;
    if Lookup(s, key).Some? {
      var i := LookupFinds(s, key);
    }
    LevelsDrop(s, limit, key);
    DropDistinct(s, key);
    var d := Drop(s, key);
    assert forall i :: 0 <= i < |d| ==> d[i] in s;
    if |d| + 1 > capacity {
      assert LevelsOf(d[..capacity - 1], limit) == LevelsOf(d, limit)[..capacity - 1];
    }
  }

  lemma LevelsWithout(s: seq<(string, Bucket?)>, limit: Limit, k: nat)
    requires Owned(s, limit) && k < |s|
    ensures Owned(Without(s, k), limit)
    ensures LevelsOf(Without(s, k), limit) == Without(LevelsOf(s, limit), k)
    ensures forall i :: 0 <= i < |s| - 1 ==> Without(s, k)[i].1 != s[k].1
  {
    hide LevelsOf;
    assert forall i :: 0 <= i < |s| - 1 ==> Without(s, k)[i] == s[if i < k then i else i + 1];
  }

  /** The cache of buckets and the list of levels stay in step. */
  lemma LevelsDrop(s: seq<(string, Bucket?)>, limit: Limit, key: string)
    requires Owned(s, limit) && DistinctKeys(s)
    ensures Owned(Drop(s, key), limit)
    ensures LevelsOf(Drop(s, key), limit) == Drop(LevelsOf(s, limit), key)
    ensures Lookup(s, key).Some? == Lookup(LevelsOf(s, limit), key).Some?
    ensures Lookup(s, key).Some? ==>
              && Lookup(s, key).value != null
              && Lookup(s, key).value.limit == limit
              && Lookup(LevelsOf(s, limit), key) == Some(Lookup(s, key).value.View())
              && forall i :: 0 <= i < |Drop(s, key)| ==> Drop(s, key)[i].1 != Lookup(s, key).value
  {
    hide Drop, Lookup, LevelsOf;
    var i := DropCases(s, key);
    var j := DropCases(LevelsOf(s, limit), key);
    if i < |s| {
      assert LevelsOf(s, limit)[i].0 == key;
      LevelsWithout(s, limit, i);
    }
  }

  ghost function LevelsOf(s: seq<(string, Bucket?)>, limit: Limit): (v: seq<(string, Level)>)
    requires Owned(s, limit)
    reads set i | 0 <= i < |s| && s[i].1 != null :: s[i].1
    ensures |v| == |s| && forall i :: 0 <= i < |s| ==> v[i] == (s[i].0, s[i].1.View())
  {
    if s == [] then [] else [(s[0].0, s[0].1.View())] + LevelsOf(s[1..], limit)
  }

  // ---------------------------------------------------------------- room counters

  function Count(s: seq<(string, int)>, key: string): int {
    match Lookup(s, key)
    case None => 0
    case Some(n) => n
  }

  /** One more for key, unless that would exceed the per-key maximum. */
  function CountUp(s: seq<(string, int)>, key: string, max: int, capacity: nat): (seq<(string, int)>, int, bool) {
    var seen, cur := Access(s, key, Keep), Count(s, key);
    if cur >= max then (seen, cur, false) else (Insert(seen, key, cur + 1, capacity), cur + 1, true)
  }

  /** One less for key, which leaves the map when none remains. */
  function CountDown(s: seq<(string, int)>, key: string, capacity: nat): (seq<(string, int)>, int) {
    var seen, cur := Access(s, key, Keep), Count(s, key);
    if cur <= 0 then (seen, 0)
    else if cur == 1 then (Drop(seen, key), 0)
    else (Insert(seen, key, cur - 1, capacity), cur - 1)
  }

  class CounterMap {
    const c: Cache<int>
    const max: int

    ghost predicate Valid()
      reads this, c, c.Repr
    {
      c.Valid()
    }

    constructor (capacity: nat, max: int)
      requires capacity > 0
      ensures Valid() && fresh(c.Repr) && this.max == max && c.capacity == capacity && c.entries == []
    {
      var cache := new Cache<int>(capacity);
      c, this.max := cache, max;
    }

    method Increment(key: string) returns (n: int, ok: bool)
      requires Valid()
      modifies c.Repr
      ensures Valid() && fresh(c.Repr - old(c.Repr))
      ensures (c.entries, n, ok) == CountUp(old(c.entries), key, max, c.capacity)
    {
      hide Cache.Within, Drop, Insert;
      var v, found := c.GetMut(key, Keep);
      var cur := if found then v else 0;
      if cur >= max {
        return cur, false;
      }
      cur := cur + 1;
      var _ := c.Put(key, cur);
      return cur, true;
    }

    method Decrement(key: string) returns (n: int)
      requires Valid()
      modifies c.Repr
      ensures Valid() && fresh(c.Repr - old(c.Repr))
      ensures (c.entries, n) == CountDown(old(c.entries), key, c.capacity)
    {
      hide Cache.Within, Drop, Insert;
      var cur, found := c.GetMut(key, Keep);
      if !found || cur <= 0 {
        return 0;
      }
      cur := cur - 1;
      if cur <= 0 {
        var _ := c.Delete(key);
        return 0;
      }
      var _ := c.Put(key, cur);
      n := cur;
    }
  }

  lemma AccessLookup(s: seq<(string, int)>, key: string)
    requires DistinctKeys(s)
    ensures var t := Access(s, key, Keep);
            DistinctKeys(t) && |t| == |s| && forall k :: Lookup(t, k) == Lookup(s, k)
  {
    hide Drop;
    if Lookup(s, key).Some? {
      TouchLookup(s, key, Lookup(s, key).value);
      DropDistinct(s, key);
    }
  }

  lemma InsertLookup(s: seq<(string, int)>, key: string, n: int, capacity: nat)
    requires DistinctKeys(s) && (Lookup(s, key).Some? || |s| < capacity) && |s| <= capacity
    ensures var t := Insert(s, key, n, capacity);
            && DistinctKeys(t) && |t| <= capacity
            && Lookup(t, key) == Some(n) && forall k :: k != key ==> Lookup(t, k) == Lookup(s, k)
  {
    hide Drop;
    TouchLookup(s, key, n);
    DropDistinct(s, key);
  }

  /** A new key in a full counter pushes the last one out. */
  lemma TakeWhenFull(s: seq<(string, int)>, key: string, capacity: nat)
    requires DistinctKeys(s) && |s| == capacity > 0 && Lookup(s, key).None?
    ensures Insert(s, key, 1, capacity) == [(key, 1)] + s[..|s| - 1]
    ensures Lookup(s[..|s| - 1], key).None? && Drop(s[..|s| - 1], key) == s[..|s| - 1]
  {
    AbsentEverywhere(s, key);
    LookupAbsent(s, key);
    LookupAbsent(s[..|s| - 1], key);
    assert ([(key, 1)] + s)[..|s|] == [(key, 1)] + s[..|s| - 1];
  }

  /** Without its last entry a list finds every other key as before. */
  lemma CountWithoutLast(s: seq<(string, int)>, k: string)
    requires DistinctKeys(s) && s != []
    ensures Count(s[..|s| - 1], k) == if k == s[|s| - 1].0 then 0 else Count(s, k)
    ensures Count(s, s[|s| - 1].0) == s[|s| - 1].1
  {
    hide Lookup;
    LookupAt(s, |s| - 1);
    var n := |s| - 1;
    if Lookup(s[..n], k).Some? {
      var i := LookupFinds(s[..n], k);
      LookupAt(s, i);
    } else if Lookup(s, k).Some? {
      var i := LookupFinds(s, k);
      AbsentEverywhere(s[..n], k);
      assert forall j :: 0 <= j < n ==> s[j] == s[..n][j];
    }
  }

  lemma GiveBackWhenFull(s: seq<(string, int)>, key: string, max: int, capacity: nat)
    requires DistinctKeys(s) && |s| == capacity > 0 && Lookup(s, key).None? && max > 0
    ensures CountUp(s, key, max, capacity) == ([(key, 1)] + s[..|s| - 1], 1, true)
    ensures CountDown([(key, 1)] + s[..|s| - 1], key, capacity) == (s[..|s| - 1], 0)
  {
    TakeWhenFull(s, key, capacity);
    assert ([(key, 1)] + s[..|s| - 1])[1..] == s[..|s| - 1];
    assert Drop([(key, 1)] + s[..|s| - 1], key) == s[..|s| - 1];
    assert Touch([(key, 1)] + s[..|s| - 1], key, 1) == [(key, 1)] + s[..|s| - 1];
  }

  /** A place is taken if and only if fewer than the maximum are taken, and then it is one more. */
  lemma CountUpExactly(s: seq<(string, int)>, key: string, max: int, capacity: nat)
    requires DistinctKeys(s) && |s| <= capacity && capacity > 0
    ensures var (t, n, ok) := CountUp(s, key, max, capacity);
            && (ok <==> Count(s, key) < max)
            && n == (if ok then Count(s, key) + 1 else Count(s, key)) == Count(t, key)
            && (!ok ==> forall k :: Count(t, k) == Count(s, k))
            && (ok && (Lookup(s, key).Some? || |s| < capacity) ==> forall k :: k != key ==> Count(t, k) == Count(s, k))
  {
    hide Drop, Access, Insert;
    AccessLookup(s, key);
    var seen := Access(s, key, Keep);
    if Lookup(s, key).Some? || |s| < capacity {
      InsertLookup(seen, key, Count(s, key) + 1, capacity);
    } else {
      InsertInFront(seen, key, Count(s, key) + 1, capacity);
    }
  }

  lemma InsertInFront(s: seq<(string, int)>, key: string, n: int, capacity: nat)
    requires capacity > 0
    ensures Lookup(Insert(s, key, n, capacity), key) == Some(n)
  {
    hide Drop;
  }

  /** Taking a room place and giving it back leaves every key's count as it was, except that a new key
      in a full counter costs the key asked for longest ago its count. So every count is as it was if
      and only if the counter had room, knew the key, or had nothing counted for the key it forgot. */
  lemma TakeAndGiveBack(s: seq<(string, int)>, key: string, max: int, capacity: nat)
    requires DistinctKeys(s) && |s| <= capacity && capacity > 0
    requires forall k :: Count(s, k) >= 0
    requires CountUp(s, key, max, capacity).2
    ensures var up := CountUp(s, key, max, capacity);
            var down := CountDown(up.0, key, capacity);
            var room := Lookup(s, key).Some? || |s| < capacity;
            && up.1 == Count(s, key) + 1 <= max
            && down.1 == Count(s, key)
            && (forall k :: room || k != s[|s| - 1].0 ==> Count(down.0, k) == Count(s, k))
            && ((forall k :: Count(down.0, k) == Count(s, k)) <==> room || s[|s| - 1].1 == 0)
  {
    hide Drop, Access, Insert;
    var up := CountUp(s, key, max, capacity).0;
    if Lookup(s, key).Some? || |s| < capacity {
      AccessLookup(s, key);
      InsertLookup(Access(s, key, Keep), key, Count(s, key) + 1, capacity);
      AccessLookup(up, key);
      if Count(s, key) == 0 {
        DropLookup(Access(up, key, Keep), key);
      } else {
        InsertLookup(Access(up, key, Keep), key, Count(s, key), capacity);
      }
    } else {
      GiveBackWhenFull(s, key, max, capacity);
      forall k
        ensures Count(s[..|s| - 1], k) == if k == s[|s| - 1].0 then 0 else Count(s, k)
      {
        CountWithoutLast(s, k);
      }
      CountWithoutLast(s, s[|s| - 1].0);
    }
  }
}
