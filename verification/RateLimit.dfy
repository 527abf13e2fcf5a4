/** The two rate-limiting backends of `src/ratelimit.rs`, each proved to answer
    as the log of admitted timestamps would. Fractions are exact reals here; the
    program computes them in `f64`. */
module RateLimit {
  import opened Prelude
  import opened RateLog

  /** An address; a V6 one is its upper and its lower 64 bits. */
  datatype Ip = V4(address: nat) | V6(prefix: nat, interface: nat)

  /** The unit the free tier is metered on: a V4 address or a V6 /64. */
  function Bucket(ip: Ip): Ip {
    match ip
    case V4(_) => ip
    case V6(prefix, _) => V6(prefix, 0)
  }

  datatype Key = Key(policy: string, client: Ip)

  function KeyFor(policy: string, ip: Ip): Key {
    Key(policy, Bucket(ip))
  }

  /** Smallest integer not below `x`. */
  function Ceil(x: real): (n: int)
    ensures (n - 1) as real < x <= n as real
  {
    -((-x).Floor)
  }

  function RemainingAfter(limit: nat, estimated: real): nat {
    var used := if Ceil(estimated) > 0 then Ceil(estimated) else 0;
    SatSub(limit, used)
  }

  // ------------------------------------------------------ the estimate is the load

  /** A comparison of the real estimate is a comparison of the integer load. */
  lemma EstimateAgainst(estimate: real, load: nat, w: nat, bound: int)
    requires w > 0 && estimate * w as real == load as real
    ensures estimate >= bound as real <==> load >= bound * w
    ensures estimate > bound as real <==> load > bound * w
  {
    assert (estimate - bound as real) * w as real == (load - bound * w) as real;
  }

  lemma EstimateIsLoad(current: nat, previous: nat, w: nat, elapsed: nat, estimate: real)
    requires elapsed < w
    requires estimate
             == current as real + previous as real * ((w - elapsed) as real / w as real)
    ensures estimate * w as real == (current * w + previous * (w - elapsed)) as real
  {
    var carry := (w - elapsed) as real / w as real;
    assert carry * w as real == (w - elapsed) as real;
    assert previous as real * carry * w as real == previous as real * (carry * w as real);
  }

  /** The program's decision and remaining count, from the real estimate. */
  lemma JudgedByEstimate(estimate: real, load: nat, limit: nat, w: nat, reset: nat)
    requires w > 0 && estimate * w as real == load as real
    ensures (estimate >= limit as real) == !Judge(load, limit, w, reset).allowed
    ensures Ceil(estimate + 1.0) == CeilDiv(load + w, w) >= 1
    ensures estimate < limit as real ==>
              RemainingAfter(limit, estimate + 1.0) == Judge(load, limit, w, reset).remaining
  {
    EstimateAgainst(estimate, load, w, limit);
    var used := CeilDiv(load + w, w);
    CeilDivBounds(load + w, w);
    assert (estimate + 1.0) * w as real == (load + w) as real;
    EstimateAgainst(estimate + 1.0, load + w, w, used);
    assert (used - 1) * w == used * w - w;
    EstimateAgainst(estimate + 1.0, load + w, w, used - 1);
    if used < 1 {
      MulMonotone(used, 0, w);
    }
  }

  /** The estimate of the log's own counts decides as the log does. */
  lemma EstimateDecides(past: seq<nat>, limit: nat, w: nat, now: nat, estimate: real)
    requires w > 0
    requires estimate == Current(past, w, now) as real
                       + Previous(past, w, now) as real
                         * ((w - Elapsed(w, now)) as real / w as real)
    ensures var v := Verdict(past, limit, w, now);
            && v.limit == limit && v.resetSecs == w - Elapsed(w, now)
            && (estimate >= limit as real ==> !v.allowed && v.remaining == 0)
            && (estimate < limit as real ==>
                  v.allowed && v.remaining == RemainingAfter(limit, estimate + 1.0))
    ensures Ceil(estimate + 1.0) >= 1
  {
    EstimateIsLoad(Current(past, w, now), Previous(past, w, now), w, Elapsed(w, now), estimate);
    LoadIsWeightedCount(past, w, now);
    JudgedByEstimate(estimate, Load(past, w, now), limit, w, w - Elapsed(w, now));
  }

  // ------------------------------------------------------------------- in process

  datatype Window = Window(start: nat, current: nat, previous: nat, windowSecs: nat)

  /** `entry` summarises `log` for every decision from `clock` on. */
  ghost predicate Tracks(entry: Window, log: seq<nat>, w: nat, clock: nat) {
    && w > 0
    && entry.windowSecs == w
    && Aligned(entry.start, w)
    && entry.start <= clock
    && entry.current == CountIn(log, entry.start, entry.start + w)
    && entry.previous == CountIn(log, entry.start - w, entry.start)
    && forall i :: 0 <= i < |log| ==> log[i] < entry.start + w
  }

  /** No decision from `clock` on depends on `log`. */
  ghost predicate Stale(log: seq<nat>, w: nat, clock: nat) {
    w > 0 && forall i :: 0 <= i < |log| ==> log[i] + w < WindowStart(clock, w)
  }

  lemma StaleStays(log: seq<nat>, w: nat, clock: nat, now: nat)
    requires Stale(log, w, clock) && clock <= now
    ensures Stale(log, w, now)
  {
    WindowStartMonotone(clock, now, w);
  }

  lemma StaleCountsNothing(log: seq<nat>, w: nat, now: nat)
    requires Stale(log, w, now)
    ensures Tracks(Window(WindowStart(now, w), 0, 0, w), log, w, now)
  {
    var s := WindowStart(now, w);
    CountNone(log, s, s + w);
    CountNone(log, s - w, s);
  }

  /** Rolling an entry over keeps it a summary of its log. */
  lemma RollKeepsTrack(entry: Window, log: seq<nat>, w: nat, clock: nat, now: nat)
    requires Tracks(entry, log, w, clock) && clock <= now
    ensures var s := WindowStart(now, w);
            && entry.start <= s
            && (s == entry.start + w ==> Tracks(Window(s, 0, entry.current, w), log, w, now))
            && (s > entry.start && s != entry.start + w ==> Tracks(Window(s, 0, 0, w), log, w, now))
            && (s == entry.start ==> Tracks(entry, log, w, now))
  {
    var s := WindowStart(now, w);
    SameWindow(entry.start, entry.start, w);
    WindowStartMonotone(entry.start, now, w);
    if s > entry.start {
      AlignedApart(entry.start, s, w);
      CountNone(log, s, s + w);
      if s != entry.start + w {
        WindowsAdvance(entry.start, now, w);
        CountNone(log, s - w, s);
      }
    }
  }

  /** Two windows of silence leave nothing to remember. */
  lemma IdleIsStale(entry: Window, log: seq<nat>, w: nat, clock: nat, now: nat)
    requires Tracks(entry, log, w, clock) && clock <= now
    requires entry.start < SatSub(now, w * 2)
    ensures Stale(log, w, now)
  {
    var s := WindowStart(now, w);
    assert Aligned(entry.start + w, w);
    AlignedApart(entry.start + w, s, w);
  }

  lemma TrackOneMore(entry: Window, log: seq<nat>, w: nat, now: nat)
    requires Tracks(entry, log, w, now) && entry.start == WindowStart(now, w)
    ensures Tracks(entry.(current := entry.current + 1), log + [now], w, now)
  {
    CountAppend(log, now, entry.start, entry.start + w);
    CountAppend(log, now, entry.start - w, entry.start);
  }

  type Log = map<Key, seq<nat>>

  function LogOf(log: Log, key: Key): seq<nat> {
    if key in log then log[key] else []
  }

  ghost predicate Good(windows: map<Key, Window>, log: Log, windowOf: string -> nat,
                       k: Key, now: nat)
    requires k in log
  {
    if k in windows then Tracks(windows[k], log[k], windowOf(k.policy), now)
    else Stale(log[k], windowOf(k.policy), now)
  }

  /** The map holds all that any decision from `clock` on can need of the log. */
  ghost predicate Summarised(windows: map<Key, Window>, log: Log, windowOf: string -> nat,
                             clock: nat)
  {
    windows.Keys <= log.Keys && forall k :: k in log ==> Good(windows, log, windowOf, k, clock)
  }

  lemma StoreKeeps(windows: map<Key, Window>, log: Log, windowOf: string -> nat, clock: nat,
                   key: Key, entry: Window, past: seq<nat>, now: nat)
    requires Summarised(windows, log, windowOf, clock) && clock <= now
    requires Tracks(entry, past, windowOf(key.policy), now)
    ensures Summarised(windows[key := entry], log[key := past], windowOf, now)
  {
    var windows', log' := windows[key := entry], log[key := past];
    forall k | k in log' ensures Good(windows', log', windowOf, k, now) {
      if k != key {
        assert Good(windows, log, windowOf, k, clock);
        if k !in windows {
          StaleStays(log[k], windowOf(k.policy), clock, now);
        }
      }
    }
  }

  lemma SweepKeeps(windows: map<Key, Window>, swept: map<Key, Window>, log: Log,
                   windowOf: string -> nat, clock: nat, now: nat)
    requires Summarised(windows, log, windowOf, clock) && clock <= now
    requires forall k :: k in swept ==> k in windows && swept[k] == windows[k]
    requires forall k :: k in windows && k !in swept ==>
               windows[k].start < SatSub(now, windows[k].windowSecs * 2)
    ensures Summarised(swept, log, windowOf, now)
  {
    forall k | k in log ensures Good(swept, log, windowOf, k, now) {
      assert Good(windows, log, windowOf, k, clock);
      if k !in windows {
        StaleStays(log[k], windowOf(k.policy), clock, now);
      } else if k !in swept {
        IdleIsStale(windows[k], log[k], windowOf(k.policy), clock, now);
      }
    }
  }

  class MemoryRateLimiter {
    var windows: map<Key, Window>

    /** Each policy's window length, fixed by configuration. */
    ghost const windowOf: string -> nat
    /** Every admitted timestamp, per key. */
    ghost var log: Log
    /** The latest time seen. */
    ghost var clock: nat

    ghost predicate Valid()
      reads this
    {
      Summarised(windows, log, windowOf, clock)
    }

    constructor (ghost windowOf: string -> nat)
      ensures Valid() && log == map[] && clock == 0 && this.windowOf == windowOf
    {
      windows := map[];
      this.windowOf := windowOf;
      log := map[];
      clock := 0;
    }

    method CheckAt(policy: string, ip: Ip, maxRequests: nat, windowSecs: nat, now: nat)
      returns (a: Allowance)
      requires Valid()
      requires windowSecs > 0 && windowSecs == windowOf(policy)
      requires clock <= now
      modifies this
      ensures Valid() && clock == now
      ensures a == Verdict(LogOf(old(log), KeyFor(policy, ip)), maxRequests, windowSecs, now)
      ensures log == old(log)[KeyFor(policy, ip) :=
                LogOf(old(log), KeyFor(policy, ip)) + if a.allowed then [now] else []]
    {
      var key := KeyFor(policy, ip);
      ghost var past := LogOf(log, key);
      WindowStartIsModulo(now, windowSecs);
      var windowStart := now - now % windowSecs;
      var entry := Entry(key, windowSecs, windowStart, now);

      a := Decide(entry, maxRequests, windowSecs, now, past);
      if a.allowed {
        TrackOneMore(entry, past, windowSecs, now);
        entry := entry.(current := entry.current + 1);
      } else {
        assert past + [] == past;
      }
      ghost var past' := past + if a.allowed then [now] else [];
      StoreKeeps(windows, log, windowOf, clock, key, entry, past', now);
      windows := windows[key := entry];
      log := log[key := past'];
      clock := now;
    }

    /** The weighted estimate of a current entry, against the ceiling. */
    static method Decide(entry: Window, maxRequests: nat, windowSecs: nat, now: nat,
                         ghost past: seq<nat>)
      returns (a: Allowance)
      requires Tracks(entry, past, windowSecs, now) && entry.start == WindowStart(now, windowSecs)
      ensures a == Verdict(past, maxRequests, windowSecs, now)
    {
      var elapsed := now - entry.start;
      var carryFraction := (windowSecs - elapsed) as real / windowSecs as real;
      var estimated := entry.current as real + entry.previous as real * carryFraction;
      var resetSecs := windowSecs - elapsed;
      EstimateDecides(past, maxRequests, windowSecs, now, estimated);
      if estimated >= maxRequests as real {
        return Allowance(false, 0, maxRequests, resetSecs);
      }
      a := Allowance(true, RemainingAfter(maxRequests, estimated + 1.0), maxRequests, resetSecs);
    }

    /** The key's entry, created or rolled over to the window that starts at
        `windowStart`. */
    method Entry(key: Key, windowSecs: nat, windowStart: nat, now: nat) returns (entry: Window)
      requires Valid() && clock <= now
      requires windowSecs > 0 && windowSecs == windowOf(key.policy)
      requires windowStart == WindowStart(now, windowSecs)
      ensures Tracks(entry, LogOf(log, key), windowSecs, now) && entry.start == windowStart
    {
      entry := if key in windows then windows[key] else Window(windowStart, 0, 0, windowSecs);
      entry := entry.(windowSecs := windowSecs);
      if key in windows {
        assert Good(windows, log, windowOf, key, clock);
        RollKeepsTrack(entry, log[key], windowSecs, clock, now);
      } else {
        if key in log {
          assert Good(windows, log, windowOf, key, clock);
          StaleStays(log[key], windowSecs, clock, now);
        }
        StaleCountsNothing(LogOf(log, key), windowSecs, now);
      }
      if windowStart > entry.start {
        if windowStart - entry.start == windowSecs {
          entry := entry.(previous := entry.current);
        } else {
          entry := entry.(previous := 0);
        }
        entry := entry.(current := 0);
        entry := entry.(start := windowStart);
      }
    }

    /** The idle sweep forgets keys without changing any later answer. */
    method CleanupIdleAt(now: nat) returns (reaped: nat)
      requires Valid() && clock <= now
      modifies this
      ensures Valid() && clock == now && log == old(log)
      ensures forall k :: k in windows <==>
                k in old(windows) && old(windows)[k].start >= SatSub(now, old(windows)[k].windowSecs * 2)
      ensures reaped == |old(windows)| - |windows|
    {
      var before := windows;
      var swept := map k | k in before && before[k].start >= SatSub(now, before[k].windowSecs * 2)
                     :: before[k];
      SweepKeeps(before, swept, log, windowOf, clock, now);
      KeysShrink(swept, before);
      windows := swept;
      clock := now;
      reaped := |before| - |swept|;
    }
  }

  lemma KeysShrink<K, V>(small: map<K, V>, big: map<K, V>)
    requires small.Keys <= big.Keys
    ensures |small| <= |big|
  {
    assert big.Keys == small.Keys + (big.Keys - small.Keys);
  }

  // ----------------------------------------------------------------------- in Redis

  /** A counter key: `INCR` keeps it, `EXPIRE` sets when it disappears. */
  datatype Counter = Counter(value: nat, expiresAt: nat)

  /** The counter of window `s` holds the log's count of it, and lives until no
      later decision reads it. */
  ghost predicate Counts(counters: map<(Key, nat), Counter>, log: Log, windowOf: string -> nat,
                         key: Key, s: nat)
  {
    var w := windowOf(key.policy);
    if (key, s) in counters then
      && counters[(key, s)].value == CountIn(LogOf(log, key), s, s + w)
      && counters[(key, s)].expiresAt >= s + w + w
    else CountIn(LogOf(log, key), s, s + w) == 0
  }

  ghost predicate Counted(counters: map<(Key, nat), Counter>, log: Log, windowOf: string -> nat) {
    forall key: Key, s: nat ::
      windowOf(key.policy) > 0 && Aligned(s, windowOf(key.policy)) ==>
        Counts(counters, log, windowOf, key, s)
  }

  /** `INCR` of the current window's counter, then `EXPIRE` at twice the window. */
  lemma IncrementKeeps(counters: map<(Key, nat), Counter>, log: Log, windowOf: string -> nat,
                       key: Key, now: nat, w: nat)
    requires Counted(counters, log, windowOf) && w == windowOf(key.policy) > 0
    ensures var s := WindowStart(now, w);
            var counter := Counter(Current(LogOf(log, key), w, now) + 1, now + w * 2);
            Counted(counters[(key, s) := counter], log[key := LogOf(log, key) + [now]], windowOf)
  {
    var past := LogOf(log, key);
    var at := WindowStart(now, w);
    var counters' := counters[(key, at) := Counter(Current(past, w, now) + 1, now + w * 2)];
    var log' := log[key := past + [now]];
    forall k: Key, s: nat | windowOf(k.policy) > 0 && Aligned(s, windowOf(k.policy))
      ensures Counts(counters', log', windowOf, k, s)
    {
      assert Counts(counters, log, windowOf, k, s);
      if k == key {
        CountAppend(past, now, s, s + w);
        if s <= now < s + w {
          SameWindow(now, s, w);
        }
      }
    }
  }

  /** Storing an unchanged log changes nothing. */
  lemma SameLogKeeps(counters: map<(Key, nat), Counter>, log: Log, windowOf: string -> nat, key: Key)
    requires Counted(counters, log, windowOf)
    ensures Counted(counters, log[key := LogOf(log, key) + []], windowOf)
  {
    assert LogOf(log, key) + [] == LogOf(log, key);
    var log' := log[key := LogOf(log, key) + []];
    forall k: Key, s: nat | windowOf(k.policy) > 0 && Aligned(s, windowOf(k.policy))
      ensures Counts(counters, log', windowOf, k, s)
    {
      assert Counts(counters, log, windowOf, k, s);
    }
  }

  /** What `GET` returns for the two counters a decision reads. */
  lemma ReadsCounts(counters: map<(Key, nat), Counter>, log: Log, windowOf: string -> nat,
                    key: Key, now: nat, w: nat)
    requires Counted(counters, log, windowOf) && w == windowOf(key.policy) > 0
    ensures var s := WindowStart(now, w);
            && Get(counters, key, s, now) == Current(LogOf(log, key), w, now)
            && (now >= w ==> s >= w && Get(counters, key, s - w, now) == Previous(LogOf(log, key), w, now))
            && (now < w ==> s == 0)
  {
    var s := WindowStart(now, w);
    assert Counts(counters, log, windowOf, key, s);
    if now >= w {
      assert Counts(counters, log, windowOf, key, s - w);
    }
  }

  /** `GET`, reading a missing or expired key as zero. */
  function Get(counters: map<(Key, nat), Counter>, key: Key, s: nat, now: nat): nat {
    if (key, s) in counters && now < counters[(key, s)].expiresAt
    then counters[(key, s)].value else 0
  }

  /** What the script answers for a log: in the very first window of the epoch the
      previous counter's key is the current one's. */
  function RedisAnswer(past: seq<nat>, limit: nat, w: nat, now: nat): Allowance
    requires w > 0
  {
    if now >= w then Verdict(past, limit, w, now)
    else FirstWindowAnswer(Current(past, w, now), limit, w, now)
  }

  lemma ScriptDecides(past: seq<nat>, cur: nat, prev: nat, limit: nat, w: nat, now: nat,
                      estimate: real)
    requires w > 0 && cur == Current(past, w, now)
    requires prev == if now >= w then Previous(past, w, now) else cur
    requires estimate
             == cur as real + prev as real * ((w - Elapsed(w, now)) as real / w as real)
    ensures RedisAnswer(past, limit, w, now)
            == Allowance(estimate < limit as real,
                         if estimate < limit as real then RemainingAfter(limit, estimate + 1.0) else 0,
                         limit, w - Elapsed(w, now))
    ensures Ceil(estimate + 1.0) >= 1
  {
    if now < w {
      FirstWindowEstimateDecides(cur, limit, w, now, estimate);
    } else {
      EstimateDecides(past, limit, w, now, estimate);
    }
  }

  class RedisRateLimiter {
    var counters: map<(Key, nat), Counter>

    ghost const windowOf: string -> nat
    ghost var log: Log
    ghost var clock: nat

    ghost predicate Valid()
      reads this
    {
      Counted(counters, log, windowOf)
    }

    constructor (ghost windowOf: string -> nat)
      ensures Valid() && log == map[] && clock == 0 && this.windowOf == windowOf
    {
      counters := map[];
      this.windowOf := windowOf;
      log := map[];
      clock := 0;
    }

    /** One request. `reachable` says whether the script ran; if not, the request
        is denied and nothing is counted. */
    method CheckAt(policy: string, ip: Ip, maxRequests: nat, windowSecs: nat, now: nat,
                   reachable: bool)
      returns (a: Allowance)
      requires Valid()
      requires windowSecs > 0 && windowSecs == windowOf(policy)
      requires clock <= now
      modifies this
      ensures Valid() && clock == now
      ensures reachable ==>
                a == RedisAnswer(LogOf(old(log), KeyFor(policy, ip)), maxRequests, windowSecs, now)
      ensures !reachable ==>
                a == Allowance(false, 0, maxRequests, windowSecs - Elapsed(windowSecs, now))
      ensures log == old(log)[KeyFor(policy, ip) :=
                LogOf(old(log), KeyFor(policy, ip)) + if a.allowed then [now] else []]
    {
      var key := KeyFor(policy, ip);
      WindowStartIsModulo(now, windowSecs);
      var windowStart := now - now % windowSecs;
      var elapsed := now - windowStart;
      var resetSecs := windowSecs - elapsed;
      clock := now;
      if !reachable {
        a := Allowance(false, 0, maxRequests, resetSecs);
        SameLogKeeps(counters, log, windowOf, key);
        log := log[key := LogOf(log, key) + []];
        return;
      }
      a := RunScript(key, maxRequests, windowSecs, windowStart, now);
    }

    /** The script, run indivisibly. */
    method RunScript(key: Key, limit: nat, windowSecs: nat, windowStart: nat, now: nat)
      returns (a: Allowance)
      requires Valid()
      requires windowSecs > 0 && windowSecs == windowOf(key.policy)
      requires windowStart == WindowStart(now, windowSecs)
      modifies this
      ensures Valid() && clock == old(clock)
      ensures a == RedisAnswer(LogOf(old(log), key), limit, windowSecs, now)
      ensures log == old(log)[key := LogOf(old(log), key) + if a.allowed then [now] else []]
    {
      var previousStart := SatSub(windowStart, windowSecs);
      var elapsed := now - windowStart;
      ReadsCounts(counters, log, windowOf, key, now, windowSecs);
      var cur := Get(counters, key, windowStart, now);
      var prev := Get(counters, key, previousStart, now);
      var admitted, remaining := Evaluate(cur, prev, limit, windowSecs, elapsed, now,
                                               LogOf(log, key));
      a := Allowance(admitted, remaining, limit, windowSecs - elapsed);
      if !admitted {
        SameLogKeeps(counters, log, windowOf, key);
        log := log[key := LogOf(log, key) + []];
      } else {
        IncrementKeeps(counters, log, windowOf, key, now, windowSecs);
        counters := counters[(key, windowStart) := Counter(cur + 1, now + windowSecs * 2)];
        log := log[key := LogOf(log, key) + [now]];
      }
    }

    /** The arithmetic of the script, on the two counts it read. */
    static method Evaluate(cur: nat, prev: nat, limit: nat, windowSecs: nat, elapsed: nat,
                           ghost now: nat, ghost past: seq<nat>)
      returns (admitted: bool, remaining: nat)
      requires windowSecs > 0 && elapsed == Elapsed(windowSecs, now)
      requires cur == Current(past, windowSecs, now)
      requires prev == if now >= windowSecs then Previous(past, windowSecs, now) else cur
      ensures RedisAnswer(past, limit, windowSecs, now)
              == Allowance(admitted, remaining, limit, windowSecs - elapsed)
    {
      var carry := (windowSecs - elapsed) as real / windowSecs as real;
      var est := cur as real + prev as real * carry;
      ScriptDecides(past, cur, prev, limit, windowSecs, now, est);
      if est >= limit as real {
        return false, 0;
      }
      var left := limit - Ceil(est + 1.0);
      if left < 0 {
        left := 0;
      }
      return true, left;
    }
  }

  // ------------------------------------------------- the first window of the epoch

  /** What Redis answers while the previous window's key is the current one's. */
  function FirstWindowAnswer(current: nat, limit: nat, w: nat, now: nat): Allowance
    requires now < w
  {
    Judge(current * w + current * (w - now), limit, w, w - now)
  }

  lemma FirstWindowEstimateDecides(c: nat, limit: nat, w: nat, now: nat, estimate: real)
    requires now < w
    requires estimate == c as real + c as real * ((w - now) as real / w as real)
    ensures var v := FirstWindowAnswer(c, limit, w, now);
            && v.limit == limit && v.resetSecs == w - now
            && (estimate >= limit as real ==> !v.allowed && v.remaining == 0)
            && (estimate < limit as real ==>
                  v.allowed && v.remaining == RemainingAfter(limit, estimate + 1.0))
    ensures Ceil(estimate + 1.0) >= 1
  {
    EstimateIsLoad(c, c, w, now, estimate);
    MulAtLeastZero(c, w - now);
    JudgedByEstimate(estimate, c * w + c * (w - now), limit, w, w - now);
  }

  /** Before one window has passed since the epoch the backends agree on every
      count exactly for ceilings of at most one, and of two after its first second. */
  lemma FirstWindowAgreement(limit: nat, w: nat, now: nat)
    requires now < w
    ensures (forall current: nat :: current <= limit ==>
               FirstWindowAnswer(current, limit, w, now) == Judge(current * w, limit, w, w - now))
            <==> limit <= 1 || (limit == 2 && now > 0)
  {
    if limit <= 1 || (limit == 2 && now > 0) {
      forall current: nat | current <= limit
        ensures FirstWindowAnswer(current, limit, w, now) == Judge(current * w, limit, w, w - now)
      {
        FirstWindowCase(current, limit, w, now);
      }
    } else {
      FirstWindowCase(1, limit, w, now);
      assert FirstWindowAnswer(1, limit, w, now) != Judge(1 * w, limit, w, w - now);
    }
  }

  lemma FirstWindowCase(current: nat, limit: nat, w: nat, now: nat)
    requires now < w && current <= limit
    ensures current == 0 || current == limit ==>
              FirstWindowAnswer(current, limit, w, now) == Judge(current * w, limit, w, w - now)
    ensures current == 1 && limit == 2 && now > 0 ==>
              FirstWindowAnswer(1, limit, w, now) == Judge(1 * w, limit, w, w - now)
    ensures current == 1 && (limit >= 3 || (limit == 2 && now == 0)) ==>
              FirstWindowAnswer(1, limit, w, now) != Judge(1 * w, limit, w, w - now)
  {
    MulAtLeastZero(current, w - now);
    if current == 1 && limit >= 2 {
      MulMonotone(2, limit, w);
      if limit >= 3 {
        MulMonotone(3, limit, w);
      }
      var mem, red := CeilDiv(w + w, w), CeilDiv(w + (w - now) + w, w);
      CeilDivBounds(w + w, w);
      CeilDivBounds(w + (w - now) + w, w);
      assert 1 * w == w && 2 * w == w + w && 3 * w == w + w + w && 4 * w == w + w + w + w;
      CancelAtMost(2, mem, w);
      CancelLess(mem, 3, w);
      CancelLess(2, red, w);
      CancelLess(red, 4, w);
    }
  }

  // ------------------------------------------------------------------- whole runs

  datatype Event =
    | Check(policy: string, ip: Ip, limit: nat, now: nat)
    | Sweep(now: nat)

  /** A sweep is answered nothing. */
  datatype Outcome = Outcome(log: Log, answers: seq<Option<Allowance>>)

  /** What the log of admitted timestamps answers to a run of requests on any keys;
      sweeps mean nothing to it. */
  function LogRun(events: seq<Event>, windowOf: string -> nat): (o: Outcome)
    requires Served(events, windowOf)
    ensures |o.answers| == |events|
  {
    if events == [] then Outcome(map[], [])
    else LogStep(LogRun(events[..|events| - 1], windowOf), events[|events| - 1], windowOf)
  }

  function LogStep(before: Outcome, event: Event, windowOf: string -> nat): Outcome
    requires event.Check? ==> windowOf(event.policy) > 0
  {
    match event
    case Sweep(_) => Outcome(before.log, before.answers + [None])
    case Check(policy, ip, limit, now) =>
      var key := KeyFor(policy, ip);
      var past := LogOf(before.log, key);
      var a := Verdict(past, limit, windowOf(policy), now);
      Outcome(before.log[key := past + if a.allowed then [now] else []], before.answers + [Some(a)])
  }

  /** Every policy asked about has a window. */
  predicate Served(events: seq<Event>, windowOf: string -> nat) {
    forall i :: 0 <= i < |events| && events[i].Check? ==> windowOf(events[i].policy) > 0
  }

  predicate InOrder(events: seq<Event>) {
    forall i, j :: 0 <= i < j < |events| ==> events[i].now <= events[j].now
  }

  method ServeOne(m: MemoryRateLimiter, r: RedisRateLimiter, event: Event, windowOf: string -> nat,
                  ghost before: Outcome)
    returns (a: Option<Allowance>, b: Option<Allowance>)
    requires m.Valid() && r.Valid() && m.windowOf == windowOf == r.windowOf
    requires m.clock <= event.now && r.clock <= event.now
    requires event.Check? ==> 0 < windowOf(event.policy) <= event.now
    requires m.log == r.log == before.log
    modifies m, r
    ensures m.Valid() && r.Valid() && m.clock <= event.now && r.clock <= event.now
    ensures m.log == r.log == LogStep(before, event, windowOf).log
    ensures before.answers + [a] == before.answers + [b] == LogStep(before, event, windowOf).answers
  {
    match event {
      case Sweep(now) =>
        var _ := m.CleanupIdleAt(now);
        a, b := None, None;
      case Check(policy, ip, limit, now) =>
        var fromMemory := m.CheckAt(policy, ip, limit, windowOf(policy), now);
        var fromRedis := r.CheckAt(policy, ip, limit, windowOf(policy), now, true);
        a, b := Some(fromMemory), Some(fromRedis);
    }
  }

  /** Both backends, given the same requests at the same times with idle sweeps in
      between, give the answers of the log, hence each other's. */
  method ServeBoth(events: seq<Event>, windowOf: string -> nat)
    returns (memory: seq<Option<Allowance>>, redis: seq<Option<Allowance>>)
    requires Served(events, windowOf) && InOrder(events)
    requires forall i :: 0 <= i < |events| && events[i].Check? ==> windowOf(events[i].policy) <= events[i].now
    ensures memory == redis == LogRun(events, windowOf).answers
  {
    var m := new MemoryRateLimiter(windowOf);
    var r := new RedisRateLimiter(windowOf);
    memory, redis := [], [];
    var i := 0;
    while i < |events|
      invariant 0 <= i <= |events|
      invariant fresh(m) && fresh(r) && m.Valid() && r.Valid()
      invariant m.windowOf == windowOf == r.windowOf
      invariant i < |events| ==> m.clock <= events[i].now && r.clock <= events[i].now
      invariant m.log == r.log == LogRun(events[..i], windowOf).log
      invariant memory == redis == LogRun(events[..i], windowOf).answers
    {
      assert events[..i + 1][..i] == events[..i];
      ghost var before := LogRun(events[..i], windowOf);
      var a, b := ServeOne(m, r, events[i], windowOf, before);
      memory, redis := memory + [a], redis + [b];
      i := i + 1;
    }
    assert events[..i] == events;
  }

  predicate IsOn(event: Event, key: Key) {
    event.Check? && KeyFor(event.policy, event.ip) == key
  }

  /** The requests of a run that fall on one key. */
  function HitsOn(events: seq<Event>, key: Key): seq<Hit> {
    if events == [] then []
    else
      var event := events[|events| - 1];
      HitsOn(events[..|events| - 1], key)
      + if IsOn(event, key) then [Hit(event.limit, event.now)] else []
  }

  /** What those requests were told. */
  function ToldOn(events: seq<Event>, answers: seq<Option<Allowance>>, key: Key): seq<Allowance>
    requires |answers| == |events|
  {
    if events == [] then []
    else
      var n := |events| - 1;
      ToldOn(events[..n], answers[..n], key)
      + if IsOn(events[n], key) && answers[n].Some? then [answers[n].value] else []
  }

  function ToldInRun(events: seq<Event>, windowOf: string -> nat, key: Key): seq<Allowance>
    requires Served(events, windowOf)
  {
    ToldOn(events, LogRun(events, windowOf).answers, key)
  }

  /** Keys do not interfere: each is remembered, and answered, as if it were alone. */
  lemma {:induction false} KeysAreIndependent(events: seq<Event>, windowOf: string -> nat, key: Key)
    requires windowOf(key.policy) > 0 && Served(events, windowOf)
    ensures LogOf(LogRun(events, windowOf).log, key)
            == LogAfter(HitsOn(events, key), windowOf(key.policy))
    ensures ToldInRun(events, windowOf, key)
            == Answers(HitsOn(events, key), windowOf(key.policy))
  {
    if events != [] {
      var rest, event := events[..|events| - 1], events[|events| - 1];
      KeysAreIndependent(rest, windowOf, key);
      assert LogRun(events, windowOf).answers[..|rest|] == LogRun(rest, windowOf).answers;
      if IsOn(event, key) {
        OneMoreHit(HitsOn(rest, key), Hit(event.limit, event.now), windowOf(key.policy));
      } else {
        assert HitsOn(events, key) == HitsOn(rest, key);
      }
    }
  }

  lemma OneMoreHit(hits: seq<Hit>, hit: Hit, w: nat)
    requires w > 0
    ensures var log := LogAfter(hits, w);
            && LogAfter(hits + [hit], w)
               == log + (if Verdict(log, hit.limit, w, hit.now).allowed then [hit.now] else [])
            && Answers(hits + [hit], w) == Answers(hits, w) + [Verdict(log, hit.limit, w, hit.now)]
  {
    LogAfterOneMore(hits, hit, w);
    assert (hits + [hit])[..|hits|] == hits;
  }

  // ------------------------------------------------------------ who shares a meter

  /** The same V4 address, or two V6 addresses of one /64. */
  predicate SameClient(a: Ip, b: Ip) {
    match (a, b)
    case (V4(x), V4(y)) => x == y
    case (V6(prefix, _), V6(prefix', _)) => prefix == prefix'
    case _ => false
  }

  predicate IsFrom(event: Event, policy: string, ip: Ip) {
    event.Check? && event.policy == policy && SameClient(event.ip, ip)
  }

  /** Keys stand for clients. */
  lemma KeysAreClients(event: Event, policy: string, ip: Ip)
    ensures IsOn(event, KeyFor(policy, ip)) <==> IsFrom(event, policy, ip)
  {
  }

  /** Two requests share an allowance exactly when they name one policy and come from one
      V4 address, or from one V6 /64 whatever the interface. */
  lemma SharedAllowanceIff(p: string, a: Ip, q: string, b: Ip, windowOf: string -> nat, now: nat)
    requires windowOf(p) > 0 && windowOf(q) > 0
    ensures var events := [Check(p, a, 1, now), Check(q, b, 1, now)];
            var answers := LogRun(events, windowOf).answers;
            && answers[0].Some? && answers[0].value.allowed && answers[1].Some?
            && (!answers[1].value.allowed
                <==> && p == q
                     && ((a.V4? && b.V4? && a.address == b.address)
                         || (a.V6? && b.V6? && a.prefix == b.prefix)))
  {
    var first, second := Check(p, a, 1, now), Check(q, b, 1, now);
    assert [first, second][..1] == [first] && [first][..0] == [];
    assert LogRun([first], windowOf) == LogStep(Outcome(map[], []), first, windowOf);
    assert LogRun([first, second], windowOf) == LogStep(LogRun([first], windowOf), second, windowOf);
    assert Load([], windowOf(p), now) == 0 && Load([], windowOf(q), now) == 0;
    assert [] + [now] == [now];
    LoadAppend([], windowOf(p), now, now);
  }

  /** The times at which a client was admitted, read off the answers of a run. */
  function AdmittedTimes(events: seq<Event>, answers: seq<Option<Allowance>>, policy: string, ip: Ip)
    : seq<nat>
    requires |answers| == |events|
  {
    if events == [] then []
    else
      var n := |events| - 1;
      AdmittedTimes(events[..n], answers[..n], policy, ip)
      + if IsFrom(events[n], policy, ip) && answers[n].Some? && answers[n].value.allowed
        then [events[n].now] else []
  }

  lemma {:induction false} AdmittedIsLogged(events: seq<Event>, windowOf: string -> nat,
                                            policy: string, ip: Ip)
    requires Served(events, windowOf)
    ensures AdmittedTimes(events, LogRun(events, windowOf).answers, policy, ip)
            == LogOf(LogRun(events, windowOf).log, KeyFor(policy, ip))
  {
    if events != [] {
      var n := |events| - 1;
      AdmittedIsLogged(events[..n], windowOf, policy, ip);
      assert LogRun(events, windowOf).answers[..n] == LogRun(events[..n], windowOf).answers;
      KeysAreClients(events[n], policy, ip);
    }
  }

  lemma {:induction false} OneLimitOnKey(events: seq<Event>, policy: string, ip: Ip, limit: nat)
    requires InOrder(events)
    requires forall i :: 0 <= i < |events| && IsFrom(events[i], policy, ip) ==> events[i].limit == limit
    ensures UnderOneLimit(HitsOn(events, KeyFor(policy, ip)), limit)
  {
    var key := KeyFor(policy, ip);
    HitsAreSorted(events, key);
    forall i | 0 <= i < |HitsOn(events, key)| ensures HitsOn(events, key)[i].limit == limit {
      var k := HitsInOrder(events, key, i);
      KeysAreClients(events[k], policy, ip);
    }
  }

  /** Whatever else the limiter serves, all the addresses of one client together are
      admitted at most the burst ceiling in any `w` consecutive seconds, and at most
      `limit` times in an aligned window. */
  lemma ClientIsBounded(events: seq<Event>, windowOf: string -> nat, policy: string, ip: Ip,
                        limit: nat, t: nat)
    requires windowOf(policy) > 0 && Served(events, windowOf) && InOrder(events)
    requires forall i :: 0 <= i < |events| && IsFrom(events[i], policy, ip) ==> events[i].limit == limit
    ensures Bounded(AdmittedTimes(events, LogRun(events, windowOf).answers, policy, ip), limit,
                    windowOf(policy), t)
  {
    AdmittedIsLogged(events, windowOf, policy, ip);
    KeysAreIndependent(events, windowOf, KeyFor(policy, ip));
    OneLimitOnKey(events, policy, ip, limit);
    RunIsBounded(HitsOn(events, KeyFor(policy, ip)), limit, windowOf(policy), t);
  }

  // ------------------------------------------------------- the meter, over whole runs

  lemma {:induction false} HitsInOrder(events: seq<Event>, key: Key, i: nat) returns (k: nat)
    requires i < |HitsOn(events, key)|
    ensures k < |events| && IsOn(events[k], key)
    ensures HitsOn(events, key)[i] == Hit(events[k].limit, events[k].now)
  {
    var rest := events[..|events| - 1];
    if i < |HitsOn(rest, key)| {
      k := HitsInOrder(rest, key, i);
    } else {
      k := |events| - 1;
    }
  }

  lemma {:induction false} HitsAreSorted(events: seq<Event>, key: Key)
    requires InOrder(events)
    ensures forall i, j :: 0 <= i < j < |HitsOn(events, key)| ==>
              HitsOn(events, key)[i].now <= HitsOn(events, key)[j].now
  {
    if events != [] {
      var rest := events[..|events| - 1];
      HitsAreSorted(rest, key);
      forall i | 0 <= i < |HitsOn(rest, key)|
        ensures HitsOn(rest, key)[i].now <= events[|events| - 1].now
      {
        var k := HitsInOrder(rest, key, i);
      }
    }
  }

  lemma {:induction false} HitsConcat(a: seq<Event>, b: seq<Event>, key: Key)
    ensures HitsOn(a + b, key) == HitsOn(a, key) + HitsOn(b, key)
  {
    if b == [] {
      assert a + b == a;
    } else {
      var n := |b| - 1;
      HitsConcat(a, b[..n], key);
      assert (a + b)[..|a| + n] == a + b[..n];
    }
  }

  lemma TrafficOn(before: seq<Event>, asked: Event, later: seq<Event>, key: Key)
    requires InOrder(before + [asked] + later) && IsOn(asked, key)
    ensures HitsOn(before + [asked] + later, key)
            == HitsOn(before, key) + [Hit(asked.limit, asked.now)] + HitsOn(later, key)
    ensures SortedHits(HitsOn(before + [asked] + later, key))
  {
    HitsConcat(before + [asked], later, key);
    HitsConcat(before, [asked], key);
    assert [asked][..0] == [];
    HitsAreSorted(before + [asked] + later, key);
  }

  /** If the `n`-th answer admitted and reported more than `i` remaining, the `i`-th
      after it admits. */
  predicate Honoured(told: seq<Allowance>, n: nat, i: nat) {
    && n + 1 + i < |told|
    && (told[n].allowed && i < told[n].remaining ==> told[n + 1 + i].allowed)
  }

  /** In any traffic, with sweeps and other clients at work: of the requests a client
      makes after being told `remaining`, the first that many are all admitted. */
  lemma MeterIsHonouredInTraffic(before: seq<Event>, asked: Event, later: seq<Event>,
                                 windowOf: string -> nat, key: Key, i: nat)
    requires Served(before + [asked] + later, windowOf) && InOrder(before + [asked] + later)
    requires IsOn(asked, key) && windowOf(key.policy) > 0
    requires i < |HitsOn(later, key)|
    requires forall j :: 0 <= j < |HitsOn(later, key)| ==> HitsOn(later, key)[j].limit == asked.limit
    ensures Honoured(ToldInRun(before + [asked] + later, windowOf, key), |HitsOn(before, key)|, i)
  {
    var all, w := before + [asked] + later, windowOf(key.policy);
    KeysAreIndependent(all, windowOf, key);
    TrafficOn(before, asked, later, key);
    MeterInRun(HitsOn(before, key), Hit(asked.limit, asked.now), HitsOn(later, key), w, i);
  }

  predicate SortedHits(hits: seq<Hit>) {
    forall i, j :: 0 <= i < j < |hits| ==> hits[i].now <= hits[j].now
  }

  lemma MeterInRun(hits: seq<Hit>, hit: Hit, more: seq<Hit>, w: nat, i: nat)
    requires w > 0 && SortedHits(hits + [hit] + more)
    requires forall j :: 0 <= j < |more| ==> more[j].limit == hit.limit
    requires i < |more|
    ensures Honoured(Answers(hits + [hit] + more, w), |hits|, i)
  {
    AnswerOfPrefix(hits + [hit] + more, w, |hits|);
    assert (hits + [hit] + more)[..|hits|] == hits;
    AnswerOfPrefix(hits + [hit] + more, w, |hits| + 1 + i);
    assert (hits + [hit] + more)[..|hits| + 1 + i] == hits + [hit] + more[..i];
    var report := Verdict(LogAfter(hits, w), hit.limit, w, hit.now);
    if report.allowed && i < report.remaining {
      LogWhileHonoured(hits, hit, more, w, i);
      HonouredOnce(hits, hit, more, w, i);
    }
  }

  lemma {:induction false} AnswerOfPrefix(hits: seq<Hit>, w: nat, k: nat)
    requires w > 0 && k < |hits|
    ensures Answers(hits, w)[k] == Verdict(LogAfter(hits[..k], w), hits[k].limit, w, hits[k].now)
    decreases |hits|
  {
    if k < |hits| - 1 {
      AnswerOfPrefix(hits[..|hits| - 1], w, k);
      assert hits[..|hits| - 1][..k] == hits[..k];
    }
  }

  function Times(hits: seq<Hit>): (times: seq<nat>)
    ensures |times| == |hits| && forall i :: 0 <= i < |hits| ==> times[i] == hits[i].now
  {
    if hits == [] then [] else Times(hits[..|hits| - 1]) + [hits[|hits| - 1].now]
  }

  /** The `i`-th request is admitted if those before it were. */
  lemma HonouredOnce(hits: seq<Hit>, hit: Hit, more: seq<Hit>, w: nat, i: nat)
    requires w > 0 && SortedHits(hits + [hit] + more)
    requires forall j :: 0 <= j < |more| ==> more[j].limit == hit.limit
    requires Verdict(LogAfter(hits, w), hit.limit, w, hit.now).allowed
    requires i < |more| && i < Verdict(LogAfter(hits, w), hit.limit, w, hit.now).remaining
    requires LogAfter(hits + [hit] + more[..i], w) == LogAfter(hits, w) + [hit.now] + Times(more[..i])
    ensures Verdict(LogAfter(hits + [hit] + more[..i], w), hit.limit, w, more[i].now).allowed
  {
    var all := hits + [hit] + more;
    var log, later := LogAfter(hits, w), Times(more[..i + 1]);
    assert all[|hits|] == hit;
    assert forall j :: 0 <= j < |more| ==> all[|hits| + 1 + j] == more[j];
    forall k | 0 <= k < |log| ensures log[k] <= hit.now {
      var j := LogTimes(hits, w, k);
      assert all[j] == hits[j];
    }
    assert later[..i] == Times(more[..i]);
    MeterIsHonoured(log, hit.limit, w, hit.now, later);
  }

  lemma OneMoreIsLogged(hits: seq<Hit>, hit: Hit, log: seq<nat>, served: seq<Hit>, w: nat)
    requires w > 0 && LogAfter(hits, w) == log + Times(served)
    requires Verdict(LogAfter(hits, w), hit.limit, w, hit.now).allowed
    ensures LogAfter(hits + [hit], w) == log + Times(served + [hit])
  {
    LogAfterOneMore(hits, hit, w);
    assert (served + [hit])[..|served|] == served;
  }

  lemma PrefixStep(before: seq<Hit>, more: seq<Hit>, i: nat)
    requires 0 < i <= |more|
    ensures more[..i] == more[..i - 1] + [more[i - 1]]
    ensures before + more[..i] == (before + more[..i - 1]) + [more[i - 1]]
  {
    assert more[..i] == more[..i - 1] + [more[i - 1]];
  }

  /** While the report is being honoured, the log holds every request since. */
  lemma {:induction false} LogWhileHonoured(hits: seq<Hit>, hit: Hit, more: seq<Hit>, w: nat, i: nat)
    requires w > 0 && SortedHits(hits + [hit] + more)
    requires forall j :: 0 <= j < |more| ==> more[j].limit == hit.limit
    requires Verdict(LogAfter(hits, w), hit.limit, w, hit.now).allowed
    requires i <= |more| && i <= Verdict(LogAfter(hits, w), hit.limit, w, hit.now).remaining
    ensures LogAfter(hits + [hit] + more[..i], w) == LogAfter(hits, w) + [hit.now] + Times(more[..i])
  {
    if i == 0 {
      assert hits + [hit] + more[..0] == hits + [hit];
      LogAfterOneMore(hits, hit, w);
    } else {
      LogWhileHonoured(hits, hit, more, w, i - 1);
      HonouredOnce(hits, hit, more, w, i - 1);
      OneMoreIsLogged(hits + [hit] + more[..i - 1], more[i - 1], LogAfter(hits, w) + [hit.now],
                      more[..i - 1], w);
      PrefixStep(hits + [hit], more, i);
    }
  }

  // ------------------------------------------------------ denied requests and sweeps

  /** What erasing may take out of a run: sweeps, and requests that were denied. */
  ghost predicate Erasable(events: seq<Event>, keep: seq<bool>, windowOf: string -> nat)
    requires |keep| == |events| && Served(events, windowOf)
  {
    forall i :: 0 <= i < |events| && !keep[i] && events[i].Check? ==>
      LogRun(events, windowOf).answers[i].Some? && !LogRun(events, windowOf).answers[i].value.allowed
  }

  lemma KeptStep<T>(xs: seq<T>, keep: seq<bool>)
    requires xs != [] && |keep| == |xs|
    ensures var n := |xs| - 1;
            Kept(xs, keep) == Kept(xs[..n], keep[..n]) + if keep[n] then [xs[n]] else []
  {
  }

  lemma {:induction false} KeptAreServed(events: seq<Event>, keep: seq<bool>, windowOf: string -> nat)
    requires |keep| == |events| && Served(events, windowOf)
    ensures Served(Kept(events, keep), windowOf)
  {
    if events != [] {
      KeptAreServed(events[..|events| - 1], keep[..|events| - 1], windowOf);
    }
  }

  ghost predicate SameLogs(a: Log, b: Log) {
    forall key :: LogOf(a, key) == LogOf(b, key)
  }

  /** In any traffic, sweeps and denied requests of any clients can be erased without
      changing what anybody else is told, now or later. */
  lemma {:induction false} ErasedAreInvisible(events: seq<Event>, keep: seq<bool>, windowOf: string -> nat)
    requires |keep| == |events| && Served(events, windowOf) && Erasable(events, keep, windowOf)
    ensures Served(Kept(events, keep), windowOf)
    ensures SameLogs(LogRun(Kept(events, keep), windowOf).log, LogRun(events, windowOf).log)
    ensures LogRun(Kept(events, keep), windowOf).answers == Kept(LogRun(events, windowOf).answers, keep)
  {
    KeptAreServed(events, keep, windowOf);
    if events != [] {
      var n := |events| - 1;
      var full, before := LogRun(events, windowOf), LogRun(events[..n], windowOf);
      assert full.answers[..n] == before.answers;
      forall i | 0 <= i < n && !keep[..n][i] && events[..n][i].Check?
        ensures before.answers[i].Some? && !before.answers[i].value.allowed
      {
        assert full.answers[i] == before.answers[i] && events[i] == events[..n][i];
      }
      ErasedAreInvisible(events[..n], keep[..n], windowOf);
      var shorter := Kept(events[..n], keep[..n]);
      KeptStep(events, keep);
      KeptStep(full.answers, keep);
      if keep[n] {
        assert (shorter + [events[n]])[..|shorter|] == shorter;
        SameStep(LogRun(shorter, windowOf), before, events[n], windowOf);
      } else {
        assert shorter + [] == shorter;
        NothingLogged(before, events[n], windowOf);
      }
    }
  }

  lemma SameStep(a: Outcome, b: Outcome, event: Event, windowOf: string -> nat)
    requires SameLogs(a.log, b.log) && (event.Check? ==> windowOf(event.policy) > 0)
    ensures var a', b' := LogStep(a, event, windowOf), LogStep(b, event, windowOf);
            && SameLogs(a'.log, b'.log)
            && a'.answers[|a.answers|..] == b'.answers[|b.answers|..]
  {
    var a', b' := LogStep(a, event, windowOf), LogStep(b, event, windowOf);
    forall key ensures LogOf(a'.log, key) == LogOf(b'.log, key) {
      assert LogOf(a.log, key) == LogOf(b.log, key);
      if event.Check? {
        assert LogOf(a.log, KeyFor(event.policy, event.ip)) == LogOf(b.log, KeyFor(event.policy, event.ip));
      }
    }
  }

  lemma NothingLogged(a: Outcome, event: Event, windowOf: string -> nat)
    requires event.Check? ==> windowOf(event.policy) > 0
    requires var told := LogStep(a, event, windowOf).answers[|a.answers|];
             told.Some? ==> !told.value.allowed
    ensures SameLogs(LogStep(a, event, windowOf).log, a.log)
  {
  }
}
