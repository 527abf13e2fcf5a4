/** The meaning of the free tier: what a limiter that remembered every admitted
    timestamp would answer. Both backends are proved against this specification
    (module RateLimit); the promises made to clients are proved here, about it.

    `w` is a policy's window length and `limit` its ceiling. A log is the list of
    timestamps admitted so far for one key. An admitted request weighs `w` until
    its aligned window ends; its weight then decays, a unit a second, over the
    next window. `Load` is the total weight, which is `w` times the estimate
    `current + previous * (w - elapsed) / w` the program computes. */
module RateLog {

  datatype Allowance = Allowance(allowed: bool, remaining: nat, limit: nat, resetSecs: nat)

  /** A multiple of `w`. */
  predicate Aligned(s: nat, w: nat)
    requires w > 0
  {
    s == 0 || (s >= w && Aligned(s - w, w))
  }

  /** Start of the aligned window that contains `now`. */
  function WindowStart(now: nat, w: nat): (s: nat)
    requires w > 0
    ensures s <= now < s + w && Aligned(s, w)
  {
    if now < w then 0 else w + WindowStart(now - w, w)
  }

  /** How many of the first `n` entries of `log` lie in `lo..hi`, the upper end
      excluded. */
  function CountTo(log: seq<nat>, n: nat, lo: int, hi: int): (count: nat)
    requires n <= |log|
    ensures count <= n
  {
    if n == 0 then 0
    else CountTo(log, n - 1, lo, hi) + if lo <= log[n - 1] < hi then 1 else 0
  }

  function CountIn(log: seq<nat>, lo: int, hi: int): nat {
    CountTo(log, |log|, lo, hi)
  }

  /** Admissions in the aligned window that contains `now`. */
  function Current(log: seq<nat>, w: nat, now: nat): nat
    requires w > 0
  {
    CountIn(log, WindowStart(now, w), WindowStart(now, w) + w)
  }

  /** Admissions in the aligned window before that one. */
  function Previous(log: seq<nat>, w: nat, now: nat): nat
    requires w > 0
  {
    CountIn(log, WindowStart(now, w) - w, WindowStart(now, w))
  }

  function Elapsed(w: nat, now: nat): (e: nat)
    requires w > 0
    ensures e < w
  {
    now - WindowStart(now, w)
  }

  /** What a request admitted at `t` still weighs at `now`. */
  function Weight(t: nat, w: nat, now: nat): nat
    requires w > 0
  {
    var s := WindowStart(now, w);
    if s <= t < s + w then w
    else if s - w <= t < s then w - (now - s)
    else 0
  }

  /** The weight of the first `n` entries of `log`. */
  function LoadTo(log: seq<nat>, n: nat, w: nat, now: nat): nat
    requires w > 0 && n <= |log|
  {
    if n == 0 then 0 else LoadTo(log, n - 1, w, now) + Weight(log[n - 1], w, now)
  }

  function Load(log: seq<nat>, w: nat, now: nat): nat
    requires w > 0
  {
    LoadTo(log, |log|, w, now)
  }

  /** `a / w`, rounded up. */
  function CeilDiv(a: nat, w: nat): nat
    requires w > 0
  {
    (a + w - 1) / w
  }

  /** What is answered when the weighted load is `load`. */
  function Judge(load: nat, limit: nat, w: nat, resetSecs: nat): Allowance
    requires w > 0
  {
    if load >= limit * w then Allowance(false, 0, limit, resetSecs)
    else
      var used := CeilDiv(load + w, w);
      Allowance(true, if used <= limit then limit - used else 0, limit, resetSecs)
  }

  function Verdict(log: seq<nat>, limit: nat, w: nat, now: nat): Allowance
    requires w > 0
  {
    Judge(Load(log, w, now), limit, w, w - Elapsed(w, now))
  }

  /** One request on a key: the ceiling in force and the time it arrived. */
  datatype Hit = Hit(limit: nat, now: nat)

  /** The log after a run of requests: only admitted ones are remembered. */
  function LogAfter(hits: seq<Hit>, w: nat): seq<nat>
    requires w > 0
  {
    if hits == [] then []
    else
      var log := LogAfter(hits[..|hits| - 1], w);
      var hit := hits[|hits| - 1];
      if Verdict(log, hit.limit, w, hit.now).allowed then log + [hit.now] else log
  }

  /** What each request of the run was told. */
  function Answers(hits: seq<Hit>, w: nat): (answers: seq<Allowance>)
    requires w > 0
    ensures |answers| == |hits|
  {
    if hits == [] then []
    else
      var hit := hits[|hits| - 1];
      Answers(hits[..|hits| - 1], w) +
      [Verdict(LogAfter(hits[..|hits| - 1], w), hit.limit, w, hit.now)]
  }

  predicate Sorted(log: seq<nat>) {
    forall i, j :: 0 <= i < j < |log| ==> log[i] <= log[j]
  }

  /** Logs that can arise under one ceiling: in time order, every entry admitted
      by what came before it. */
  predicate Admissible(log: seq<nat>, limit: nat, w: nat)
    requires w > 0
  {
    log == [] ||
    var rest, t := log[..|log| - 1], log[|log| - 1];
    && Admissible(rest, limit, w)
    && (forall i :: 0 <= i < |rest| ==> rest[i] <= t)
    && Verdict(rest, limit, w, t).allowed
  }

  predicate UnderOneLimit(hits: seq<Hit>, limit: nat) {
    && (forall i :: 0 <= i < |hits| ==> hits[i].limit == limit)
    && (forall i, j :: 0 <= i < j < |hits| ==> hits[i].now <= hits[j].now)
  }

  // ---------------------------------------------------------------- arithmetic

  /** The window start as the program computes it. */
  lemma {:induction false} WindowStartIsModulo(now: nat, w: nat)
    requires w > 0
    ensures WindowStart(now, w) == now - now % w
  {
    if now >= w {
      WindowStartIsModulo(now - w, w);
      ModuloStep(now, w);
    } else {
      assert now % w == now;
    }
  }

  lemma ModuloStep(now: nat, w: nat)
    requires 0 < w <= now
    ensures (now - w) % w == now % w
  {
    var a, b := now / w, (now - w) / w;
    assert now == a * w + now % w && now - w == b * w + (now - w) % w;
    assert (a - b - 1) * w == (now - w) % w - now % w;
    if a - b - 1 > 0 {
      MulMonotone(1, a - b - 1, w);
    } else if a - b - 1 < 0 {
      MulMonotone(a - b - 1, -1, w);
    }
  }

  lemma MulMonotone(a: int, b: int, w: nat)
    requires a <= b
    ensures a * w <= b * w
  {
  }

  /** Two aligned instants less than a window apart are equal. */
  lemma {:induction false} AlignedApart(a: nat, b: nat, w: nat)
    requires w > 0 && Aligned(a, w) && Aligned(b, w) && a < b
    ensures b - a >= w
  {
    if a > 0 {
      AlignedApart(a - w, b - w, w);
    }
  }

  lemma SameWindow(now: nat, s: nat, w: nat)
    requires w > 0 && Aligned(s, w) && s <= now < s + w
    ensures WindowStart(now, w) == s
  {
    var t := WindowStart(now, w);
    if t < s {
      AlignedApart(t, s, w);
    } else if s < t {
      AlignedApart(s, t, w);
    }
  }

  /** The load as the program computes it from two counters. */
  lemma LoadIsWeightedCount(log: seq<nat>, w: nat, now: nat)
    requires w > 0
    ensures Load(log, w, now)
            == Current(log, w, now) * w + Previous(log, w, now) * (w - Elapsed(w, now))
  {
    LoadToIsWeightedCount(log, |log|, w, now);
  }

  /** Admitted exactly while the two windows, weighted, are under the ceiling. */
  lemma AdmittedIff(log: seq<nat>, limit: nat, w: nat, now: nat)
    requires w > 0
    ensures Verdict(log, limit, w, now).allowed
            <==> Current(log, w, now) * w + Previous(log, w, now) * (w - Elapsed(w, now)) < limit * w
    ensures !Verdict(log, limit, w, now).allowed ==> Verdict(log, limit, w, now).remaining == 0
  {
    LoadIsWeightedCount(log, w, now);
  }

  /** Every answer names the ceiling, and the time until the next aligned window. */
  lemma ResetIsTheRollover(log: seq<nat>, limit: nat, w: nat, now: nat, t: nat)
    requires w > 0 && now < t
    ensures var a := Verdict(log, limit, w, now);
            && a.limit == limit && 1 <= a.resetSecs <= w
            && WindowStart(now + a.resetSecs, w) == now + a.resetSecs
            && (t < now + a.resetSecs ==> WindowStart(t, w) == WindowStart(now, w))
  {
    var s := WindowStart(now, w);
    assert Aligned(s + w, w);
    SameWindow(s + w, s + w, w);
    if t < s + w {
      SameWindow(t, s, w);
    }
  }

  lemma {:induction false} LoadToIsWeightedCount(log: seq<nat>, n: nat, w: nat, now: nat)
    requires w > 0 && n <= |log|
    ensures var s := WindowStart(now, w);
            LoadTo(log, n, w, now)
            == CountTo(log, n, s, s + w) * w + CountTo(log, n, s - w, s) * (w - (now - s))
  {
    if n > 0 {
      LoadToIsWeightedCount(log, n - 1, w, now);
      var s := WindowStart(now, w);
      Distribute(CountTo(log, n - 1, s, s + w), w);
      Distribute(CountTo(log, n - 1, s - w, s), w - (now - s));
    }
  }

  lemma Distribute(a: int, b: int)
    ensures (a + 1) * b == a * b + b
  {
  }

  lemma {:induction false} LoadToAgree(a: seq<nat>, b: seq<nat>, n: nat, w: nat, now: nat)
    requires w > 0 && n <= |a| && n <= |b|
    requires forall i :: 0 <= i < n ==> a[i] == b[i]
    ensures LoadTo(a, n, w, now) == LoadTo(b, n, w, now)
  {
    if n > 0 {
      LoadToAgree(a, b, n - 1, w, now);
    }
  }

  /** The load in terms of the window `s` that `now` falls into and its counts. */
  lemma LoadAt(log: seq<nat>, w: nat, s: nat, now: nat, c: nat, p: nat)
    requires w > 0 && Aligned(s, w) && s <= now < s + w
    requires CountIn(log, s, s + w) == c && CountIn(log, s - w, s) == p
    ensures WindowStart(now, w) == s && Elapsed(w, now) == now - s
    ensures Load(log, w, now) == c * w + p * (w - (now - s))
  {
    SameWindow(now, s, w);
    LoadIsWeightedCount(log, w, now);
  }

  lemma CeilDivBounds(a: nat, w: nat)
    requires w > 0
    ensures a <= CeilDiv(a, w) * w < a + w
  {
    var n := CeilDiv(a, w);
    assert a + w - 1 == n * w + (a + w - 1) % w;
  }

  lemma LessTimes(a: int, b: int, w: nat)
    requires a < b
    ensures a * w + w <= b * w
  {
    MulMonotone(a + 1, b, w);
    assert (a + 1) * w == a * w + w;
  }

  /** Cancelling a positive factor. */
  lemma CancelLess(a: int, b: int, w: nat)
    requires w > 0 && a * w < b * w
    ensures a < b
  {
    if a >= b {
      MulMonotone(b, a, w);
    }
  }

  lemma CancelAtMost(a: int, b: int, w: nat)
    requires w > 0 && a * w <= b * w
    ensures a <= b
  {
    if a > b {
      LessTimes(b, a, w);
    }
  }

  // ------------------------------------------------------------------ counting

  lemma CountSplit(log: seq<nat>, lo: int, mid: int, hi: int)
    requires lo <= mid <= hi
    ensures CountIn(log, lo, hi) == CountIn(log, lo, mid) + CountIn(log, mid, hi)
  {
    CountToSplit(log, |log|, lo, mid, hi);
  }

  lemma {:induction false} CountToSplit(log: seq<nat>, n: nat, lo: int, mid: int, hi: int)
    requires n <= |log| && lo <= mid <= hi
    ensures CountTo(log, n, lo, hi) == CountTo(log, n, lo, mid) + CountTo(log, n, mid, hi)
  {
    if n > 0 {
      CountToSplit(log, n - 1, lo, mid, hi);
    }
  }

  lemma CountNone(log: seq<nat>, lo: int, hi: int)
    requires forall i :: 0 <= i < |log| ==> log[i] < lo || hi <= log[i]
    ensures CountIn(log, lo, hi) == 0
  {
    CountToUniform(log, |log|, lo, hi, false);
  }

  lemma {:induction false} CountToUniform(log: seq<nat>, n: nat, lo: int, hi: int, inside: bool)
    requires n <= |log|
    requires forall i :: 0 <= i < n ==> (lo <= log[i] < hi) == inside
    ensures CountTo(log, n, lo, hi) == if inside then n else 0
  {
    if n > 0 {
      CountToUniform(log, n - 1, lo, hi, inside);
    }
  }

  /** Only the first `n` entries matter. */
  lemma {:induction false} CountToAgree(a: seq<nat>, b: seq<nat>, n: nat, lo: int, hi: int)
    requires n <= |a| && n <= |b|
    requires forall i :: 0 <= i < n ==> a[i] == b[i]
    ensures CountTo(a, n, lo, hi) == CountTo(b, n, lo, hi)
  {
    if n > 0 {
      CountToAgree(a, b, n - 1, lo, hi);
    }
  }

  lemma CountAppend(log: seq<nat>, t: nat, lo: int, hi: int)
    ensures CountIn(log + [t], lo, hi) == CountIn(log, lo, hi) + if lo <= t < hi then 1 else 0
  {
    CountToAgree(log + [t], log, |log|, lo, hi);
  }

  lemma CountConcat(a: seq<nat>, b: seq<nat>, lo: int, hi: int)
    ensures CountIn(a + b, lo, hi) == CountIn(a, lo, hi) + CountIn(b, lo, hi)
  {
    CountToConcat(a, b, |b|, lo, hi);
  }

  lemma {:induction false} CountToConcat(a: seq<nat>, b: seq<nat>, n: nat, lo: int, hi: int)
    requires n <= |b|
    ensures CountTo(a + b, |a| + n, lo, hi) == CountIn(a, lo, hi) + CountTo(b, n, lo, hi)
  {
    if n == 0 {
      CountToAgree(a + b, a, |a|, lo, hi);
    } else {
      CountToConcat(a, b, n - 1, lo, hi);
    }
  }

  // ------------------------------------------------- what a run's log looks like

  lemma {:induction false} LogTimes(hits: seq<Hit>, w: nat, i: nat) returns (k: nat)
    requires w > 0 && i < |LogAfter(hits, w)|
    ensures k < |hits| && hits[k].now == LogAfter(hits, w)[i]
  {
    var prefix := hits[..|hits| - 1];
    if i < |LogAfter(prefix, w)| {
      k := LogTimes(prefix, w, i);
    } else {
      k := |hits| - 1;
    }
  }

  /** Every run under one ceiling leaves an admissible log. */
  lemma {:induction false} RunIsAdmissible(hits: seq<Hit>, limit: nat, w: nat)
    requires w > 0 && UnderOneLimit(hits, limit)
    ensures Admissible(LogAfter(hits, w), limit, w)
  {
    if hits != [] {
      var prefix, hit := hits[..|hits| - 1], hits[|hits| - 1];
      RunIsAdmissible(prefix, limit, w);
      var log := LogAfter(prefix, w);
      if Verdict(log, hit.limit, w, hit.now).allowed {
        forall i | 0 <= i < |log| ensures log[i] <= hit.now {
          var k := LogTimes(prefix, w, i);
        }
        AdmissibleAppend(log, hit.now, limit, w);
      }
    }
  }

  /** And every admissible log is the log of a run: replaying its entries. */
  lemma {:induction false} AdmissibleIsReachable(log: seq<nat>, limit: nat, w: nat)
    requires w > 0 && Admissible(log, limit, w)
    ensures UnderOneLimit(Replay(log, limit), limit)
    ensures LogAfter(Replay(log, limit), w) == log
  {
    if log != [] {
      var rest, t := log[..|log| - 1], log[|log| - 1];
      AdmissibleIsReachable(rest, limit, w);
      ReplayOneMore(rest, t, limit, w);
      assert rest + [t] == log;
    }
  }

  lemma ReplayOneMore(rest: seq<nat>, t: nat, limit: nat, w: nat)
    requires w > 0 && UnderOneLimit(Replay(rest, limit), limit)
    requires LogAfter(Replay(rest, limit), w) == rest
    requires forall i :: 0 <= i < |rest| ==> rest[i] <= t
    requires Verdict(rest, limit, w, t).allowed
    ensures UnderOneLimit(Replay(rest + [t], limit), limit)
    ensures LogAfter(Replay(rest + [t], limit), w) == rest + [t]
  {
    var hits := Replay(rest, limit);
    assert Replay(rest + [t], limit) == hits + [Hit(limit, t)];
    OneMoreUnderLimit(hits, Hit(limit, t), limit);
    LogAfterOneMore(hits, Hit(limit, t), w);
  }

  lemma OneMoreUnderLimit(hits: seq<Hit>, hit: Hit, limit: nat)
    requires UnderOneLimit(hits, limit) && hit.limit == limit
    requires forall i :: 0 <= i < |hits| ==> hits[i].now <= hit.now
    ensures UnderOneLimit(hits + [hit], limit)
  {
  }

  function Replay(log: seq<nat>, limit: nat): seq<Hit> {
    seq(|log|, i requires 0 <= i < |log| => Hit(limit, log[i]))
  }

  lemma AdmissibleAppend(log: seq<nat>, t: nat, limit: nat, w: nat)
    requires w > 0 && Admissible(log, limit, w)
    requires forall i :: 0 <= i < |log| ==> log[i] <= t
    requires Verdict(log, limit, w, t).allowed
    ensures Admissible(log + [t], limit, w)
  {
    assert (log + [t])[..|log|] == log;
  }

  lemma AppendWithRoom(log: seq<nat>, t: nat, limit: nat, w: nat)
    requires w > 0 && Admissible(log, limit, w)
    requires forall i :: 0 <= i < |log| ==> log[i] <= t
    requires Load(log, w, t) < limit * w
    ensures Admissible(log + [t], limit, w)
  {
    AdmissibleAppend(log, t, limit, w);
  }

  // ------------------------------------------------------------- admission bound

  /** At the instant of an admission, the two windows together hold at most the
      ceiling plus the part of the previous window that has already slid out. */
  lemma AdmissionBound(log: seq<nat>, limit: nat, w: nat, now: nat)
    requires w > 0 && Verdict(log, limit, w, now).allowed
    ensures Previous(log, w, now) + Current(log, w, now) + 1
            <= limit + CeilDiv(Previous(log, w, now) * Elapsed(w, now), w)
  {
    LoadIsWeightedCount(log, w, now);
    BoundArithmetic(Current(log, w, now), Previous(log, w, now), limit, w, Elapsed(w, now));
  }

  lemma BoundArithmetic(c: nat, p: nat, limit: nat, w: nat, e: nat)
    requires w > 0 && e <= w && c * w + p * (w - e) < limit * w
    ensures p + c + 1 <= limit + CeilDiv(p * e, w)
  {
    CeilDivBounds(p * e, w);
    var over := CeilDiv(p * e, w);
    assert p * (w - e) == p * w - p * e;
    assert (p + c) * w == c * w + p * w;
    assert (limit + over) * w == limit * w + over * w;
    CancelLess(p + c, limit + over, w);
  }

  lemma AllowedMeansRoom(log: seq<nat>, limit: nat, w: nat, now: nat)
    requires w > 0 && Verdict(log, limit, w, now).allowed
    ensures Current(log, w, now) < limit
  {
    LoadIsWeightedCount(log, w, now);
    MulAtLeastZero(Previous(log, w, now), w - Elapsed(w, now));
    CancelLess(Current(log, w, now), limit, w);
  }

  /** No aligned window ever holds more than the ceiling. */
  lemma {:induction false} WindowBound(log: seq<nat>, limit: nat, w: nat, s: nat)
    requires w > 0 && Aligned(s, w) && Admissible(log, limit, w)
    ensures CountIn(log, s, s + w) <= limit
  {
    if log != [] {
      var n := |log| - 1;
      var rest, t := log[..n], log[n];
      assert log == rest + [t];
      WindowBound(rest, limit, w, s);
      CountAppend(rest, t, s, s + w);
      if s <= t < s + w {
        SameWindow(t, s, w);
        AllowedMeansRoom(rest, limit, w, t);
      }
    }
  }

  /** Any `w` consecutive seconds admit at most `2 * limit - floor(2 * limit / w)`
      requests, wherever they start; with one-second windows, at most `limit`. */
  lemma BurstBound(log: seq<nat>, limit: nat, w: nat, t: nat)
    requires w > 0 && Admissible(log, limit, w)
    ensures CountIn(log, t, t + w) <= BurstCeiling(limit, w)
  {
    var s := WindowStart(t, w);
    WindowBound(log, limit, w, s);
    CeilingAtLeastLimit(limit, w);
    if t != s {
      CountSplit(log, t, s + w, t + w);
      CountSplit(log, s, t, s + w);
      WindowBound(log, limit, w, s + w);
      StraddleBound(log, limit, w, s, t - s);
    }
  }

  function BurstCeiling(limit: nat, w: nat): int
    requires w > 0
  {
    if w == 1 then limit else 2 * limit - (2 * limit) / w
  }

  lemma CeilingAtLeastLimit(limit: nat, w: nat)
    requires w > 0
    ensures limit <= BurstCeiling(limit, w)
  {
    if w > 1 {
      var q := (2 * limit) / w;
      assert q * w <= 2 * limit;
      MulMonotone(2, w, q);
      assert w * q == q * w;
    }
  }

  /** The whole previous window `s..s + w` together with the first `e` seconds of
      the next one. */
  lemma {:induction false} StraddleBound(log: seq<nat>, limit: nat, w: nat, s: nat, e: nat)
    requires 0 < e < w && Aligned(s, w) && Admissible(log, limit, w)
    ensures CountIn(log, s, s + w) + CountIn(log, s + w, s + w + e) <= BurstCeiling(limit, w)
  {
    WindowBound(log, limit, w, s);
    CeilingAtLeastLimit(limit, w);
    if log != [] {
      var n := |log| - 1;
      var rest, t := log[..n], log[n];
      assert log == rest + [t];
      if t >= s + w + e {
        CountAppend(rest, t, s, s + w);
        CountAppend(rest, t, s + w, s + w + e);
        StraddleBound(rest, limit, w, s, e);
      } else if t >= s + w {
        WindowBound(rest, limit, w, s);
        StraddleStep(rest, t, limit, w, s, e);
      } else {
        CountNone(log, s + w, s + w + e);
      }
    }
  }

  lemma StraddleStep(log: seq<nat>, t: nat, limit: nat, w: nat, s: nat, e: nat)
    requires 0 < e < w && Aligned(s, w) && s + w <= t < s + w + e
    requires Verdict(log, limit, w, t).allowed
    requires CountIn(log, s, s + w) <= limit
    ensures CountIn(log + [t], s, s + w) + CountIn(log + [t], s + w, s + w + e)
            <= BurstCeiling(limit, w)
  {
    CountAppend(log, t, s, s + w);
    CountAppend(log, t, s + w, s + w + e);
    CountSplit(log, s + w, s + w + e, s + w + w);
    var cur, p := CountIn(log, s + w, s + w + w), CountIn(log, s, s + w);
    LoadAt(log, w, s + w, t, cur, p);
    StraddleArithmetic(p, CountIn(log, s + w, s + w + e) + 1, cur, limit, w, t - (s + w));
  }

  lemma StraddleArithmetic(p: nat, c: nat, cur: nat, limit: nat, w: nat, e: nat)
    requires w >= 2 && e + 2 <= w && p <= limit && c <= cur + 1
    requires cur * w + p * (w - e) < limit * w
    ensures p + c <= BurstCeiling(limit, w)
  {
    var q := (2 * limit) / w;
    assert q * w <= 2 * limit;
    MulMonotone(c - 1, cur, w);
    MulMonotone(2, w - e, p);
    assert p * (w - e) == (w - e) * p;
    assert (c - 1) * w + 2 * p < limit * w;
    MulMonotone(p, limit, w - 2);
    assert p * (w - 2) == p * w - 2 * p;
    assert limit * (w - 2) == limit * w - 2 * limit;
    assert (p + c - 1) * w == p * w + (c - 1) * w;
    assert (2 * limit - q) * w == 2 * (limit * w) - q * w;
    CancelLess(p + c - 1, 2 * limit - q, w);
  }

  lemma LogAfterOneMore(hits: seq<Hit>, hit: Hit, w: nat)
    requires w > 0
    ensures var log := LogAfter(hits, w);
            LogAfter(hits + [hit], w)
            == log + if Verdict(log, hit.limit, w, hit.now).allowed then [hit.now] else []
  {
    assert (hits + [hit])[..|hits|] == hits;
    var log := LogAfter(hits, w);
    assert log + [] == log;
  }

  /** Both bounds, for whatever run of requests one client makes. */
  lemma RunIsBounded(hits: seq<Hit>, limit: nat, w: nat, t: nat)
    requires w > 0 && UnderOneLimit(hits, limit)
    ensures Bounded(LogAfter(hits, w), limit, w, t)
  {
    var log := LogAfter(hits, w);
    RunIsAdmissible(hits, limit, w);
    AdmissibleIsBounded(log, limit, w, t);
  }

  lemma AdmissibleIsBounded(log: seq<nat>, limit: nat, w: nat, t: nat)
    requires w > 0 && Admissible(log, limit, w)
    ensures Bounded(log, limit, w, t)
  {
    BurstBound(log, limit, w, t);
    WindowBound(log, limit, w, WindowStart(t, w));
  }

  /** The burst ceiling over the `w` seconds from `t`, the ceiling over the aligned
      window `t` falls into. */
  predicate Bounded(log: seq<nat>, limit: nat, w: nat, t: nat)
    requires w > 0
  {
    && CountIn(log, t, t + w) <= BurstCeiling(limit, w)
    && CountIn(log, WindowStart(t, w), WindowStart(t, w) + w) <= limit
  }

  function Repeat(t: nat, n: nat): (log: seq<nat>)
    ensures |log| == n && forall i :: 0 <= i < n ==> log[i] == t
  {
    seq(n, i => t)
  }

  /** The client that waits for the end of one window and comes back near the end
      of the next. */
  function BurstLog(limit: nat, w: nat): seq<nat>
    requires w >= 2
  {
    Repeat(w - 1, limit) + Repeat(2 * w - 2, BurstCeiling(limit, w) - limit)
  }

  lemma RepeatStep(t: nat, n: nat)
    ensures Repeat(t, n + 1) == Repeat(t, n) + [t]
  {
  }

  lemma CountRepeat(t: nat, n: nat, lo: int, hi: int)
    ensures CountIn(Repeat(t, n), lo, hi) == if lo <= t < hi then n else 0
  {
    CountToUniform(Repeat(t, n), n, lo, hi, lo <= t < hi);
  }

  lemma {:induction false} FirstBurst(limit: nat, w: nat, n: nat)
    requires w >= 2 && n <= limit
    ensures Admissible(Repeat(w - 1, n), limit, w)
  {
    if n > 0 {
      FirstBurst(limit, w, n - 1);
      RepeatStep(w - 1, n - 1);
      FirstBurstLoad(w, n - 1);
      LessTimes(n - 1, limit, w);
      AppendWithRoom(Repeat(w - 1, n - 1), w - 1, limit, w);
    }
  }

  lemma FirstBurstLoad(w: nat, n: nat)
    requires w >= 2
    ensures Load(Repeat(w - 1, n), w, w - 1) == n * w
  {
    var log := Repeat(w - 1, n);
    assert CountIn(log, 0, 0 + w) == n by { CountRepeat(w - 1, n, 0, 0 + w); }
    assert CountIn(log, 0 - w, 0) == 0 by { CountRepeat(w - 1, n, 0 - w, 0); }
    LoadAt(log, w, 0, w - 1, n, 0);
  }

  lemma {:induction false} SecondBurst(limit: nat, w: nat, n: nat)
    requires w >= 2 && n <= BurstCeiling(limit, w) - limit
    ensures Admissible(Repeat(w - 1, limit) + Repeat(2 * w - 2, n), limit, w)
  {
    var first := Repeat(w - 1, limit);
    if n == 0 {
      FirstBurst(limit, w, limit);
      assert first + Repeat(2 * w - 2, 0) == first;
    } else {
      SecondBurst(limit, w, n - 1);
      RepeatStep(2 * w - 2, n - 1);
      var log := first + Repeat(2 * w - 2, n - 1);
      assert first + Repeat(2 * w - 2, n) == log + [2 * w - 2];
      SecondBurstHasRoom(limit, w, n - 1);
      AppendWithRoom(log, 2 * w - 2, limit, w);
    }
  }

  lemma SecondBurstHasRoom(limit: nat, w: nat, n: nat)
    requires w >= 2 && n < BurstCeiling(limit, w) - limit
    ensures Load(Repeat(w - 1, limit) + Repeat(2 * w - 2, n), w, 2 * w - 2) < limit * w
  {
    SecondBurstLoad(limit, w, n);
    SecondBurstRoom(limit, w, n);
  }

  lemma SecondBurstLoad(limit: nat, w: nat, n: nat)
    requires w >= 2
    ensures Load(Repeat(w - 1, limit) + Repeat(2 * w - 2, n), w, 2 * w - 2) == n * w + limit * 2
  {
    SecondBurstCounts(limit, w, n);
    assert Aligned(w, w);
    LoadAt(Repeat(w - 1, limit) + Repeat(2 * w - 2, n), w, w, 2 * w - 2, n, limit);
  }

  lemma SecondBurstCounts(limit: nat, w: nat, n: nat)
    requires w >= 2
    ensures var log := Repeat(w - 1, limit) + Repeat(2 * w - 2, n);
            && CountIn(log, w, w + w) == n
            && CountIn(log, w - w, w) == limit
            && CountIn(log, w - 1, (w - 1) + w) == limit + n
  {
    var first, second := Repeat(w - 1, limit), Repeat(2 * w - 2, n);
    forall lo: int, hi: int | lo <= hi
      ensures CountIn(first + second, lo, hi)
              == (if lo <= w - 1 < hi then limit else 0) + (if lo <= 2 * w - 2 < hi then n else 0)
    {
      CountConcat(first, second, lo, hi);
      CountRepeat(w - 1, limit, lo, hi);
      CountRepeat(2 * w - 2, n, lo, hi);
    }
  }

  lemma SecondBurstRoom(limit: nat, w: nat, n: nat)
    requires w >= 2 && n < BurstCeiling(limit, w) - limit
    ensures n * w + limit * 2 < limit * w
  {
    var q := (2 * limit) / w;
    assert 2 * limit == q * w + (2 * limit) % w;
    LessTimes(n, limit - q, w);
    assert (limit - q) * w == limit * w - q * w;
  }

  /** The burst bound is attained, for every ceiling and every window of two
      seconds or more: it cannot be improved. */
  lemma BurstBoundIsTight(limit: nat, w: nat)
    requires w >= 2
    ensures Admissible(BurstLog(limit, w), limit, w)
    ensures CountIn(BurstLog(limit, w), w - 1, (w - 1) + w) == BurstCeiling(limit, w)
  {
    CeilingAtLeastLimit(limit, w);
    var n: nat := BurstCeiling(limit, w) - limit;
    SecondBurst(limit, w, n);
    SecondBurstCounts(limit, w, n);
  }

  // ------------------------------------------------------------ the client's meter

  /** With nothing admitted in between, the load only falls as time passes. */
  lemma LoadFalls(log: seq<nat>, w: nat, t: nat, later: nat)
    requires w > 0 && t <= later
    requires forall i :: 0 <= i < |log| ==> log[i] <= t
    ensures Load(log, w, later) <= Load(log, w, t)
  {
    LoadToFalls(log, |log|, w, t, later);
  }

  lemma {:induction false} LoadToFalls(log: seq<nat>, n: nat, w: nat, t: nat, later: nat)
    requires w > 0 && t <= later && n <= |log|
    requires forall i :: 0 <= i < n ==> log[i] <= t
    ensures LoadTo(log, n, w, later) <= LoadTo(log, n, w, t)
  {
    if n > 0 {
      LoadToFalls(log, n - 1, w, t, later);
      WeightFalls(log[n - 1], w, t, later);
    }
  }

  lemma WeightFalls(x: nat, w: nat, t: nat, later: nat)
    requires w > 0 && x <= t <= later
    ensures Weight(x, w, later) <= Weight(x, w, t)
  {
    if WindowStart(t, w) != WindowStart(later, w) {
      WindowsAdvance(t, later, w);
    }
  }

  lemma MulAtLeastZero(a: nat, b: nat)
    ensures a * b >= 0
  {
  }

  lemma {:induction false} WindowStartMonotone(t: nat, later: nat, w: nat)
    requires w > 0 && t <= later
    ensures WindowStart(t, w) <= WindowStart(later, w)
  {
    if later >= w && t >= w {
      WindowStartMonotone(t - w, later - w, w);
    }
  }

  /** A later instant is in the same window, the next one, or at least two on. */
  lemma WindowsAdvance(t: nat, later: nat, w: nat)
    requires w > 0 && t <= later && WindowStart(t, w) != WindowStart(later, w)
    ensures WindowStart(later, w) == WindowStart(t, w) + w
         || WindowStart(later, w) >= WindowStart(t, w) + 2 * w
  {
    var s, s' := WindowStart(t, w), WindowStart(later, w);
    WindowStartMonotone(t, later, w);
    AlignedApart(s, s', w);
    if s + w < s' {
      AlignedApart(s + w, s', w);
    }
  }

  lemma LoadAppend(log: seq<nat>, w: nat, t: nat, now: nat)
    requires w > 0
    ensures Load(log + [t], w, now) == Load(log, w, now) + Weight(t, w, now)
  {
    LoadToAgree(log + [t], log, |log|, w, now);
  }

  /** The meter never overpromises: after an admission that reported `remaining`,
      that many further requests are all admitted, whenever they arrive. */
  lemma {:induction false} MeterIsHonoured(log: seq<nat>, limit: nat, w: nat, now: nat, later: seq<nat>)
    requires w > 0
    requires forall i :: 0 <= i < |log| ==> log[i] <= now
    requires Verdict(log, limit, w, now).allowed
    requires Sorted(later) && forall i :: 0 <= i < |later| ==> now <= later[i]
    requires |later| <= Verdict(log, limit, w, now).remaining
    ensures forall i :: 0 <= i < |later| ==>
              Verdict(log + [now] + later[..i], limit, w, later[i]).allowed
  {
    forall i | 0 <= i < |later|
      ensures Verdict(log + [now] + later[..i], limit, w, later[i]).allowed
    {
      var more := [now] + later[..i];
      LoadGrowth(log, w, now, more, later[i]);
      assert log + more == log + [now] + later[..i];
      MeterArithmetic(Load(log, w, now), limit, w, i);
    }
  }

  lemma MeterArithmetic(load: nat, limit: nat, w: nat, i: nat)
    requires w > 0 && load < limit * w
    requires i < Judge(load, limit, w, 0).remaining
    ensures load + (i + 1) * w < limit * w
  {
    CeilDivBounds(load + w, w);
    MulMonotone(CeilDiv(load + w, w), limit - (i + 1), w);
    assert (limit - (i + 1)) * w == limit * w - (i + 1) * w;
  }

  /** `n` admissions add at most `n` to the estimate, rollovers included. */
  lemma {:induction false} LoadGrowth(log: seq<nat>, w: nat, t: nat, more: seq<nat>, at: nat)
    requires w > 0
    requires forall i :: 0 <= i < |log| ==> log[i] <= t
    requires t <= at && Sorted(more) && forall i :: 0 <= i < |more| ==> t <= more[i] <= at
    ensures Load(log + more, w, at) <= Load(log, w, t) + |more| * w
    decreases |more|
  {
    if more == [] {
      assert log + more == log;
      LoadFalls(log, w, t, at);
    } else {
      GrowthStep(log, w, t, more[0]);
      GrowthPremises(log, t, more, at);
      LoadGrowth(log + [more[0]], w, more[0], more[1..], at);
      assert log + more == (log + [more[0]]) + more[1..];
      Distribute(|more[1..]|, w);
    }
  }

  lemma GrowthPremises(log: seq<nat>, t: nat, more: seq<nat>, at: nat)
    requires more != [] && forall i :: 0 <= i < |log| ==> log[i] <= t
    requires Sorted(more) && forall i :: 0 <= i < |more| ==> t <= more[i] <= at
    ensures Sorted(more[1..]) && forall i :: 0 <= i < |more[1..]| ==> more[0] <= more[1..][i] <= at
    ensures forall i :: 0 <= i < |log + [more[0]]| ==> (log + [more[0]])[i] <= more[0]
  {
  }

  lemma GrowthStep(log: seq<nat>, w: nat, t: nat, next: nat)
    requires w > 0 && t <= next
    requires forall i :: 0 <= i < |log| ==> log[i] <= t
    ensures Load(log + [next], w, next) <= Load(log, w, t) + w
  {
    LoadAppend(log, w, next, next);
    LoadFalls(log, w, t, next);
  }

  /** Within the second of the report the meter is exact to one request: exactly
      `limit - 1 - floor(estimate)` more are admitted, which is what was reported
      or one more. */
  lemma MeterIsExact(log: seq<nat>, limit: nat, w: nat, now: nat, j: nat)
    requires w > 0 && Verdict(log, limit, w, now).allowed
    ensures Verdict(log + Repeat(now, j + 1), limit, w, now).allowed
            <==> j < limit - 1 - Load(log, w, now) / w
    ensures var r := Verdict(log, limit, w, now).remaining;
            r <= limit - 1 - Load(log, w, now) / w <= r + 1
  {
    SameSecondLoad(log, w, now, j + 1);
    ExactArithmetic(Load(log, w, now), limit, w, j);
  }

  lemma ExactArithmetic(load: nat, limit: nat, w: nat, j: nat)
    requires w > 0 && load < limit * w
    ensures load + (j + 1) * w < limit * w <==> j < limit - 1 - load / w
    ensures var r := Judge(load, limit, w, 0).remaining; r <= limit - 1 - load / w <= r + 1
  {
    var f := load / w;
    assert load == f * w + load % w;
    assert (j + 1) * w + f * w == (j + 1 + f) * w;
    if j + 1 + f < limit {
      LessTimes(j + 1 + f, limit, w);
    } else {
      MulMonotone(limit, j + 1 + f, w);
    }
    CancelLess(f, limit, w);
    var used := CeilDiv(load + w, w);
    CeilDivBounds(load + w, w);
    assert (f + 1) * w == f * w + w && (f + 3) * w == f * w + 3 * w;
    CancelAtMost(f + 1, used, w);
    CancelLess(used, f + 3, w);
  }

  lemma {:induction false} SameSecondLoad(log: seq<nat>, w: nat, now: nat, n: nat)
    requires w > 0
    ensures Load(log + Repeat(now, n), w, now) == Load(log, w, now) + n * w
  {
    if n == 0 {
      assert log + Repeat(now, 0) == log;
    } else {
      SameSecondLoad(log, w, now, n - 1);
      RepeatStep(now, n - 1);
      var base := log + Repeat(now, n - 1);
      assert log + Repeat(now, n) == base + [now];
      LoadAppend(base, w, now, now);
      assert n * w == (n - 1) * w + w;
    }
  }

  // ------------------------------------------------------------- denied requests

  /** The elements of `xs` whose flag is set. */
  function Kept<T>(xs: seq<T>, keep: seq<bool>): seq<T>
    requires |keep| == |xs|
  {
    if xs == [] then []
    else
      var n := |xs| - 1;
      Kept(xs[..n], keep[..n]) + if keep[n] then [xs[n]] else []
  }

  /** Denied requests are invisible: erasing any of them leaves the log and every
      other answer as they were, so hammering cannot extend a lockout. */
  lemma {:induction false} DeniedAreInvisible(hits: seq<Hit>, keep: seq<bool>, w: nat)
    requires w > 0 && |keep| == |hits|
    requires forall i :: 0 <= i < |hits| && !keep[i] ==> !Answers(hits, w)[i].allowed
    ensures LogAfter(Kept(hits, keep), w) == LogAfter(hits, w)
    ensures Answers(Kept(hits, keep), w) == Kept(Answers(hits, w), keep)
  {
    if hits != [] {
      var n := |hits| - 1;
      forall i | 0 <= i < n && !keep[..n][i] ensures !Answers(hits[..n], w)[i].allowed {
        assert Answers(hits, w)[i] == Answers(hits[..n], w)[i];
      }
      DeniedAreInvisible(hits[..n], keep[..n], w);
      var shorter := Kept(hits[..n], keep[..n]);
      assert Answers(hits, w)[..n] == Answers(hits[..n], w);
      if keep[n] {
        assert (shorter + [hits[n]])[..|shorter|] == shorter;
      } else {
        assert shorter + [] == shorter;
        assert !Answers(hits, w)[n].allowed;
      }
    }
  }

  /** A denied client is served again one second after the reset it was told, if
      nothing was admitted meanwhile; at the reset itself, exactly when it had not
      filled its window. */
  lemma DeniedClientRecovers(log: seq<nat>, limit: nat, w: nat, t: nat)
    requires w > 0 && limit >= 1 && Admissible(log, limit, w)
    requires forall i :: 0 <= i < |log| ==> log[i] <= t
    requires !Verdict(log, limit, w, t).allowed
    ensures Verdict(log, limit, w, t + Verdict(log, limit, w, t).resetSecs + 1).allowed
    ensures Verdict(log, limit, w, t + Verdict(log, limit, w, t).resetSecs).allowed
            <==> Current(log, w, t) < limit
  {
    var s := WindowStart(t, w);
    WindowBound(log, limit, w, s);
    assert Aligned(s + w, w);
    RecoveryAtReset(log, limit, w, s);
    RecoveryAfterReset(log, limit, w, s);
  }

  lemma RecoveryAtReset(log: seq<nat>, limit: nat, w: nat, s: nat)
    requires w > 0 && Aligned(s, w) && Aligned(s + w, w)
    requires forall i :: 0 <= i < |log| ==> log[i] < s + w
    ensures Verdict(log, limit, w, s + w).allowed <==> CountIn(log, s, s + w) < limit
  {
    var c := CountIn(log, s, s + w);
    CountNone(log, s + w, s + w + w);
    LoadAt(log, w, s + w, s + w, 0, c);
    if c < limit {
      LessTimes(c, limit, w);
    } else {
      MulMonotone(limit, c, w);
    }
  }

  lemma RecoveryAfterReset(log: seq<nat>, limit: nat, w: nat, s: nat)
    requires w > 0 && Aligned(s, w) && Aligned(s + w, w) && limit >= 1
    requires forall i :: 0 <= i < |log| ==> log[i] < s + w
    requires CountIn(log, s, s + w) <= limit
    ensures Verdict(log, limit, w, s + w + 1).allowed
  {
    var c := CountIn(log, s, s + w);
    CountNone(log, s + w, s + w + w);
    if w == 1 {
      CountNone(log, s + w + w, s + w + w + w);
      assert Aligned(s + w + w, w);
      LoadAt(log, w, s + w + w, s + w + 1, 0, 0);
    } else {
      RecoveryLoad(c, limit, w);
      LoadAt(log, w, s + w, s + w + 1, 0, c);
    }
  }

  lemma RecoveryLoad(c: nat, limit: nat, w: nat)
    requires w >= 2 && limit >= 1 && c <= limit
    ensures c * (w - 1) < limit * w
  {
    MulMonotone(c, limit, w - 1);
    assert limit * (w - 1) == limit * w - limit;
  }
}
