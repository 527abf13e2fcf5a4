/** The settlement circuit breaker of `src/breaker.rs`. Its sliding window, rate test
    and probe flag are proved to implement a rule about the history of one policy:
    how many settlements in a row have failed. */
module Breaker {
  import opened Prelude

  const WINDOW: nat := 20
  const MIN_SAMPLES: nat := 5
  const FAILURE_THRESHOLD: real := 0.5
  const COOLDOWN_SECS: nat := 30

  datatype BreakerState = Closed | Open | HalfOpen

  predicate AcceptsPayment(s: BreakerState) {
    !s.Open?
  }

  // ----------------------------------------------------------------- the simple rule

  /** What happened to one policy. */
  datatype Event =
    | Asked(now: nat, answer: BreakerState)
    | Recorded(failed: bool, now: nat)

  type History = seq<Event>

  /** Settlements that have failed in a row, up to now. */
  function FailureRun(h: History): (n: nat)
    ensures n <= |h|
  {
    if h == [] then 0
    else
      var rest := FailureRun(h[..|h| - 1]);
      match h[|h| - 1]
      case Asked(_, _) => rest
      case Recorded(failed, _) => if failed then rest + 1 else 0
  }

  function LastFailure(h: History): nat {
    if h == [] then 0
    else
      match h[|h| - 1]
      case Recorded(failed, now) => if failed then now else LastFailure(h[..|h| - 1])
      case Asked(_, _) => LastFailure(h[..|h| - 1])
  }

  /** The probe was given out and no outcome has been recorded since. */
  predicate ProbeOut(h: History) {
    h != [] &&
    match h[|h| - 1]
    case Recorded(_, _) => false
    case Asked(_, answer) => answer.HalfOpen? || ProbeOut(h[..|h| - 1])
  }

  /** The whole breaker: five failures in a row open it; thirty seconds after the last
      failure one caller gets the probe. */
  function Rule(h: History, now: nat): BreakerState {
    if FailureRun(h) < MIN_SAMPLES then Closed
    else if SatSub(now, LastFailure(h)) < COOLDOWN_SECS then Open
    else if ProbeOut(h) then Open
    else HalfOpen
  }

  /** Every question in the history was answered by the rule. */
  predicate Faithful(h: History) {
    h != [] ==>
      && Faithful(h[..|h| - 1])
      && (h[|h| - 1].Asked? ==> h[|h| - 1].answer == Rule(h[..|h| - 1], h[|h| - 1].now))
  }

  // ------------------------------------------------------------------- the machinery

  datatype Window = Window(outcomes: seq<bool>, openedAt: Option<nat>, probing: bool)

  function Failures(outcomes: seq<bool>): nat {
    if outcomes == [] then 0 else Failures(outcomes[1..]) + if outcomes[0] then 1 else 0
  }

  /** A success clears the window, so it only ever holds failures: the failure rate is
      one, and the test on it is a test of the run's length. */
  ghost predicate Matches(w: Window, h: History) {
    && |w.outcomes| == (if FailureRun(h) <= WINDOW then FailureRun(h) else WINDOW)
    && (forall i :: 0 <= i < |w.outcomes| ==> w.outcomes[i])
    && w.openedAt == (if FailureRun(h) >= MIN_SAMPLES then Some(LastFailure(h)) else None)
    && w.probing == ProbeOut(h)
  }

  lemma {:induction false} AllFailures(outcomes: seq<bool>)
    requires forall i :: 0 <= i < |outcomes| ==> outcomes[i]
    ensures Failures(outcomes) == |outcomes|
  {
    if outcomes != [] {
      AllFailures(outcomes[1..]);
    }
  }

  lemma OneMore(h: History, e: Event)
    ensures (h + [e])[..|h|] == h && (h + [e])[|h|] == e
    ensures FailureRun(h + [e]) == if e.Asked? then FailureRun(h)
                                   else if e.failed then FailureRun(h) + 1 else 0
    ensures LastFailure(h + [e]) == if e.Recorded? && e.failed then e.now else LastFailure(h)
    ensures ProbeOut(h + [e]) <==> e.Asked? && (e.answer.HalfOpen? || ProbeOut(h))
    ensures Faithful(h + [e]) <==> Faithful(h) && (e.Asked? ==> e.answer == Rule(h, e.now))
  {
    assert (h + [e])[..|h|] == h;
  }

  class SettlementBreaker {
    var policies: map<string, Window>
    ghost var history: map<string, History>

    ghost predicate Valid()
      reads this
    {
      && policies.Keys == history.Keys
      && forall p :: p in policies ==> Matches(policies[p], history[p]) && Faithful(history[p])
    }

    ghost function HistoryOf(policy: string): History
      reads this
    {
      if policy in history then history[policy] else []
    }

    constructor ()
      ensures Valid() && history == map[]
    {
      policies, history := map[], map[];
    }

    /** Answers by the rule; other policies are untouched. */
    method StateAt(policy: string, now: nat) returns (state: BreakerState)
      requires Valid()
      modifies this
      ensures Valid()
      ensures state == Rule(old(HistoryOf(policy)), now)
      ensures history == old(history)[policy := old(HistoryOf(policy)) + [Asked(now, state)]]
    {
      ghost var h := HistoryOf(policy);
      var window := if policy in policies then policies[policy] else Window([], None, false);
      assert Matches(window, h) && Faithful(h);
      state, window := Answer(window, now, h);
      OneMore(h, Asked(now, state));
      policies := policies[policy := window];
      history := history[policy := h + [Asked(now, state)]];
    }

    static method Answer(before: Window, now: nat, ghost h: History)
      returns (state: BreakerState, window: Window)
      requires Matches(before, h)
      ensures state == Rule(h, now)
      ensures Matches(window, h + [Asked(now, state)])
    {
      window := before;
      if window.openedAt.None? {
        state := Closed;
      } else if SatSub(now, window.openedAt.value) < COOLDOWN_SECS {
        state := Open;
      } else if window.probing {
        state := Open;
      } else {
        window := window.(probing := true);
        state := HalfOpen;
      }
      OneMore(h, Asked(now, state));
    }

    method RecordAt(policy: string, failed: bool, now: nat)
      requires Valid()
      modifies this
      ensures Valid()
      ensures history == old(history)[policy := old(HistoryOf(policy)) + [Recorded(failed, now)]]
    {
      ghost var h := HistoryOf(policy);
      var window := if policy in policies then policies[policy] else Window([], None, false);
      assert Matches(window, h) && Faithful(h);
      window := Record(window, failed, now, h);
      OneMore(h, Recorded(failed, now));
      policies := policies[policy := window];
      history := history[policy := h + [Recorded(failed, now)]];
    }

    static method Record(before: Window, failed: bool, now: nat, ghost h: History)
      returns (window: Window)
      requires Matches(before, h)
      ensures Matches(window, h + [Recorded(failed, now)])
    {
      OneMore(h, Recorded(failed, now));
      window := before.(probing := false);
      if !failed {
        window := window.(outcomes := [], openedAt := None);
        return;
      }
      window := window.(outcomes := window.outcomes + [true]);
      while |window.outcomes| > WINDOW
        invariant window == before.(probing := false, outcomes := window.outcomes)
        invariant |window.outcomes| >= 1 && forall i :: 0 <= i < |window.outcomes| ==> window.outcomes[i]
        invariant |window.outcomes| == |before.outcomes| + 1
                  || (|before.outcomes| == WINDOW && |window.outcomes| == WINDOW)
        decreases |window.outcomes|
      {
        window := window.(outcomes := window.outcomes[1..]);
      }
      if window.openedAt.Some? {
        window := window.(openedAt := Some(now));
        return;
      }
      var total := |window.outcomes|;
      var failures := Failures(window.outcomes);
      AllFailures(window.outcomes);
      if total >= MIN_SAMPLES && failures as real / total as real >= FAILURE_THRESHOLD {
        window := window.(openedAt := Some(now));
      }
    }
  }

  // ------------------------------------------------------- consequences of the rule

  predicate HasRecord(h: History) {
    exists i :: 0 <= i < |h| && h[i].Recorded?
  }

  /** The probe is given out at most once between two recorded outcomes. */
  lemma OneProbePerOutcome(h: History, i: nat, j: nat)
    requires Faithful(h) && i < j < |h|
    requires h[i].Asked? && h[i].answer.HalfOpen? && h[j].Asked? && h[j].answer.HalfOpen?
    ensures HasRecord(h[i + 1..j])
  {
    FaithfulAt(h, j);
    if !HasRecord(h[i + 1..j]) {
      assert forall k :: i < k < j ==> h[k] == h[i + 1..j][k - (i + 1)];
      ProbeStaysOut(h, i, j);
    }
  }

  lemma {:induction false} FaithfulAt(h: History, j: nat)
    requires Faithful(h) && j < |h|
    ensures h[j].Asked? ==> h[j].answer == Rule(h[..j], h[j].now)
    decreases |h|
  {
    if j < |h| - 1 {
      FaithfulAt(h[..|h| - 1], j);
      assert h[..|h| - 1][..j] == h[..j];
    }
  }

  lemma {:induction false} ProbeStaysOut(h: History, i: nat, j: nat)
    requires i < j <= |h| && h[i].Asked? && h[i].answer.HalfOpen?
    requires forall k :: i < k < j ==> h[k].Asked?
    ensures ProbeOut(h[..j])
  {
    assert h[..j][..j - 1] == h[..j - 1];
    if i + 1 < j {
      ProbeStaysOut(h, i, j - 1);
    }
  }

  /** How many failures were recorded. */
  function FailuresIn(h: History): nat {
    if h == [] then 0
    else
      var e := h[|h| - 1];
      FailuresIn(h[..|h| - 1]) + if e.Recorded? && e.failed then 1 else 0
  }

  /** One success closes the breaker, and until five more failures are recorded every
      answer is Closed. */
  lemma OneSuccessCloses(h: History, i: nat, j: nat)
    requires Faithful(h) && i < j < |h|
    requires h[i].Recorded? && !h[i].failed && h[j].Asked?
    requires FailuresIn(h[i + 1..j]) < MIN_SAMPLES
    ensures h[j].answer.Closed?
  {
    FaithfulAt(h, j);
    RunIsCounted(h, i, j);
  }

  lemma {:induction false} RunIsCounted(h: History, i: nat, j: nat)
    requires i < j <= |h| && h[i].Recorded? && !h[i].failed
    ensures FailureRun(h[..j]) <= FailuresIn(h[i + 1..j])
  {
    assert h[..j][..j - 1] == h[..j - 1];
    if i + 1 < j {
      RunIsCounted(h, i, j - 1);
      assert h[i + 1..j][..j - i - 2] == h[i + 1..j - 1];
    }
  }

  /** Five failures in a row open it at the last one's time, and it then accepts no
      payment for thirty seconds after. */
  lemma FiveFailuresOpen(h: History, j: nat)
    requires Faithful(h) && j < |h| && h[j].Asked?
    ensures h[j].answer.Closed? <==> FailureRun(h[..j]) < MIN_SAMPLES
    ensures h[j].answer.HalfOpen? ==> h[j].now >= LastFailure(h[..j]) + COOLDOWN_SECS
    ensures FailureRun(h[..j]) >= MIN_SAMPLES && h[j].now < LastFailure(h[..j]) + COOLDOWN_SECS ==>
              h[j].answer.Open?
  {
    FaithfulAt(h, j);
  }

  /** The outcomes recorded, in order. */
  function Outcomes(h: History): seq<bool> {
    if h == [] then []
    else
      match h[|h| - 1]
      case Recorded(failed, _) => Outcomes(h[..|h| - 1]) + [failed]
      case Asked(_, _) => Outcomes(h[..|h| - 1])
  }

  /** At least `n` outcomes were recorded, and the last `n` are failures. */
  predicate LastFailed(outcomes: seq<bool>, n: nat) {
    n <= |outcomes| && forall k :: |outcomes| - n <= k < |outcomes| ==> outcomes[k]
  }

  lemma {:induction false} RunIsTheLastFailures(h: History, n: nat)
    ensures FailureRun(h) >= n <==> LastFailed(Outcomes(h), n)
  {
    if h != [] {
      var rest := h[..|h| - 1];
      match h[|h| - 1] {
        case Asked(_, _) => RunIsTheLastFailures(rest, n);
        case Recorded(failed, _) =>
          if n > 0 {
            RunIsTheLastFailures(rest, n - 1);
            LastFailedAppend(Outcomes(rest), failed, n);
          }
      }
    }
  }

  lemma LastFailedAppend(outcomes: seq<bool>, failed: bool, n: nat)
    requires n > 0
    ensures LastFailed(outcomes + [failed], n) <==> failed && LastFailed(outcomes, n - 1)
  {
    var longer := outcomes + [failed];
    assert forall k :: 0 <= k < |outcomes| ==> longer[k] == outcomes[k];
    assert longer[|outcomes|] == failed;
  }

  /** `r` is the last outcome recorded before `j`. */
  predicate LastRecord(h: History, r: nat, j: nat) {
    r < j <= |h| && h[r].Recorded? && forall k :: r < k < j ==> h[k].Asked?
  }

  lemma {:induction false} SinceLastRecord(h: History, r: nat, j: nat)
    requires LastRecord(h, r, j) && h[r].failed
    ensures LastFailure(h[..j]) == h[r].now
    ensures ProbeOut(h[..j]) <==> exists k :: r < k < j && h[k].Asked? && h[k].answer.HalfOpen?
  {
    assert h[..j][..j - 1] == h[..j - 1];
    if r < j - 1 {
      SinceLastRecord(h, r, j - 1);
    }
  }

  /** Every answer, in terms of what happened alone. It is Closed unless the last five
      recorded settlements failed. If they did, it is Open for thirty seconds after the
      last of them; from then on the first to ask is told HalfOpen and the others Open,
      until the next outcome is recorded, however often this has happened before. */
  lemma EveryAnswer(h: History, r: nat, j: nat)
    requires Faithful(h) && j < |h| && h[j].Asked? && LastRecord(h, r, j)
    ensures !LastFailed(Outcomes(h[..j]), 5) ==> h[j].answer == Closed
    ensures LastFailed(Outcomes(h[..j]), 5) ==>
              && h[r].failed
              && (h[j].answer == HalfOpen
                  <==> && h[j].now >= h[r].now + 30
                       && forall k :: r < k < j ==> !(h[k].Asked? && h[k].answer.HalfOpen?))
              && (h[j].answer != HalfOpen ==> h[j].answer == Open)
  {
    FaithfulAt(h, j);
    RunIsTheLastFailures(h[..j], 5);
    if LastFailed(Outcomes(h[..j]), 5) {
      LastOutcome(h, r, j);
      SinceLastRecord(h, r, j);
    }
  }

  lemma {:induction false} LastOutcome(h: History, r: nat, j: nat)
    requires LastRecord(h, r, j)
    ensures |Outcomes(h[..j])| > 0 && Outcomes(h[..j])[|Outcomes(h[..j])| - 1] == h[r].failed
  {
    assert h[..j][..j - 1] == h[..j - 1];
    if r < j - 1 {
      LastOutcome(h, r, j - 1);
    }
  }

  /** Before anything is recorded every answer is Closed. */
  lemma ClosedAtFirst(h: History, j: nat)
    requires Faithful(h) && j < |h| && h[j].Asked?
    requires forall k :: 0 <= k < j ==> h[k].Asked?
    ensures h[j].answer == Closed
  {
    FaithfulAt(h, j);
    NothingRecorded(h, j);
  }

  lemma {:induction false} NothingRecorded(h: History, j: nat)
    requires j <= |h| && forall k :: 0 <= k < j ==> h[k].Asked?
    ensures FailureRun(h[..j]) == 0
  {
    if j > 0 {
      NothingRecorded(h, j - 1);
      assert h[..j][..j - 1] == h[..j - 1];
    }
  }

  // ------------------------------------------------------ the breaker in the gateway

  /** One policy's traffic. The gateway asks the breaker on every request, paid or
      not; a payment it accepts is in flight until its settlement is recorded or it is
      given up, which records nothing. */
  datatype Traffic =
    | Arrival(paid: bool, now: nat)
    | Outcome(failed: bool, now: nat)
    | Abandoned

  datatype Gateway = Gateway(history: History, inFlight: nat)

  function Serve(g: Gateway, t: Traffic): Gateway {
    match t
    case Arrival(paid, now) =>
      var answer := Rule(g.history, now);
      Gateway(g.history + [Asked(now, answer)],
              g.inFlight + if paid && AcceptsPayment(answer) then 1 else 0)
    case Outcome(failed, now) =>
      if g.inFlight > 0 then Gateway(g.history + [Recorded(failed, now)], g.inFlight - 1) else g
    case Abandoned => if g.inFlight > 0 then g.(inFlight := g.inFlight - 1) else g
  }

  function ServeAll(g: Gateway, ts: seq<Traffic>): Gateway {
    if ts == [] then g else Serve(ServeAll(g, ts[..|ts| - 1]), ts[|ts| - 1])
  }

  /** The breaker is open and its probe is out. */
  predicate Waiting(g: Gateway) {
    FailureRun(g.history) >= MIN_SAMPLES && ProbeOut(g.history)
  }

  /** Any request takes the probe, though only a payment could report an outcome. */
  lemma AnyRequestTakesTheProbe(g: Gateway, paid: bool, now: nat)
    requires Rule(g.history, now).HalfOpen?
    ensures Waiting(Serve(g, Arrival(paid, now)))
    ensures Serve(g, Arrival(paid, now)).inFlight == g.inFlight + if paid then 1 else 0
  {
    OneMore(g.history, Asked(now, HalfOpen));
  }

  /** With the probe out and nothing in flight, no payment is accepted ever again. */
  lemma {:induction false} LostProbeLocksOut(g: Gateway, ts: seq<Traffic>)
    requires Waiting(g) && g.inFlight == 0
    ensures var g' := ServeAll(g, ts);
            Waiting(g') && g'.inFlight == 0 && forall now :: Rule(g'.history, now).Open?
  {
    if ts != [] {
      LostProbeLocksOut(g, ts[..|ts| - 1]);
      var before := ServeAll(g, ts[..|ts| - 1]);
      match ts[|ts| - 1] {
        case Arrival(paid, now) => OneMore(before.history, Asked(now, Open));
        case _ =>
      }
    }
  }

  /** While the probe is out, a policy can take payments again exactly if a payment is
      still in flight to report for it. */
  lemma RecoveryNeedsAPaymentInFlight(g: Gateway)
    requires Waiting(g)
    ensures (exists ts, now :: AcceptsPayment(Rule(ServeAll(g, ts).history, now)))
            <==> g.inFlight > 0
  {
    if g.inFlight > 0 {
      var ts := [Outcome(false, 0)];
      assert ts[..0] == [];
      OneMore(g.history, Recorded(false, 0));
      assert AcceptsPayment(Rule(ServeAll(g, ts).history, 0));
    } else {
      forall ts, now | AcceptsPayment(Rule(ServeAll(g, ts).history, now)) ensures false {
        LostProbeLocksOut(g, ts);
      }
    }
  }

  /** The lock-out is reachable: five payments fail to settle, and half a minute later
      somebody without a payment asks first. */
  lemma UnpaidRequestLocksOut()
    ensures var ts := Times(Arrival(true, 0), 5) + Times(Outcome(true, 0), 5)
                      + [Arrival(false, COOLDOWN_SECS)];
            var g := ServeAll(Gateway([], 0), ts);
            Waiting(g) && g.inFlight == 0
  {
    var arrivals := Times(Arrival(true, 0), 5);
    var outcomes := Times(Outcome(true, 0), 5);
    AcceptSome(5);
    FailSome(5);
    var ts := arrivals + outcomes + [Arrival(false, COOLDOWN_SECS)];
    assert ts[..10] == arrivals + outcomes;
    var g := ServeAll(Gateway([], 0), arrivals + outcomes);
    AnyRequestTakesTheProbe(g, false, COOLDOWN_SECS);
  }

  function Times(t: Traffic, n: nat): (ts: seq<Traffic>)
    ensures |ts| == n && forall i :: 0 <= i < n ==> ts[i] == t
  {
    seq(n, i => t)
  }

  lemma TimesStep(before: seq<Traffic>, t: Traffic, n: nat)
    ensures before + Times(t, n + 1) == (before + Times(t, n)) + [t]
  {
  }

  lemma ServeOneMore(g: Gateway, ts: seq<Traffic>, t: Traffic)
    ensures ServeAll(g, ts + [t]) == Serve(ServeAll(g, ts), t)
  {
    assert (ts + [t])[..|ts|] == ts;
  }

  lemma {:induction false} AcceptSome(n: nat)
    ensures var g := ServeAll(Gateway([], 0), Times(Arrival(true, 0), n));
            FailureRun(g.history) == 0 && !ProbeOut(g.history) && g.inFlight == n
  {
    if n > 0 {
      AcceptSome(n - 1);
      TimesStep([], Arrival(true, 0), n - 1);
      var ts := Times(Arrival(true, 0), n - 1);
      assert [] + ts == ts && [] + Times(Arrival(true, 0), n) == Times(Arrival(true, 0), n);
      ServeOneMore(Gateway([], 0), ts, Arrival(true, 0));
      OneMore(ServeAll(Gateway([], 0), ts).history, Asked(0, Closed));
    }
  }

  lemma {:induction false} FailSome(n: nat)
    requires n <= 5
    ensures var ts := Times(Arrival(true, 0), 5) + Times(Outcome(true, 0), n);
            var g := ServeAll(Gateway([], 0), ts);
            FailureRun(g.history) == n && !ProbeOut(g.history) && g.inFlight == 5 - n
            && (n > 0 ==> LastFailure(g.history) == 0)
  {
    var arrivals := Times(Arrival(true, 0), 5);
    if n == 0 {
      AcceptSome(5);
      assert arrivals + Times(Outcome(true, 0), 0) == arrivals;
    } else {
      FailSome(n - 1);
      TimesStep(arrivals, Outcome(true, 0), n - 1);
      var ts := arrivals + Times(Outcome(true, 0), n - 1);
      ServeOneMore(Gateway([], 0), ts, Outcome(true, 0));
      OneMore(ServeAll(Gateway([], 0), ts).history, Recorded(true, 0));
    }
  }
}
