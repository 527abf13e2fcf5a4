/** `spend_one` of `src/session.rs` under concurrency: any number of threads run
    its compare-exchange loop on one shared counter, in any interleaving, and the
    weak exchange may fail for no reason. Memory is sequentially consistent. */
module QuotaSpend {
  /** Where one caller is in the loop. */
  datatype Thread =
    | Start                  // about to load the counter
    | Trying(current: nat)   // at the loop head with the value last observed
    | Got(remaining: nat)    // returned Some(remaining)
    | Refused                // returned None

  /** `wins` lists the values returned, in the order the exchanges succeeded. */
  datatype Shared = Shared(counter: nat, threads: seq<Thread>, wins: seq<nat>)

  datatype Step =
    | Load(i: nat)
    | GiveUp(i: nat)
    | Exchange(i: nat)
    | Fail(i: nat)

  predicate Enabled(s: Shared, step: Step) {
    step.i < |s.threads| &&
    match step
    case Load(i) => s.threads[i].Start?
    case GiveUp(i) => s.threads[i] == Trying(0)
    case Exchange(i) => s.threads[i].Trying? && s.threads[i].current > 0
                        && s.counter == s.threads[i].current
    case Fail(i) => s.threads[i].Trying? && s.threads[i].current > 0
  }

  function Apply(s: Shared, step: Step): Shared
    requires Enabled(s, step)
  {
    match step
    case Load(i) => s.(threads := s.threads[i := Trying(s.counter)])
    case GiveUp(i) => s.(threads := s.threads[i := Refused])
    case Exchange(i) =>
      var left := s.counter - 1;
      Shared(left, s.threads[i := Got(left)], s.wins + [left])
    case Fail(i) => s.(threads := s.threads[i := Trying(s.counter)])
  }

  function Initial(quota: nat, callers: nat): Shared {
    Shared(quota, seq(callers, i => Start), [])
  }

  /** The state after a schedule; a step that is not enabled is passed over. */
  function After(quota: nat, callers: nat, schedule: seq<Step>): (s: Shared)
    ensures |s.threads| == callers
  {
    if schedule == [] then Initial(quota, callers)
    else
      var s := After(quota, callers, schedule[..|schedule| - 1]);
      var step := schedule[|schedule| - 1];
      if Enabled(s, step) then Apply(s, step) else s
  }

  /** How many of the first `n` callers were served. */
  function Served(threads: seq<Thread>, n: nat): (count: nat)
    requires n <= |threads|
    ensures count <= n
  {
    if n == 0 then 0
    else Served(threads, n - 1) + if threads[n - 1].Got? then 1 else 0
  }

  ghost predicate Inv(s: Shared, quota: nat) {
    // No quota is created or lost, and nothing underflows.
    && s.counter + |s.wins| == quota
    // The values returned count down from the top without a gap or a repeat.
    && (forall k :: 0 <= k < |s.wins| ==> s.wins[k] == quota - 1 - k)
    && Served(s.threads, |s.threads|) == |s.wins|
    && (forall i :: 0 <= i < |s.threads| ==> Honest(s.threads[i], s.counter, quota))
    && (forall i, j :: 0 <= i < j < |s.threads| && s.threads[i].Got? ==> s.threads[i] != s.threads[j])
  }

  ghost predicate Honest(t: Thread, counter: nat, quota: nat) {
    match t
    case Start => true
    // What a caller last saw is never below what is left.
    case Trying(current) => counter <= current <= quota
    case Got(remaining) => counter <= remaining < quota
    // Nobody is refused while quota is left.
    case Refused => counter == 0
  }

  lemma {:induction false} ServedUpdate(threads: seq<Thread>, n: nat, i: nat, t: Thread)
    requires n <= |threads| && i < |threads| && !threads[i].Got?
    ensures Served(threads[i := t], n) == Served(threads, n) + if i < n && t.Got? then 1 else 0
  {
    if n > 0 {
      ServedUpdate(threads, n - 1, i, t);
    }
  }

  lemma {:induction false} NoneServed(threads: seq<Thread>, n: nat)
    requires n <= |threads| && forall i :: 0 <= i < n ==> !threads[i].Got?
    ensures Served(threads, n) == 0
  {
    if n > 0 {
      NoneServed(threads, n - 1);
    }
  }

  lemma StepKeeps(s: Shared, step: Step, quota: nat)
    requires Inv(s, quota) && Enabled(s, step)
    ensures Inv(Apply(s, step), quota)
  {
    var s' := Apply(s, step);
    ServedUpdate(s.threads, |s.threads|, step.i, s'.threads[step.i]);
    forall i | 0 <= i < |s'.threads| ensures Honest(s'.threads[i], s'.counter, quota) {
      assert Honest(s.threads[i], s.counter, quota);
    }
    forall i, j | 0 <= i < j < |s'.threads| && s'.threads[i].Got?
      ensures s'.threads[i] != s'.threads[j]
    {
      assert Honest(s.threads[i], s.counter, quota) && Honest(s.threads[j], s.counter, quota);
    }
  }

  /** Under every interleaving: quota left plus requests served is the initial
      quota, the values handed out are exactly `quota - 1`, `quota - 2`, ... down
      to what is left, and no two callers hold the same one. */
  lemma {:induction false} QuotaIsConserved(quota: nat, callers: nat, schedule: seq<Step>)
    ensures Inv(After(quota, callers, schedule), quota)
  {
    if schedule == [] {
      NoneServed(Initial(quota, callers).threads, callers);
    } else {
      var rest := schedule[..|schedule| - 1];
      QuotaIsConserved(quota, callers, rest);
      var s := After(quota, callers, rest);
      if Enabled(s, schedule[|schedule| - 1]) {
        StepKeeps(s, schedule[|schedule| - 1], quota);
      }
    }
  }

  predicate Finished(t: Thread) {
    t.Got? || t.Refused?
  }

  /** Once every caller has returned, exactly as many were served as the quota
      allows, whatever the schedule: nobody is turned away early or let in late. */
  lemma ExactlyTheQuotaIsServed(quota: nat, callers: nat, schedule: seq<Step>)
    requires forall i :: 0 <= i < callers ==> Finished(After(quota, callers, schedule).threads[i])
    ensures var s := After(quota, callers, schedule);
            && Served(s.threads, callers) == (if callers <= quota then callers else quota)
            && s.counter == if callers <= quota then quota - callers else 0
  {
    QuotaIsConserved(quota, callers, schedule);
    var s := After(quota, callers, schedule);
    if i :| 0 <= i < callers && s.threads[i].Refused? {
      assert Honest(s.threads[i], s.counter, quota);
    } else {
      AllServed(s.threads, callers);
    }
  }

  lemma {:induction false} AllServed(threads: seq<Thread>, n: nat)
    requires n <= |threads| && forall i :: 0 <= i < n ==> threads[i].Got?
    ensures Served(threads, n) == n
  {
    if n > 0 {
      AllServed(threads, n - 1);
    }
  }

  /** The loop is lock-free: an exchange that fails because the counter moved means
      some other caller was served since this one looked. */
  lemma {:induction false} LostRaceMeansProgress(quota: nat, callers: nat, before: seq<Step>,
                                                 between: seq<Step>, i: nat)
    requires i < callers
    requires var s := After(quota, callers, before); s.threads[i] == Trying(s.counter)
    requires forall k :: 0 <= k < |between| ==> between[k].i != i
    ensures var s := After(quota, callers, before);
            var s' := After(quota, callers, before + between);
            && s'.threads[i] == s.threads[i]
            && s'.counter <= s.counter
            && |s'.wins| - |s.wins| == s.counter - s'.counter
  {
    QuotaIsConserved(quota, callers, before);
    QuotaIsConserved(quota, callers, before + between);
    if between == [] {
      assert before + between == before;
    } else {
      var n := |between| - 1;
      LostRaceMeansProgress(quota, callers, before, between[..n], i);
      assert (before + between)[..|before| + n] == before + between[..n];
    }
  }

  /** A caller alone on the counter is served whenever quota is left, with one less, and
      refused otherwise, however often the exchange fails on the way. */
  lemma {:induction false} LoneCallerIsServed(quota: nat, failures: nat)
    ensures var tried := After(quota, 1, [Load(0)] + Repeat(Fail(0), failures));
            && tried == Shared(quota, [Trying(quota)], [])
            && (quota > 0 ==>
                  && Enabled(tried, Exchange(0)) && !Enabled(tried, GiveUp(0))
                  && Apply(tried, Exchange(0)) == Shared(quota - 1, [Got(quota - 1)], [quota - 1]))
            && (quota == 0 ==>
                  && Enabled(tried, GiveUp(0)) && !Enabled(tried, Exchange(0))
                  && Apply(tried, GiveUp(0)) == Shared(0, [Refused], []))
  {
    var schedule := [Load(0)] + Repeat(Fail(0), failures);
    if failures == 0 {
      assert schedule == [Load(0)] && [Load(0)][..0] == [];
      assert Initial(quota, 1).threads == [Start];
      assert After(quota, 1, schedule).threads == [Trying(quota)];
    } else {
      LoneCallerIsServed(quota, failures - 1);
      assert schedule[..failures] == [Load(0)] + Repeat(Fail(0), failures - 1);
    }
  }

  function Repeat(step: Step, n: nat): (steps: seq<Step>)
    ensures |steps| == n && forall i :: 0 <= i < n ==> steps[i] == step
  {
    if n == 0 then [] else Repeat(step, n - 1) + [step]
  }

  /** Of any number of callers, whoever saw the current counter can be served at once:
      quota that is left can always be spent. */
  lemma CurrentCallerIsServed(s: Shared, i: nat)
    requires i < |s.threads| && s.threads[i] == Trying(s.counter) && s.counter > 0
    ensures Enabled(s, Exchange(i))
    ensures Apply(s, Exchange(i)).threads[i] == Got(s.counter - 1)
    ensures Apply(s, Exchange(i)).counter == s.counter - 1
  {
  }
}
