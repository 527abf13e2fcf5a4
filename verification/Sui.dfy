/** What on-chain verification establishes, `src/sui.rs`: the credits of the simulated
    transaction, and the liveness of every object it pins. The fullnode's answers are
    inputs. */
module Sui {
  import opened Prelude

  /** One balance change; a field the node left out is None, and so is an amount that
      is not an integer. Amounts and sums stay within 128 bits. */
  datatype Change = Change(address: Option<string>, coinType: Option<string>, amount: Option<int>)

  datatype Requirements = Requirements(amount: Option<int>, asset: string, payTo: string)

  datatype Error =
    | MalformedPayload | InvalidSignature | SimulationFailed | Rpc
    | StaleInput(objectId: string, pinned: nat, current: Option<nat>)
    | InvalidRequirements | AmountNotCredited(credited: int)

  // ------------------------------------------------------------------------ credits

  function Credit(change: Change, payTo: string, asset: string): int {
    if change.address == Some(payTo) && change.coinType == Some(asset) then change.amount.GetOr(0)
    else 0
  }

  /** The total credited to `payTo` in `asset`. */
  function Credited(changes: seq<Change>, payTo: string, asset: string): int {
    if changes == [] then 0
    else Credited(changes[..|changes| - 1], payTo, asset)
         + Credit(changes[|changes| - 1], payTo, asset)
  }

  /** An exact comparison of the total, not of any single change. */
  function AssertCredits(changes: seq<Change>, required: Requirements): Result<(), Error> {
    match required.amount
    case None => Err(InvalidRequirements)
    case Some(expected) =>
      var credited := Credited(changes, required.payTo, required.asset);
      if credited != expected then Err(AmountNotCredited(credited)) else Ok(())
  }

  lemma {:induction false} CreditedConcat(a: seq<Change>, b: seq<Change>, payTo: string, asset: string)
    ensures Credited(a + b, payTo, asset) == Credited(a, payTo, asset) + Credited(b, payTo, asset)
  {
    if b == [] {
      assert a + b == a;
    } else {
      var n := |b| - 1;
      assert (a + b)[..|a| + n] == a + b[..n];
      CreditedConcat(a, b[..n], payTo, asset);
    }
  }

  lemma CreditedOne(change: Change, payTo: string, asset: string)
    ensures Credited([change], payTo, asset) == Credit(change, payTo, asset)
  {
    assert [change][..0] == [];
  }

  /** The verdict does not depend on the order the node lists changes in. */
  lemma {:induction false} CreditedReordered(a: seq<Change>, b: seq<Change>, payTo: string, asset: string)
    requires multiset(a) == multiset(b)
    ensures Credited(a, payTo, asset) == Credited(b, payTo, asset)
    decreases |a|
  {
    if a == [] {
      assert |multiset(a)| == |a| && |multiset(b)| == |b|;
    } else {
      var n := |a| - 1;
      var last := a[n];
      assert a == a[..n] + [last];
      assert last in multiset(b);
      var i :| 0 <= i < |b| && b[i] == last;
      assert b == b[..i] + [last] + b[i + 1..];
      var rest := b[..i] + b[i + 1..];
      assert multiset(a[..n]) == multiset(a) - multiset{last};
      assert multiset(rest) == multiset(b) - multiset{last};
      CreditedReordered(a[..n], rest, payTo, asset);
      CreditedConcat(b[..i], b[i + 1..], payTo, asset);
      CreditedConcat(b[..i] + [last], b[i + 1..], payTo, asset);
      CreditedConcat(b[..i], [last], payTo, asset);
      CreditedOne(last, payTo, asset);
    }
  }

  /** Nor on how the node splits one account's change into several, or merges them,
      even when the order changes as well. */
  lemma CreditVerdictIsInvariant(a: seq<Change>, b: seq<Change>, whole: Change, parts: seq<Change>,
                                 required: Requirements)
    requires multiset(b) == multiset(a + parts)
    requires SameAccount(parts, whole)
    requires Total(parts) == whole.amount.GetOr(0)
    ensures AssertCredits(b, required) == AssertCredits(a + [whole], required)
  {
    SplitCreditsTheSame(a, whole, parts, required.payTo, required.asset);
    CreditedReordered(b, a + parts, required.payTo, required.asset);
  }

  lemma SplitCreditsTheSame(a: seq<Change>, whole: Change, parts: seq<Change>, payTo: string,
                            asset: string)
    requires SameAccount(parts, whole) && Total(parts) == whole.amount.GetOr(0)
    ensures Credited(a + parts, payTo, asset) == Credited(a + [whole], payTo, asset)
  {
    CreditedConcat(a, parts, payTo, asset);
    CreditedConcat(a, [whole], payTo, asset);
    CreditedOne(whole, payTo, asset);
    CreditedParts(parts, whole, payTo, asset);
  }

  predicate SameAccount(parts: seq<Change>, whole: Change) {
    forall i :: 0 <= i < |parts| ==>
      parts[i].address == whole.address && parts[i].coinType == whole.coinType
  }

  function Total(parts: seq<Change>): int {
    if parts == [] then 0 else Total(parts[..|parts| - 1]) + parts[|parts| - 1].amount.GetOr(0)
  }

  lemma {:induction false} CreditedParts(parts: seq<Change>, whole: Change, payTo: string, asset: string)
    requires SameAccount(parts, whole)
    ensures Credited(parts, payTo, asset)
            == if whole.address == Some(payTo) && whole.coinType == Some(asset) then Total(parts) else 0
  {
    if parts != [] {
      CreditedParts(parts[..|parts| - 1], whole, payTo, asset);
    }
  }

  // ------------------------------------------------------------------------- inputs

  datatype Input =
    | Owned(id: string, version: nat)      // immutable or owned
    | Receiving(id: string, version: nat)
    | Shared(id: string)                   // versioned by consensus, not pinned
    | Pure

  datatype Pin = Pin(id: string, version: nat)

  /** `inputs` is empty for a transaction that is not a programmable one. */
  datatype Transaction = Transaction(sender: string, inputs: seq<Input>, gas: seq<Pin>)

  /** What a read of an object returned. */
  datatype Read =
    | Found(version: Option<nat>)
    | NotFound
    | Failed

  /** The objects whose version the client fixed, in the order they are read. */
  function InputPins(inputs: seq<Input>): seq<Pin> {
    if inputs == [] then []
    else
      InputPins(inputs[..|inputs| - 1]) +
      match inputs[|inputs| - 1]
      case Owned(id, version) => [Pin(id, version)]
      case Receiving(id, version) => [Pin(id, version)]
      case Shared(_) => []
      case Pure => []
  }

  function PinsOf(t: Transaction): seq<Pin> {
    InputPins(t.inputs) + t.gas
  }

  /** Every owned, receiving and gas object, and nothing else. */
  lemma PinsAreComplete(t: Transaction, pin: Pin)
    ensures pin in PinsOf(t)
            <==> Owned(pin.id, pin.version) in t.inputs || Receiving(pin.id, pin.version) in t.inputs
                 || pin in t.gas
  {
    InputPinsAreComplete(t.inputs, pin);
  }

  lemma {:induction false} InputPinsAreComplete(inputs: seq<Input>, pin: Pin)
    ensures pin in InputPins(inputs)
            <==> Owned(pin.id, pin.version) in inputs || Receiving(pin.id, pin.version) in inputs
  {
    if inputs != [] {
      var rest := inputs[..|inputs| - 1];
      InputPinsAreComplete(rest, pin);
      assert forall x :: x in inputs <==> x in rest || x == inputs[|inputs| - 1];
    }
  }

  /** The ledger had the object at the pinned version when it was read. */
  predicate LiveAt(answer: Read, pin: Pin) {
    answer == Found(Some(pin.version))
  }

  /** The version a read found. */
  function VersionIn(answer: Read): Option<nat> {
    match answer
    case Found(version) => version
    case _ => None
  }

  /** Collect the pinned objects, then read them one by one and stop at the first that
      is not where the client pinned it. `answers(k)` is what the k-th read returns; an
      object pinned twice is read twice. */
  method AssertInputsAreLive(t: Transaction, answers: nat -> Read) returns (r: Result<(), Error>)
    ensures r.Ok? <==> AllLive(t, answers)
    ensures r.Err? ==>
              exists k: nat :: FirstDead(t, answers, k)
                && r.error == if answers(k).Failed? then Rpc
                              else StaleInput(PinsOf(t)[k].id, PinsOf(t)[k].version,
                                              VersionIn(answers(k)))
  {
    var pinned: seq<Pin> := [];
    var i := 0;
    while i < |t.inputs|
      invariant 0 <= i <= |t.inputs|
      invariant pinned == InputPins(t.inputs[..i])
    {
      assert t.inputs[..i + 1][..i] == t.inputs[..i];
      match t.inputs[i] {
        case Owned(id, version) => pinned := pinned + [Pin(id, version)];
        case Receiving(id, version) => pinned := pinned + [Pin(id, version)];
        case Shared(_) =>
        case Pure =>
      }
      i := i + 1;
    }
    assert t.inputs[..i] == t.inputs;
    pinned := pinned + t.gas;

    i := 0;
    while i < |pinned|
      invariant 0 <= i <= |pinned|
      invariant forall k :: 0 <= k < i ==> LiveAt(answers(k), pinned[k])
    {
      var pin := pinned[i];
      var current: Option<nat>;
      match answers(i) {
        case Found(version) => current := version;
        case NotFound => current := None;
        case Failed =>
          assert FirstDead(t, answers, i);
          return Err(Rpc);
      }
      if current != Some(pin.version) {
        assert FirstDead(t, answers, i);
        return Err(StaleInput(pin.id, pin.version, current));
      }
      i := i + 1;
    }
    r := Ok(());
  }

  predicate AllLive(t: Transaction, answers: nat -> Read) {
    forall k :: 0 <= k < |PinsOf(t)| ==> LiveAt(answers(k), PinsOf(t)[k])
  }

  predicate FirstDead(t: Transaction, answers: nat -> Read, k: nat) {
    && k < |PinsOf(t)| && !LiveAt(answers(k), PinsOf(t)[k])
    && forall j :: 0 <= j < k ==> LiveAt(answers(j), PinsOf(t)[j])
  }

  /** If the objects do not move while they are read, every pinned object is at its
      pinned version, and nothing else can be the case. */
  lemma LiveWhenNothingMoves(t: Transaction, answers: nat -> Read, ledger: string -> Read)
    requires forall k :: 0 <= k < |PinsOf(t)| ==> answers(k) == ledger(PinsOf(t)[k].id)
    ensures AllLive(t, answers)
            <==> && (forall id, version :: Owned(id, version) in t.inputs || Receiving(id, version) in t.inputs ==>
                       ledger(id) == Found(Some(version)))
                 && (forall pin :: pin in t.gas ==> ledger(pin.id) == Found(Some(pin.version)))
  {
    forall pin ensures pin in PinsOf(t)
        <==> Owned(pin.id, pin.version) in t.inputs || Receiving(pin.id, pin.version) in t.inputs
             || pin in t.gas
    {
      PinsAreComplete(t, pin);
    }
    if AllLive(t, answers) {
      forall pin | pin in PinsOf(t) ensures LiveAt(ledger(pin.id), pin) {
        var k :| 0 <= k < |PinsOf(t)| && PinsOf(t)[k] == pin;
        assert LiveAt(answers(k), PinsOf(t)[k]);
      }
      forall id, version | Owned(id, version) in t.inputs || Receiving(id, version) in t.inputs
        ensures ledger(id) == Found(Some(version))
      {
        assert Pin(id, version) in PinsOf(t);
      }
    }
  }

  // ------------------------------------------------------------------- verification

  /** What the fullnode said: is the signature valid, and how did simulation go.
      `succeeded` is None when the simulation reported no status, which passes;
      `objects(k)` answers the k-th read of an object. */
  datatype Node = Node(signatureValid: Result<bool, ()>, simulation: Result<Simulation, ()>,
                       objects: nat -> Read)

  datatype Simulation = NoTransaction | Simulated(succeeded: Option<bool>, changes: seq<Change>)

  /** Steps 2 to 4 of the scheme, in order; `decoded` is None when the payload does not
      decode to a transaction and a signature. */
  method Verify(decoded: Option<Transaction>, required: Requirements, node: Node)
    returns (r: Result<string, Error>)
    ensures r.Ok? <==>
              && decoded.Some? && node.signatureValid == Ok(true)
              && node.simulation.Ok? && node.simulation.value.Simulated?
              && node.simulation.value.succeeded != Some(false)
              && AllLive(decoded.value, node.objects)
              && required.amount == Some(Credited(node.simulation.value.changes, required.payTo, required.asset))
    ensures r.Ok? ==> r.value == decoded.value.sender
    // Each refusal names the first step that failed.
    ensures r == Err(MalformedPayload) <==> decoded.None?
    ensures r == Err(InvalidSignature) <==> decoded.Some? && node.signatureValid == Ok(false)
    ensures r == Err(SimulationFailed) <==>
              && decoded.Some? && node.signatureValid == Ok(true) && node.simulation.Ok?
              && (node.simulation.value.NoTransaction? || node.simulation.value.succeeded == Some(false))
    ensures r.Err? && r.error.StaleInput? ==>
              && decoded.Some? && node.signatureValid == Ok(true)
              && node.simulation.Ok? && node.simulation.value.Simulated?
              && Pin(r.error.objectId, r.error.pinned) in PinsOf(decoded.value)
              && r.error.current != Some(r.error.pinned)
    ensures r.Err? && (r.error.InvalidRequirements? || r.error.AmountNotCredited?) ==>
              && decoded.Some? && node.simulation.Ok? && node.simulation.value.Simulated?
              && AllLive(decoded.value, node.objects)
              && AssertCredits(node.simulation.value.changes, required) == Err(r.error)
  {
    if decoded.None? {
      return Err(MalformedPayload);
    }
    if node.signatureValid.Err? {
      return Err(Rpc);
    }
    if !node.signatureValid.value {
      return Err(InvalidSignature);
    }
    if node.simulation.Err? {
      return Err(Rpc);
    }
    if node.simulation.value.NoTransaction? || node.simulation.value.succeeded == Some(false) {
      return Err(SimulationFailed);
    }
    var live := AssertInputsAreLive(decoded.value, node.objects);
    if live.Err? {
      return Err(live.error);
    }
    var credits := AssertCredits(node.simulation.value.changes, required);
    if credits.Err? {
      return Err(credits.error);
    }
    r := Ok(decoded.value.sender);
  }
}
