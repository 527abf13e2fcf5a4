/** `Server-Timing`: printed by the gateway (`src/ext_proc.rs`), parsed by the paying
    client (`src/payclient.rs`). Reading a number is a parameter of the parser; all
    that is asked of it is that it reads what the printer writes. */
module Timing {
  import opened Prelude
  import opened Text

  datatype Phase = Phase(name: string, ms: real)

  type Number = string -> Option<real>

  /** A duration in tenths of a millisecond, as `{:.1}` rounds it: to nearest, ties to
      even. */
  function Tenths(ms: real): nat
    requires ms >= 0.0
  {
    var below := (ms * 10.0).Floor;
    var rest := ms * 10.0 - below as real;
    if rest < 0.5 || (rest == 0.5 && below % 2 == 0) then below else below + 1
  }

  function PrintTenths(n: nat): string {
    Decimal(n / 10) + "." + [Digit(n % 10)]
  }

  function PrintMetric(phase: Phase): string
    requires phase.ms >= 0.0
  {
    phase.name + ";dur=" + PrintTenths(Tenths(phase.ms))
  }

  function PrintAll(phases: seq<Phase>): seq<string>
    requires forall i :: 0 <= i < |phases| ==> phases[i].ms >= 0.0
  {
    seq(|phases|, i requires 0 <= i < |phases| => PrintMetric(phases[i]))
  }

  function Print(phases: seq<Phase>): string
    requires forall i :: 0 <= i < |phases| ==> phases[i].ms >= 0.0
  {
    Join(PrintAll(phases), ", ")
  }

  // ------------------------------------------------------------------------ parsing

  function StripDur(part: string, number: Number): Option<real> {
    var p := Trim(part);
    if "dur=" <= p then number(p[4..]) else None
  }

  /** The first parameter that is a readable duration. */
  function FirstDur(parts: seq<string>, number: Number): Option<real> {
    if parts == [] then None
    else
      var d := StripDur(parts[0], number);
      if d.Some? then d else FirstDur(parts[1..], number)
  }

  function ParseMetric(metric: string, number: Number): seq<Phase> {
    var parts := Split(metric, ';');
    match FirstDur(parts[1..], number)
    case None => []
    case Some(ms) => [Phase(Trim(parts[0]), ms)]
  }

  function ParseEach(metrics: seq<string>, number: Number): seq<Phase> {
    if metrics == [] then []
    else ParseMetric(metrics[0], number) + ParseEach(metrics[1..], number)
  }

  function Parse(raw: string, number: Number): seq<Phase> {
    ParseEach(Split(raw, ','), number)
  }

  // ------------------------------------------------------------------ what is proved

  lemma {:induction false} ParseEachConcat(a: seq<string>, b: seq<string>, number: Number)
    ensures ParseEach(a + b, number) == ParseEach(a, number) + ParseEach(b, number)
  {
    if a == [] {
      assert a + b == b;
    } else {
      assert (a + b)[1..] == a[1..] + b;
      ParseEachConcat(a[1..], b, number);
    }
  }

  /** A header is parsed metric by metric: commas are the only context there is. */
  lemma ParsingIsCompositional(a: string, b: string, number: Number)
    ensures Parse(a + "," + b, number) == Parse(a, number) + Parse(b, number)
  {
    SplitConcat(a, b, ',');
    ParseEachConcat(Split(a, ','), Split(b, ','), number);
  }

  /** A metric that cannot be read drops itself and nothing else. */
  lemma MalformedDropsOnlyItself(a: string, bad: string, b: string, number: Number)
    requires ',' !in bad && ParseMetric(bad, number) == []
    ensures Parse(a + "," + bad + "," + b, number) == Parse(a, number) + Parse(b, number)
  {
    OneMetric(bad, number);
    ParsingIsCompositional(a, bad, number);
    ParsingIsCompositional(a + "," + bad, b, number);
    assert a + "," + bad + "," + b == (a + "," + bad) + "," + b;
    assert Parse(a, number) + [] == Parse(a, number);
  }

  /** A duration is found behind any parameters that are none, and what follows it is not
      looked at: `db;desc=x;dur=5;y` is `db` at 5. */
  lemma DurationBehindOthers(metric: string, k: nat, ms: string, number: Number)
    requires 1 <= k < |Split(metric, ';')| && Trim(Split(metric, ';')[k]) == "dur=" + ms
    requires forall i :: 1 <= i < k ==> !("dur=" <= Trim(Split(metric, ';')[i]))
    requires number(ms).Some?
    ensures ParseMetric(metric, number) == [Phase(Trim(Split(metric, ';')[0]), number(ms).value)]
  {
    var params := Split(metric, ';')[1..];
    assert ("dur=" + ms)[4..] == ms;
    FirstDurAt(params, k - 1, number);
  }

  lemma {:induction false} FirstDurAt(params: seq<string>, k: nat, number: Number)
    requires k < |params| && StripDur(params[k], number).Some?
    requires forall i :: 0 <= i < k ==> !("dur=" <= Trim(params[i]))
    ensures FirstDur(params, number) == StripDur(params[k], number)
  {
    if k > 0 {
      FirstDurAt(params[1..], k - 1, number);
    }
  }

  /** A metric without a readable duration is dropped. */
  lemma {:induction false} NoDuration(params: seq<string>, number: Number)
    ensures FirstDur(params, number).None?
            <==> forall i :: 0 <= i < |params| && "dur=" <= Trim(params[i]) ==>
                   number(Trim(params[i])[4..]).None?
  {
    if params != [] {
      NoDuration(params[1..], number);
    }
  }

  /** A name that survives the trip: no separators, no padding. */
  predicate Plain(name: string) {
    ',' !in name && ';' !in name && Unpadded(name)
  }

  ghost predicate ReadsPrinted(number: Number) {
    forall n: nat :: number(PrintTenths(n)) == Some(n as real / 10.0)
  }

  function DurField(n: nat): string {
    "dur=" + PrintTenths(n)
  }

  lemma DurFieldIsRead(n: nat, number: Number)
    requires ReadsPrinted(number)
    ensures ';' !in DurField(n) && ',' !in DurField(n)
    ensures FirstDur([DurField(n)], number) == Some(n as real / 10.0)
  {
    var dur := DurField(n);
    assert forall i :: 0 <= i < |dur| ==>
      dur[i] == (if i < 4 then "dur="[i] else PrintTenths(n)[i - 4]);
    assert Unpadded(dur);
    TrimClean(dur);
    assert dur[4..] == PrintTenths(n);
  }

  lemma MetricFields(name: string, n: nat)
    requires ';' !in name && ';' !in DurField(n)
    ensures Split(name + ";dur=" + PrintTenths(n), ';') == [name, DurField(n)]
  {
    assert name + ";dur=" + PrintTenths(n) == name + [';'] + DurField(n);
    SplitConcat(name, DurField(n), ';');
    SplitFree(name, ';');
    SplitFree(DurField(n), ';');
  }

  lemma ParsedFromFields(metric: string, name: string, dur: string, ms: real, number: Number)
    requires Split(metric, ';') == [name, dur] && Unpadded(name)
    requires FirstDur([dur], number) == Some(ms)
    ensures ParseMetric(metric, number) == [Phase(name, ms)]
  {
    TrimClean(name);
    assert [name, dur][1..] == [dur];
  }

  lemma MetricRoundTrip(phase: Phase, number: Number)
    requires phase.ms >= 0.0 && Plain(phase.name) && ReadsPrinted(number)
    ensures ',' !in PrintMetric(phase)
    ensures ParseMetric(PrintMetric(phase), number)
            == [Phase(phase.name, Tenths(phase.ms) as real / 10.0)]
  {
    NamedMetric(phase.name, Tenths(phase.ms), number);
  }

  lemma NamedMetric(name: string, n: nat, number: Number)
    requires Plain(name) && ReadsPrinted(number)
    ensures ',' !in name + ";dur=" + PrintTenths(n)
    ensures ParseMetric(name + ";dur=" + PrintTenths(n), number) == [Phase(name, n as real / 10.0)]
  {
    DurFieldIsRead(n, number);
    MetricFields(name, n);
    ParsedFromFields(name + ";dur=" + PrintTenths(n), name, DurField(n), n as real / 10.0, number);
    assert name + ";dur=" + PrintTenths(n) == name + ";" + DurField(n);
  }

  lemma OneMetric(metric: string, number: Number)
    requires ',' !in metric
    ensures Parse(metric, number) == ParseMetric(metric, number)
  {
    SplitFree(metric, ',');
    assert ParseEach([], number) == [];
    assert [metric][1..] == [];
    assert ParseEach([metric], number) == ParseMetric(metric, number) + [];
  }

  /** The blank the printer puts after a comma is trimmed away. */
  lemma LeadingBlank(raw: string, number: Number)
    ensures Parse(" " + raw, number) == Parse(raw, number)
  {
    var metrics := Split(raw, ',');
    assert (" " + raw)[1..] == raw;
    assert Split(" " + raw, ',') == [" " + metrics[0]] + metrics[1..];
    var parts := Split(metrics[0], ';');
    assert (" " + metrics[0])[1..] == metrics[0];
    assert Split(" " + metrics[0], ';') == [" " + parts[0]] + parts[1..];
    assert (" " + parts[0])[1..] == parts[0];
    assert ([" " + parts[0]] + parts[1..])[1..] == parts[1..];
    assert ([" " + metrics[0]] + metrics[1..])[1..] == metrics[1..];
  }

  function RoundedPhase(phase: Phase): Phase
    requires phase.ms >= 0.0
  {
    Phase(phase.name, Tenths(phase.ms) as real / 10.0)
  }

  function Rounded(phases: seq<Phase>): seq<Phase>
    requires forall i :: 0 <= i < |phases| ==> phases[i].ms >= 0.0
  {
    seq(|phases|, i requires 0 <= i < |phases| => RoundedPhase(phases[i]))
  }

  lemma PrintStep(phases: seq<Phase>)
    requires phases != [] && forall i :: 0 <= i < |phases| ==> phases[i].ms >= 0.0
    ensures Print(phases) == if |phases| == 1 then PrintMetric(phases[0])
                             else PrintMetric(phases[0]) + "," + (" " + Print(phases[1..]))
  {
    assert PrintAll(phases)[1..] == PrintAll(phases[1..]);
  }

  lemma RoundedStep(phases: seq<Phase>)
    requires phases != [] && forall i :: 0 <= i < |phases| ==> phases[i].ms >= 0.0
    ensures Rounded(phases) == [RoundedPhase(phases[0])] + Rounded(phases[1..])
  {
  }

  lemma ParseOne(phase: Phase, number: Number)
    requires phase.ms >= 0.0 && Plain(phase.name) && ReadsPrinted(number)
    ensures Parse(PrintMetric(phase), number) == [RoundedPhase(phase)]
  {
    MetricRoundTrip(phase, number);
    OneMetric(PrintMetric(phase), number);
  }

  lemma ParseStep(metric: string, tail: string, number: Number)
    ensures Parse(metric + "," + (" " + tail), number) == Parse(metric, number) + Parse(tail, number)
  {
    ParsingIsCompositional(metric, " " + tail, number);
    LeadingBlank(tail, number);
  }

  lemma NothingPrinted(number: Number)
    ensures Parse("", number) == []
  {
    assert Split("", ';') == [""] && [""][1..] == [];
    OneMetric("", number);
  }

  /** The client reads back the gateway's phases: same names, same order, durations
      to a tenth. */
  lemma {:induction false} RoundTrip(phases: seq<Phase>, number: Number)
    requires forall i :: 0 <= i < |phases| ==> phases[i].ms >= 0.0 && Plain(phases[i].name)
    requires ReadsPrinted(number)
    ensures Parse(Print(phases), number) == Rounded(phases)
  {
    if phases == [] {
      NothingPrinted(number);
    } else {
      RoundTrip(phases[1..], number);
      RoundedStep(phases);
      PrintStep(phases);
      ParseOne(phases[0], number);
      ParseStep(PrintMetric(phases[0]), Print(phases[1..]), number);
    }
  }

  /** Whatever a header says, the names read from it are plain. */
  lemma {:induction false} ParsedNamesArePlain(metrics: seq<string>, number: Number)
    requires forall i :: 0 <= i < |metrics| ==> ',' !in metrics[i]
    ensures forall i :: 0 <= i < |ParseEach(metrics, number)| ==>
              Plain(ParseEach(metrics, number)[i].name)
  {
    if metrics != [] {
      ParsedNamesArePlain(metrics[1..], number);
      var parts := Split(metrics[0], ';');
      JoinSplit(metrics[0], ';');
      FirstFieldIsPrefix(metrics[0], ';');
      TrimClean(parts[0]);
      TrimStartClean(parts[0]);
      TrimEndClean(TrimStart(parts[0]));
      assert forall c :: c in Trim(parts[0]) ==> c in parts[0];
    }
  }

  lemma FirstFieldIsPrefix(s: string, sep: char)
    ensures Split(s, sep)[0] <= s
  {
    JoinSplit(s, sep);
  }

  /** The names come back exactly when they were plain to begin with. */
  lemma NamesSurviveIff(phases: seq<Phase>, number: Number)
    requires forall i :: 0 <= i < |phases| ==> phases[i].ms >= 0.0
    requires ReadsPrinted(number)
    ensures Parse(Print(phases), number) == Rounded(phases)
            <==> forall i :: 0 <= i < |phases| ==> Plain(phases[i].name)
  {
    if forall i :: 0 <= i < |phases| ==> Plain(phases[i].name) {
      RoundTrip(phases, number);
    }
    if Parse(Print(phases), number) == Rounded(phases) {
      JoinSplit(Print(phases), ',');
      ParsedNamesArePlain(Split(Print(phases), ','), number);
      forall i | 0 <= i < |phases| ensures Plain(phases[i].name) {
        assert phases[i].name == Rounded(phases)[i].name;
      }
    }
  }

  // ------------------------------------------------------------- such a reader exists

  /** Digits, a point, one digit. */
  function ReadFixed(s: string): Option<real> {
    var fields := Split(s, '.');
    if |fields| == 2 && |fields[1]| == 1 && fields[0] != "" && AllDigits(fields[0]) && IsDigit(fields[1][0])
    then Some(Value(fields[0]) as real + DigitValue(fields[1][0]) as real / 10.0)
    else None
  }

  lemma ReadFixedReadsPrinted()
    ensures ReadsPrinted(ReadFixed)
  {
    forall n: nat ensures ReadFixed(PrintTenths(n)) == Some(n as real / 10.0) {
      SplitConcat(Decimal(n / 10), [Digit(n % 10)], '.');
      SplitFree(Decimal(n / 10), '.');
      SplitFree([Digit(n % 10)], '.');
      DecimalValue(n / 10);
      assert n == n / 10 * 10 + n % 10;
      assert (n / 10 * 10) as real == (n / 10) as real * 10.0;
    }
  }

  /** The rounding is to the nearest tenth, to the even one of two. */
  lemma TenthsIsNearest(ms: real)
    requires ms >= 0.0
    ensures -0.05 <= Tenths(ms) as real / 10.0 - ms <= 0.05
    ensures Tenths(ms) as real / 10.0 - ms == 0.05 || ms - Tenths(ms) as real / 10.0 == 0.05 ==>
              Tenths(ms) % 2 == 0
  {
  }
}
