/** The breathing cycle: its three phases, their fixed durations, the guidance
    text shown during each phase and the haptic pulse pattern dispatched when a
    phase begins.  A pulse pattern is a list of millisecond durations that
    alternate "motor on" / "motor off", starting with "on". */
module Breath {

  datatype Phase = Inhale | Hold | Exhale

  const INHALE_TIME: nat := 4000
  const HOLD_TIME: nat := 7000
  const EXHALE_TIME: nat := 8000
  const CYCLE_TOTAL: nat := INHALE_TIME + HOLD_TIME + EXHALE_TIME

  /** How long a phase lasts, which is also the delay of the timer armed when it begins. */
  function Duration(ph: Phase): nat
  {
    match ph
    case Inhale => INHALE_TIME
    case Hold => HOLD_TIME
    case Exhale => EXHALE_TIME
  }

  /** The phase that follows `ph`: Inhale, Hold, Exhale, then Inhale again. */
  function Next(ph: Phase): Phase
  {
    match ph
    case Inhale => Hold
    case Hold => Exhale
    case Exhale => Inhale
  }

  /** The phase that precedes `ph` in the cycle. */
  function Prev(ph: Phase): (r: Phase)
    ensures Next(r) == ph
  {
    match ph
    case Inhale => Exhale
    case Hold => Inhale
    case Exhale => Hold
  }

  /** The phase reached after `k` advances from `ph`. */
  function Advance(ph: Phase, k: nat): Phase
  {
    if k == 0 then ph else Next(Advance(ph, k - 1))
  }

  function GuideText(ph: Phase): string
  {
    match ph
    case Inhale => "吸って..."
    case Hold => "止めて..."
    case Exhale => "吐いて..."
  }

  /** The on/off pair (or group) pushed on every iteration of a phase's builder loop. */
  function Unit(ph: Phase): seq<int>
  {
    match ph
    case Inhale => [200, 50]
    case Hold => [500, 500]
    case Exhale => [150, 50, 150, 650]
  }

  /** How many times a phase's builder loop runs. */
  function Repetitions(ph: Phase): nat
  {
    match ph
    case Inhale => 16
    case Hold => 7
    case Exhale => 8
  }

  /** `n` copies of `unit`, one after another. */
  function Repeat(unit: seq<int>, n: nat): seq<int>
  {
    if n == 0 then [] else Repeat(unit, n - 1) + unit
  }

  /** The pulse pattern dispatched when `ph` begins: the phase's unit, over and over,
      `Repetitions(ph)` times (PatternIsRepeat relates it to the builder loops). */
  function Pattern(ph: Phase): seq<int>
  {
    var unit, n := Unit(ph), Repetitions(ph);
    seq(n * |unit|, i requires 0 <= i < n * |unit| => unit[i % |unit|])
  }

  function Sum(s: seq<int>): int
  {
    if s == [] then 0 else Sum(s[..|s| - 1]) + s[|s| - 1]
  }

  /** A well-formed pulse pattern: non-empty, every entry non-negative, it
      starts with a positive "on" entry and ends with an "off" entry. */
  predicate IsPulsePattern(p: seq<int>)
  {
    |p| >= 2 && |p| % 2 == 0 && p[0] > 0 &&
    forall i :: 0 <= i < |p| ==> p[i] >= 0
  }

  lemma {:induction false} SumConcat(a: seq<int>, b: seq<int>)
    ensures Sum(a + b) == Sum(a) + Sum(b)
  {
    if b == [] {
      assert a + b == a;
    } else {
      assert (a + b)[..|a + b| - 1] == a + b[..|b| - 1];
      SumConcat(a, b[..|b| - 1]);
    }
  }

  lemma {:induction false} RepeatLength(unit: seq<int>, n: nat)
    ensures |Repeat(unit, n)| == n * |unit|
  {
    if n > 0 {
      RepeatLength(unit, n - 1);
    }
  }

  lemma {:induction false} RepeatSum(unit: seq<int>, n: nat)
    ensures Sum(Repeat(unit, n)) == n * Sum(unit)
  {
    if n > 0 {
      RepeatSum(unit, n - 1);
      SumConcat(Repeat(unit, n - 1), unit);
    }
  }

  /** Entry `j` of copy `q` is entry `j` of the unit. */
  lemma {:induction false} RepeatAt(unit: seq<int>, n: nat, q: nat, j: nat)
    requires q < n && j < |unit|
    ensures q * |unit| + j < |Repeat(unit, n)|
    ensures Repeat(unit, n)[q * |unit| + j] == unit[j]
  {
    RepeatLength(unit, n - 1);
    if q < n - 1 {
      RepeatAt(unit, n - 1, q, j);
    }
  }

  /** The quotient of an index below `n * u` by `u` is below `n`. */
  lemma QuotientBelow(i: nat, u: nat, n: nat)
    requires u > 0 && i < n * u
    ensures i / u < n
  {
    var q, j := i / u, i % u;
    assert q * u + j == i;
    assert (n - q) * u == n * u - q * u;
    assert (n - q) * u > 0;
  }

  /** Every entry of a repetition is an entry of the unit. */
  lemma RepeatEntries(unit: seq<int>, n: nat, i: nat)
    requires |unit| > 0 && i < |Repeat(unit, n)|
    ensures Repeat(unit, n)[i] == unit[i % |unit|]
  {
    var u := |unit|;
    RepeatLength(unit, n);
    QuotientBelow(i, u, n);
    var q, j := i / u, i % u;
    assert q * u + j == i;
    RepeatAt(unit, n, q, j);
  }

  /** The pattern is what the phase's builder loop produces: `Repetitions(ph)` pushes of its unit. */
  lemma PatternIsRepeat(ph: Phase)
    ensures Pattern(ph) == Repeat(Unit(ph), Repetitions(ph))
  {
    var unit, n := Unit(ph), Repetitions(ph);
    var r := Repeat(unit, n);
    RepeatLength(unit, n);
    forall i | 0 <= i < |r|
      ensures r[i] == Pattern(ph)[i]
    {
      RepeatEntries(unit, n, i);
    }
  }

  /** Inhale: 16 times (200 on, 50 off), 32 entries summing to INHALE_TIME. */
  lemma InhalePatternShape()
    ensures |Pattern(Inhale)| == 32
    ensures forall i :: 0 <= i < 32 ==> Pattern(Inhale)[i] == if i % 2 == 0 then 200 else 50
    ensures Sum(Pattern(Inhale)) == INHALE_TIME
  {
    var p := Pattern(Inhale);
    PatternIsRepeat(Inhale);
    RepeatLength([200, 50], 16);
    forall i | 0 <= i < 32
      ensures p[i] == if i % 2 == 0 then 200 else 50
    {
      RepeatEntries([200, 50], 16, i);
    }
    RepeatSum([200, 50], 16);
    assert Sum([200, 50]) == 250 by {
      assert [200, 50][..1] == [200];
      assert [200][..0] == [];
    }
  }

  /** Hold: 7 times (500 on, 500 off), 14 entries all equal to 500, summing to HOLD_TIME. */
  lemma HoldPatternShape()
    ensures |Pattern(Hold)| == 14
    ensures forall i :: 0 <= i < 14 ==> Pattern(Hold)[i] == 500
    ensures Sum(Pattern(Hold)) == HOLD_TIME
  {
    var p := Pattern(Hold);
    PatternIsRepeat(Hold);
    RepeatLength([500, 500], 7);
    forall i | 0 <= i < 14
      ensures p[i] == 500
    {
      RepeatEntries([500, 500], 7, i);
    }
    RepeatSum([500, 500], 7);
    assert Sum([500, 500]) == 1000 by {
      assert [500, 500][..1] == [500];
      assert [500][..0] == [];
    }
  }

  /** Exhale: 8 times (150 on, 50 off, 150 on, 650 off), 32 entries summing to EXHALE_TIME. */
  lemma ExhalePatternShape()
    ensures |Pattern(Exhale)| == 32
    ensures forall i :: 0 <= i < 32 ==> Pattern(Exhale)[i] == [150, 50, 150, 650][i % 4]
    ensures Sum(Pattern(Exhale)) == EXHALE_TIME
  {
    var p := Pattern(Exhale);
    PatternIsRepeat(Exhale);
    RepeatLength([150, 50, 150, 650], 8);
    forall i | 0 <= i < 32
      ensures p[i] == [150, 50, 150, 650][i % 4]
    {
      RepeatEntries([150, 50, 150, 650], 8, i);
    }
    RepeatSum([150, 50, 150, 650], 8);
    assert Sum([150, 50, 150, 650]) == 1000 by {
      assert [150, 50, 150, 650][..3] == [150, 50, 150];
      assert [150, 50, 150][..2] == [150, 50];
      assert [150, 50][..1] == [150];
      assert [150][..0] == [];
    }
  }

  /** Every phase's pattern is a well-formed pulse pattern whose total length
      is exactly the phase's duration. */
  lemma PatternFitsPhase(ph: Phase)
    ensures IsPulsePattern(Pattern(ph))
    ensures Sum(Pattern(ph)) == Duration(ph)
  {
    match ph
    case Inhale => InhalePatternShape();
    case Hold => HoldPatternShape();
    case Exhale => ExhalePatternShape();
  }

  /** The three phases feel different: no two share a pattern, and no two share a guidance text. */
  lemma PhasesDistinguishable(a: Phase, b: Phase)
    ensures Pattern(a) == Pattern(b) ==> a == b
    ensures GuideText(a) == GuideText(b) ==> a == b
  {
    InhalePatternShape();
    HoldPatternShape();
    ExhalePatternShape();
    assert Pattern(Inhale)[0] == 200 && Pattern(Hold)[0] == 500 && Pattern(Exhale)[0] == 150;
    assert GuideText(Inhale)[0] != GuideText(Hold)[0] && GuideText(Hold)[0] != GuideText(Exhale)[0];
    assert GuideText(Inhale)[0] != GuideText(Exhale)[0];
  }

  /** Advancing three times returns to the same phase, and a full cycle lasts CYCLE_TOTAL. */
  lemma {:induction false} AdvancePeriodic(ph: Phase, k: nat)
    ensures Advance(ph, k) == Advance(ph, k % 3)
    ensures Duration(ph) + Duration(Next(ph)) + Duration(Next(Next(ph))) == CYCLE_TOTAL
  {
    if k >= 3 {
      AdvancePeriodic(ph, k - 3);
      assert Advance(ph, k - 1) == Next(Advance(ph, k - 2));
      assert Advance(ph, k - 2) == Next(Advance(ph, k - 3));
      assert Next(Next(Next(Advance(ph, k - 3)))) == Advance(ph, k - 3);
      assert (k - 3) % 3 == k % 3;
    }
  }

  /** The inhale builder loop (16 pushes of 200, 50). */
  method BuildInhalePattern() returns (p: seq<int>)
    ensures p == Pattern(Inhale)
    ensures |p| == 32 && Sum(p) == INHALE_TIME
  {
    p := [];
    for i := 0 to 16
      invariant p == Repeat([200, 50], i)
    {
      p := p + [200, 50];
    }
    PatternIsRepeat(Inhale);
    InhalePatternShape();
  }

  /** The hold builder loop (7 pushes of 500, 500). */
  method BuildHoldPattern() returns (p: seq<int>)
    ensures p == Pattern(Hold)
    ensures |p| == 14 && Sum(p) == HOLD_TIME
  {
    p := [];
    for i := 0 to 7
      invariant p == Repeat([500, 500], i)
    {
      p := p + [500, 500];
    }
    PatternIsRepeat(Hold);
    HoldPatternShape();
  }

  /** The exhale builder loop (8 pushes of 150, 50, 150, 650). */
  method BuildExhalePattern() returns (p: seq<int>)
    ensures p == Pattern(Exhale)
    ensures |p| == 32 && Sum(p) == EXHALE_TIME
  {
    p := [];
    for i := 0 to 8
      invariant p == Repeat([150, 50, 150, 650], i)
    {
      p := p + [150, 50, 150, 650];
    }
    PatternIsRepeat(Exhale);
    ExhalePatternShape();
  }
}
