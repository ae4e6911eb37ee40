/** The countdown display: remaining seconds written as minutes and seconds,
    each left-padded with '0' to two characters and joined by ':'.  The
    JavaScript operations involved are written out for integer counts:
    `Math.floor(r / 60)`, the truncating remainder `r % 60`, `String(n)` for an
    integer and `padStart(2, '0')`.  Counts are unbounded integers, not doubles. */
module Display {
  import opened Options

  predicate IsDigit(c: char)
  {
    '0' <= c <= '9'
  }

  predicate AllDigits(s: string)
  {
    forall i :: 0 <= i < |s| ==> IsDigit(s[i])
  }

  function Digit(d: nat): (c: char)
    requires d < 10
    ensures IsDigit(c)
  {
    "0123456789"[d]
  }

  function DigitValue(c: char): (d: nat)
    requires IsDigit(c)
    ensures d < 10
  {
    (c as int - '0' as int) as nat
  }

  /** The decimal numeral of `n`, without leading zeros (JavaScript's `String(n)` for n >= 0). */
  function NatText(n: nat): string
  {
    if n < 10 then [Digit(n)] else NatText(n / 10) + [Digit(n % 10)]
  }

  /** JavaScript's `String(i)` for any integer. */
  function IntText(i: int): string
  {
    if i < 0 then "-" + NatText(-i) else NatText(i)
  }

  /** JavaScript's `%`: the remainder takes the sign of the dividend. */
  function JsRemainder(a: int, b: int): int
    requires b > 0
  {
    if a >= 0 then a % b else -((-a) % b)
  }

  /** JavaScript's `Math.floor(a / b)` for a positive divisor. */
  function FloorDiv(a: int, b: int): int
    requires b > 0
  {
    a / b
  }

  /** JavaScript's `t.padStart(2, '0')`: add leading '0's up to two characters, never truncate. */
  function PadStart2(t: string): string
  {
    if |t| >= 2 then t else seq(2 - |t|, _ => '0') + t
  }

  /** The text the countdown shows for `remaining` seconds. */
  function CountdownText(remaining: int): string
  {
    var m := FloorDiv(remaining, 60);
    var s := JsRemainder(remaining, 60);
    PadStart2(IntText(m)) + ":" + PadStart2(IntText(s))
  }

  /** The number a string of decimal digits denotes (leading zeros allowed). */
  function Value(s: string): nat
    requires AllDigits(s)
  {
    if s == [] then 0 else Value(s[..|s| - 1]) * 10 + DigitValue(s[|s| - 1])
  }

  /** Reads back a countdown text "<minutes>:<two-digit seconds>". */
  function ParseCountdown(t: string): Option<int>
  {
    if |t| >= 4 && t[|t| - 3] == ':' && AllDigits(t[..|t| - 3]) && AllDigits(t[|t| - 2..]) then
      Some(Value(t[..|t| - 3]) * 60 + Value(t[|t| - 2..]))
    else
      None
  }

  /** `String(n)` is a non-empty string of digits with no leading zero (unless n is 0). */
  lemma {:induction false} NatTextDigits(n: nat)
    ensures |NatText(n)| >= 1 && AllDigits(NatText(n))
    ensures NatText(n)[0] == '0' ==> n == 0
  {
    if n >= 10 {
      NatTextDigits(n / 10);
    }
  }

  /** Reading `String(n)` back as a decimal numeral gives `n`. */
  lemma {:induction false} NatTextValue(n: nat)
    ensures AllDigits(NatText(n)) && Value(NatText(n)) == n
  {
    NatTextDigits(n);
    if n >= 10 {
      var r := NatText(n);
      assert r[..|r| - 1] == NatText(n / 10);
      NatTextValue(n / 10);
    }
  }

  /** JavaScript's remainder by a positive divisor: smaller than the divisor in magnitude,
      non-negative for a non-negative dividend and then equal to Dafny's `%`; `Math.floor`
      division brackets the dividend. */
  lemma DivisionFacts(a: int, b: int)
    requires b > 0
    ensures -b < JsRemainder(a, b) < b
    ensures a >= 0 ==> JsRemainder(a, b) == a % b && FloorDiv(a, b) == a / b
    ensures FloorDiv(a, b) * b <= a < FloorDiv(a, b) * b + b
  {
  }

  /** `padStart(2, '0')` yields at least two characters, ends with its argument and is
      '0' before it. */
  lemma PadStart2Facts(t: string)
    ensures |PadStart2(t)| == if |t| >= 2 then |t| else 2
    ensures PadStart2(t)[|PadStart2(t)| - |t|..] == t
    ensures forall k :: 0 <= k < |PadStart2(t)| - |t| ==> PadStart2(t)[k] == '0'
  {
  }

  lemma NatTextShort(n: nat)
    requires n < 100
    ensures |NatText(n)| == if n < 10 then 1 else 2
  {
  }

  lemma {:induction false} LeadingZerosValue(z: string, t: string)
    requires AllDigits(t) && forall k :: 0 <= k < |z| ==> z[k] == '0'
    ensures AllDigits(z + t) && Value(z + t) == Value(t)
  {
    if t == [] {
      assert z + t == z;
      ZerosValue(z);
    } else {
      assert (z + t)[..|z + t| - 1] == z + t[..|t| - 1];
      LeadingZerosValue(z, t[..|t| - 1]);
    }
  }

  lemma {:induction false} ZerosValue(z: string)
    requires forall k :: 0 <= k < |z| ==> z[k] == '0'
    ensures AllDigits(z) && Value(z) == 0
  {
    if z != [] {
      ZerosValue(z[..|z| - 1]);
    }
  }

  /** Padding a numeral keeps it a numeral of the same value. */
  lemma PaddedValue(n: nat)
    ensures AllDigits(PadStart2(NatText(n)))
    ensures Value(PadStart2(NatText(n))) == n
  {
    var t := NatText(n);
    var r := PadStart2(t);
    PadStart2Facts(t);
    NatTextDigits(n);
    var z := r[..|r| - |t|];
    assert r == z + t;
    LeadingZerosValue(z, t);
    NatTextValue(n);
  }

  /** For a non-negative count, the minutes and seconds are the padded numerals of the
      quotient and remainder by 60. */
  lemma CountdownParts(remaining: nat)
    ensures CountdownText(remaining) ==
      PadStart2(NatText(remaining / 60)) + ":" + PadStart2(NatText(remaining % 60))
  {
  }

  /** Splitting "<mm>:<ss>" at the colon three characters from the end recovers both parts. */
  lemma SplitAtColon(mm: string, ss: string)
    requires |ss| == 2
    ensures var t := mm + ":" + ss;
      |t| == |mm| + 3 && t[|t| - 3] == ':' && t[..|t| - 3] == mm && t[|t| - 2..] == ss
  {
  }

  /** `t` reads "<minutes>:<seconds>": a colon three characters from the end, digits on
      both sides, the two after it denoting `s` and those before it denoting `m`. */
  predicate ShowsMinutesSeconds(t: string, m: nat, s: nat)
  {
    |t| >= 5 && t[|t| - 3] == ':' &&
    AllDigits(t[..|t| - 3]) && AllDigits(t[|t| - 2..]) &&
    Value(t[..|t| - 3]) == m && Value(t[|t| - 2..]) == s
  }

  /** The padded numerals of `m` and `s` (with s < 60), joined by ':'. */
  lemma JoinedShape(m: nat, s: nat)
    requires s < 60
    ensures ShowsMinutesSeconds(PadStart2(NatText(m)) + ":" + PadStart2(NatText(s)), m, s)
    ensures m < 100 ==> |PadStart2(NatText(m)) + ":" + PadStart2(NatText(s))| == 5
  {
    var mm, ss := PadStart2(NatText(m)), PadStart2(NatText(s));
    NatTextShort(s);
    PadStart2Facts(NatText(m));
    PadStart2Facts(NatText(s));
    SplitAtColon(mm, ss);
    PaddedValue(m);
    PaddedValue(s);
    if m < 100 {
      NatTextShort(m);
    }
  }

  /** For a non-negative count the display is "mm:ss": the seconds part is exactly two
      digits denoting `remaining % 60` (below 60) and the minutes part, at least two
      digits, denotes `remaining / 60`; five characters below 100 minutes. */
  lemma CountdownShape(remaining: nat)
    ensures ShowsMinutesSeconds(CountdownText(remaining), remaining / 60, remaining % 60)
    ensures remaining % 60 < 60 && (remaining / 60) * 60 + remaining % 60 == remaining
    ensures remaining < 6000 ==> |CountdownText(remaining)| == 5
  {
    CountdownParts(remaining);
    JoinedShape(remaining / 60, remaining % 60);
  }

  /** Any text of the shape "<minutes>:<seconds>" reads back as minutes * 60 + seconds. */
  lemma ParseShown(t: string, m: nat, s: nat)
    requires ShowsMinutesSeconds(t, m, s)
    ensures ParseCountdown(t) == Some(m * 60 + s)
  {
  }

  /** Reading the display back gives the remaining seconds (for a non-negative count). */
  lemma CountdownRoundTrip(remaining: nat)
    ensures ParseCountdown(CountdownText(remaining)) == Some(remaining)
  {
    CountdownShape(remaining);
    ParseShown(CountdownText(remaining), remaining / 60, remaining % 60);
  }

  /** A negative count is rendered with JavaScript's signs: floor division gives -1 minutes,
      the truncating remainder -1 seconds, and `padStart` leaves "-1" as it is. */
  lemma NegativeCountdown()
    ensures CountdownText(-1) == "-1:-1"
    ensures ParseCountdown(CountdownText(-1)) == None
  {
    assert FloorDiv(-1, 60) == -1 && JsRemainder(-1, 60) == -1;
    assert IntText(-1) == "-1";
  }
}
