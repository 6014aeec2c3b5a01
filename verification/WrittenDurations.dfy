/** What the durations people write are worth in milliseconds, and why an input is refused: the
    numbers are decimal numerals, the units 3600000, 60000 and 1000. */
module WrittenDurations {
  import opened Options
  import opened Durations

  const DIGITS: string := "0123456789"

  /** The shortest decimal numeral. */
  function Numeral(n: nat): string {
    if n < 10 then [DIGITS[n]] else Numeral(n / 10) + [DIGITS[n % 10]]
  }

  /** A number, written with any number of zeros in front, and its unit. */
  datatype Amount = Amount(zeros: nat, n: nat, unit: char)

  function Digits(t: Amount): string {
    seq(t.zeros, _ => '0') + Numeral(t.n)
  }

  function Written(ts: seq<Amount>): string {
    if ts == [] then [] else Written(ts[..|ts| - 1]) + Digits(ts[|ts| - 1]) + [ts[|ts| - 1].unit]
  }

  predicate HaveUnits(ts: seq<Amount>) {
    forall i :: 0 <= i < |ts| ==> ts[i].unit == 'h' || ts[i].unit == 'm' || ts[i].unit == 's'
  }

  function Milliseconds(t: Amount): nat {
    if t.unit == 'h' then 3600000 * t.n else if t.unit == 'm' then 60000 * t.n else 1000 * t.n
  }

  function InAll(ts: seq<Amount>): nat {
    if ts == [] then 0 else InAll(ts[..|ts| - 1]) + Milliseconds(ts[|ts| - 1])
  }

  // ---------------------------------------------------------------------------------------------
  // Numerals

  lemma DigitIs(d: nat)
    requires d < 10
    ensures IsDigit(DIGITS[d]) && DIGITS[d] as int - '0' as int == d
  {
  }

  lemma {:induction false} NumeralIsDecimal(n: nat)
    ensures Numeral(n) != [] && AllDigits(Numeral(n)) && Decimal(Numeral(n)) == n
  {
    var c, rest := DIGITS[n % 10], if n < 10 then [] else Numeral(n / 10);
    DigitIs(n % 10);
    assert Numeral(n) == rest + [c];
    if n >= 10 {
      NumeralIsDecimal(n / 10);
    }
    hide Numeral;
    assert (rest + [c])[..|rest|] == rest;
  }

  lemma {:induction false} ZerosCountNothing(zeros: nat, s: string)
    requires AllDigits(s)
    ensures AllDigits(seq(zeros, _ => '0') + s) && Decimal(seq(zeros, _ => '0') + s) == Decimal(s)
  {
    var z := seq(zeros, _ => '0');
    if s != [] {
      var rest := s[..|s| - 1];
      ZerosCountNothing(zeros, rest);
      assert (z + s)[..|z + s| - 1] == z + rest;
    } else if zeros > 0 {
      ZerosCountNothing(zeros - 1, []);
      var z' := seq(zeros - 1, _ => '0');
      assert (z + s)[..|z + s| - 1] == z' + [];
    }
  }

  lemma DigitsAreDecimal(t: Amount)
    ensures Digits(t) != [] && AllDigits(Digits(t)) && Decimal(Digits(t)) == t.n
  {
    NumeralIsDecimal(t.n);
    ZerosCountNothing(t.zeros, Numeral(t.n));
  }

  // ---------------------------------------------------------------------------------------------
  // Scanning

  /** Digits wait in the buffer, behind whatever waits there. */
  lemma {:induction false} DigitsWait(input: string, buffer: string, res: int, digits: string, allowNegative: bool)
    requires After(input, allowNegative) == Running(Digit, buffer, res) && AllDigits(digits)
    ensures After(input + digits, allowNegative) == Running(Digit, buffer + digits, res)
  {
    hide After;
    if digits == [] {
      assert input + digits == input && buffer + digits == buffer;
    } else {
      var before, c := digits[..|digits| - 1], digits[|digits| - 1];
      DigitsWait(input, buffer, res, before, allowNegative);
      OneMore(input + before, c, allowNegative);
      assert input + digits == (input + before) + [c] && buffer + digits == (buffer + before) + [c];
    }
  }

  /** The very first digits, which start a scan. */
  lemma DigitsStart(digits: string, allowNegative: bool)
    requires digits != [] && AllDigits(digits)
    ensures After(digits, allowNegative) == Running(Digit, digits, 0)
  {
    var c := digits[..1];
    assert After([], allowNegative) == Running(Start, [], 0);
    OneMore([], digits[0], allowNegative);
    assert [] + [digits[0]] == c;
    DigitsWait(c, c, 0, digits[1..], allowNegative);
    assert c + digits[1..] == digits;
  }

  /** Why a unit after `digits` is not taken in. */
  function Refusal(n: nat): Failure {
    if n > INT_MAX then Threw else Undefined
  }

  /** What becomes of a sum when an amount is added. */
  function TakenIn(res: int, t: Amount): State {
    var ms := Milliseconds(t);
    if ms <= INT_MAX && res + ms <= INT_MAX then Running(Digit, [], res + ms) else Stopped(Refusal(t.n))
  }

  lemma UnitCompletes(t: Amount, digits: string, res: int, allowNegative: bool)
    requires digits != [] && AllDigits(digits) && Decimal(digits) == t.n && HaveUnits([t]) && INT_MIN <= res
    ensures Next(Running(Digit, digits, res), t.unit, allowNegative)
         == TakenIn(res, t)
  {
    WorthIs(t);
    StoiOfDigits(digits);
    hide Factor, Milliseconds, Stoi, Decimal, HaveUnits;
    assert Next(Running(Digit, digits, res), t.unit, allowNegative) == Complete(digits, res, t.unit);
  }

  lemma WorthIs(t: Amount)
    requires HaveUnits([t])
    ensures IsUnit(t.unit) && !IsDigit(t.unit) && t.n <= Milliseconds(t) == t.n * Factor(t.unit)
  {
    assert [t][0] == t;
  }

  /** The state a scan is in between amounts. */
  function Between(ts: seq<Amount>): State {
    if ts == [] then Running(Start, [], 0) else Running(Digit, [], InAll(ts))
  }

  lemma OneAmount(input: string, s: State, t: Amount, allowNegative: bool)
    requires After(input, allowNegative) == s && s.Running? && s.buffer == []
    requires s.mode == Start ==> input == [] && s.res == 0
    requires HaveUnits([t]) && INT_MIN <= s.res
    ensures After(input + Digits(t) + [t.unit], allowNegative)
         == TakenIn(s.res, t)
  {
    hide After, Next, Decimal, Milliseconds, Digits;
    DigitsAreDecimal(t);
    if s.mode == Start {
      DigitsStart(Digits(t), allowNegative);
      assert input + Digits(t) == Digits(t);
    } else {
      DigitsWait(input, [], s.res, Digits(t), allowNegative);
      assert [] + Digits(t) == Digits(t);
    }
    OneMore(input + Digits(t), t.unit, allowNegative);
    UnitCompletes(t, Digits(t), s.res, allowNegative);
  }

  lemma {:induction false} WrittenScans(ts: seq<Amount>, allowNegative: bool)
    requires HaveUnits(ts) && InAll(ts) <= INT_MAX
    ensures After(Written(ts), allowNegative) == Between(ts)
  {
    hide After, Milliseconds, Digits;
    if ts == [] {
      assert After([], allowNegative) == Running(Start, [], 0) by { AfterNothing(allowNegative); }
    } else {
      var rest, t := ts[..|ts| - 1], ts[|ts| - 1];
      WrittenScans(rest, allowNegative);
      OneAmount(Written(rest), Between(rest), t, allowNegative);
    }
  }

  // ---------------------------------------------------------------------------------------------
  // Values

  /** The amount at which the sum stops fitting. */
  predicate BreaksAt(ts: seq<Amount>, i: nat) {
    i < |ts| && InAll(ts[..i]) <= 0x7FFF_FFFF < InAll(ts[..i + 1])
  }

  /** Any amounts, in any order and number, whether or not a minus would be allowed: their sum in
      milliseconds if it fits. If not, the first amount that does not fit stops the parse: `stoi`
      throws if its number alone is out of range, and otherwise a product or sum overflows. */
  lemma AmountsAddUp(ts: seq<Amount>, allowNegative: bool)
    requires HaveUnits(ts)
    ensures InAll(ts) <= 0x7FFF_FFFF ==> Parse(Written(ts), allowNegative) == Parsed(InAll(ts))
    ensures InAll(ts) > 0x7FFF_FFFF ==>
      exists i: nat :: BreaksAt(ts, i)
        && Parse(Written(ts), allowNegative) == Failed(if ts[i].n > 0x7FFF_FFFF then Threw else Undefined)
  {
    hide After, InAll, Written;
    if InAll(ts) <= INT_MAX {
      WrittenScans(ts, allowNegative);
      assert ts == [] ==> InAll(ts) == 0 by { NothingWritten(); }
    } else {
      var i := TooMuch(ts, allowNegative);
    }
  }

  lemma NothingWritten()
    ensures Written([]) == [] && InAll([]) == 0
  {
  }

  lemma LastAmount(ts: seq<Amount>)
    requires ts != []
    ensures var rest, t := ts[..|ts| - 1], ts[|ts| - 1];
      Written(ts) == Written(rest) + Digits(t) + [t.unit] && InAll(ts) == InAll(rest) + Milliseconds(t)
  {
  }

  lemma {:induction false} TooMuch(ts: seq<Amount>, allowNegative: bool) returns (i: nat)
    requires HaveUnits(ts) && InAll(ts) > INT_MAX
    ensures BreaksAt(ts, i) && After(Written(ts), allowNegative) == Stopped(Refusal(ts[i].n))
  {
    hide After, Milliseconds, Digits, Written, InAll;
    NothingWritten();
    var rest, t := ts[..|ts| - 1], ts[|ts| - 1];
    LastAmount(ts);
    if InAll(rest) <= INT_MAX {
      i := |rest|;
      assert ts[..i] == rest && ts[..i + 1] == ts;
      WrittenScans(rest, allowNegative);
      OneAmount(Written(rest), Between(rest), t, allowNegative);
    } else {
      i := TooMuch(rest, allowNegative);
      assert ts[..i] == rest[..i] && ts[..i + 1] == rest[..i + 1];
      StaysStopped(Written(rest), Digits(t) + [t.unit], allowNegative);
      assert Written(rest) + (Digits(t) + [t.unit]) == Written(ts);
    }
  }

  lemma StaysStopped(input: string, rest: string, allowNegative: bool)
    requires After(input, allowNegative).Stopped?
    ensures After(input + rest, allowNegative) == After(input, allowNegative)
  {
    StopsForGood(input + rest, |input|, allowNegative);
    assert (input + rest)[..|input|] == input;
  }

  /** Hours, minutes and seconds. */
  lemma HoursMinutesSeconds(h: nat, m: nat, s: nat)
    ensures var outcome := Parse(Numeral(h) + "h" + Numeral(m) + "m" + Numeral(s) + "s", false);
      var ms := 3600000 * h + 60000 * m + 1000 * s;
      if ms <= 0x7FFF_FFFF then outcome == Parsed(ms) else outcome == Failed(Threw) || outcome == Failed(Undefined)
  {
    hide Written, InAll, Numeral, Digits, Parse, Milliseconds;
    NothingWritten();
    assert Milliseconds(Amount(0, h, 'h')) == 3600000 * h && Milliseconds(Amount(0, m, 'm')) == 60000 * m
        && Milliseconds(Amount(0, s, 's')) == 1000 * s by { Weights(h, m, s); }
    var one, two, three := [Amount(0, h, 'h')], [Amount(0, h, 'h'), Amount(0, m, 'm')],
                           [Amount(0, h, 'h'), Amount(0, m, 'm'), Amount(0, s, 's')];
    OneMoreAmount([], one[0]);
    OneMoreAmount(one, two[1]);
    OneMoreAmount(two, three[2]);
    assert [] + one == one && one + [two[1]] == two && two + [three[2]] == three;
    assert [] + Numeral(h) == Numeral(h);
    assert Written(three) == Numeral(h) + "h" + Numeral(m) + "m" + Numeral(s) + "s";
    hide HaveUnits;
    assert HaveUnits(three) by { AllThree(three); }
    AmountsAddUp(three, false);
  }

  lemma AllThree(ts: seq<Amount>)
    requires |ts| == 3 && ts[0].unit == 'h' && ts[1].unit == 'm' && ts[2].unit == 's'
    ensures HaveUnits(ts)
  {
  }

  lemma Weights(h: nat, m: nat, s: nat)
    ensures Milliseconds(Amount(0, h, 'h')) == 3600000 * h && Milliseconds(Amount(0, m, 'm')) == 60000 * m
    ensures Milliseconds(Amount(0, s, 's')) == 1000 * s
  {
  }

  lemma OneMoreAmount(ts: seq<Amount>, t: Amount)
    requires t.zeros == 0
    ensures Written(ts + [t]) == Written(ts) + Numeral(t.n) + [t.unit]
    ensures InAll(ts + [t]) == InAll(ts) + Milliseconds(t)
  {
    hide Numeral, Milliseconds;
    assert (ts + [t])[..|ts|] == ts;
    assert Digits(t) == Numeral(t.n);
  }

  /** Where a minus is allowed, it negates the first amount only. */
  lemma {:induction false} MinusNegatesTheFirst(t: Amount, ts: seq<Amount>)
    requires HaveUnits([t]) && HaveUnits(ts)
    requires Milliseconds(t) <= 0x8000_0000 && InAll(ts) - Milliseconds(t) <= 0x7FFF_FFFF
    requires forall i :: 0 <= i < |ts| ==> Milliseconds(ts[i]) <= 0x7FFF_FFFF
    ensures After("-" + Digits(t) + [t.unit] + Written(ts), true) == Running(Digit, [], InAll(ts) - Milliseconds(t))
    ensures Parse("-" + Digits(t) + [t.unit] + Written(ts), true) == Parsed(InAll(ts) - Milliseconds(t))
  {
    hide After, Milliseconds, Digits;
    var head := "-" + Digits(t) + [t.unit];
    if ts == [] {
      NegativeAmount(t);
      assert head + [] == head;
    } else {
      var rest, u := ts[..|ts| - 1], ts[|ts| - 1];
      MinusNegatesTheFirst(t, rest);
      OneAmount(head + Written(rest), Running(Digit, [], InAll(rest) - Milliseconds(t)), u, true);
      assert head + Written(ts) == (head + Written(rest)) + Digits(u) + [u.unit];
    }
  }

  lemma NegativeAmount(t: Amount)
    requires HaveUnits([t]) && Milliseconds(t) <= 0x8000_0000
    ensures After("-" + Digits(t) + [t.unit], true) == Running(Digit, [], 0 - Milliseconds(t))
  {
    assert [t][0] == t;
    AfterNothing(true);
    OneMore([], '-', true);
    assert [] + ['-'] == "-";
    DigitsAreDecimal(t);
    hide Digits, Decimal, After, Next, Milliseconds;
    var d := Digits(t);
    DigitsWait("-", "-", 0, d, true);
    OneMore("-" + d, t.unit, true);
    MinusCompletes(t, d);
  }

  lemma MinusCompletes(t: Amount, digits: string)
    requires digits != [] && AllDigits(digits) && Decimal(digits) == t.n
    requires HaveUnits([t]) && Milliseconds(t) <= 0x8000_0000
    ensures Next(Running(Digit, "-" + digits, 0), t.unit, true) == Running(Digit, [], 0 - Milliseconds(t))
  {
    WorthIs(t);
    StoiOfMinus(digits);
    hide Factor, Milliseconds, Stoi, Decimal, HaveUnits;
    assert Next(Running(Digit, "-" + digits, 0), t.unit, true) == Complete("-" + digits, 0, t.unit);
    Opposite(t.n, Factor(t.unit));
  }

  lemma Opposite(n: nat, f: nat)
    ensures (0 - n) * f == 0 - n * f
  {
  }

  lemma StoiOfMinus(digits: string)
    requires digits != [] && AllDigits(digits)
    ensures Stoi("-" + digits) == if Decimal(digits) <= 0x8000_0000 then Some(0 - Decimal(digits)) else None
  {
    hide Decimal;
    var s := "-" + digits;
    assert s[0] == '-' && s[1..] == digits;
    AllOfIt(digits);
  }

  // ---------------------------------------------------------------------------------------------
  // Refusals

  /** A character that is no digit, where no unit may stand or that is no unit, is rejected,
      whatever follows. */
  lemma StrayIsRejected(ts: seq<Amount>, digits: string, c: char, rest: string)
    requires HaveUnits(ts) && InAll(ts) <= 0x7FFF_FFFF && AllDigits(digits) && (ts != [] || digits != [])
    requires !('0' <= c <= '9') && (digits == [] || (c != 'h' && c != 'm' && c != 's'))
    ensures Parse(Written(ts) + digits + [c] + rest, false) == Failed(Rejected)
  {
    hide After;
    WrittenScans(ts, false);
    if ts == [] {
      DigitsStart(digits, false);
      assert Written(ts) + digits == digits;
    } else {
      DigitsWait(Written(ts), [], InAll(ts), digits, false);
      assert [] + digits == digits;
    }
    OneMore(Written(ts) + digits, c, false);
    StaysStopped(Written(ts) + digits + [c], rest, false);
  }

  lemma MinusIsRejected(rest: string)
    ensures Parse("-" + rest, false) == Failed(Rejected)
  {
    hide After;
    AfterNothing(false);
    OneMore([], '-', false);
    assert [] + ['-'] == "-";
    StaysStopped("-", rest, false);
  }
}
