/** `Config::parse_duration` of src/Config.cpp: a three-mode scan that adds up hours, minutes and
    seconds into a 32-bit number of milliseconds. */
module Durations {
  import opened Options

  const INT_MIN: int := -0x8000_0000
  const INT_MAX: int := 0x7FFF_FFFF

  predicate InInt(v: int) { INT_MIN <= v <= INT_MAX }

  predicate IsDigit(c: char) { '0' <= c <= '9' }

  predicate IsSpace(c: char) { c == ' ' || 9 as char <= c <= 13 as char }

  predicate AllDigits(s: string) { forall i :: 0 <= i < |s| ==> IsDigit(s[i]) }

  function Decimal(s: string): nat
    requires AllDigits(s)
  {
    if s == [] then 0 else 10 * Decimal(s[..|s| - 1]) + (s[|s| - 1] as int - '0' as int)
  }

  function DigitPrefix(s: string): (d: string)
    ensures d <= s && AllDigits(d)
  {
    if s == [] || !IsDigit(s[0]) then [] else [s[0]] + DigitPrefix(s[1..])
  }

  /** `std::stoi`: leading space, a sign, digits; none if it throws, for want of a digit or because
      the number is out of range. */
  function Stoi(s: string): Option<int> {
    if s != [] && IsSpace(s[0]) then Stoi(s[1..]) else
      var signed := s != [] && s[0] in {'+', '-'};
      var digits := DigitPrefix(if signed then s[1..] else s);
      if digits == [] then None else
        var v: int := if signed && s[0] == '-' then 0 - Decimal(digits) else Decimal(digits);
        if InInt(v) then Some(v) else None
  }

  /** Parsed and rejected inputs; inputs on which `stoi` throws; and inputs on which a signed
      operation overflows, which is undefined. */
  datatype Failure = Rejected | Threw | Undefined

  datatype Outcome = Parsed(ms: int) | Failed(why: Failure)

  datatype Mode = Start | Digit

  datatype State = Running(mode: Mode, buffer: string, res: int) | Stopped(why: Failure)

  predicate IsUnit(c: char) { c in {'h', 'm', 's'} }

  function Factor(unit: char): nat
    requires IsUnit(unit)
  {
    if unit == 'h' then 60 * 60 * 1000 else if unit == 'm' then 60 * 1000 else 1000
  }

  function Complete(buffer: string, res: int, unit: char): State
    requires IsUnit(unit)
  {
    match Stoi(buffer)
    case None => Stopped(Threw)
    case Some(n) =>
      if InInt(n * Factor(unit)) && InInt(res + n * Factor(unit)) then Running(Digit, [], res + n * Factor(unit))
      else Stopped(Undefined)
  }

  /** One character. A bad first character is only logged. */
  function Next(s: State, c: char, allowNegative: bool): State {
    if s.Stopped? then s
    else match s.mode
      case Start => if c == '-' && !allowNegative then Stopped(Rejected) else Running(Digit, s.buffer + [c], s.res)
      case Digit =>
        if IsDigit(c) then Running(Digit, s.buffer + [c], s.res)
        else if s.buffer == [] then Stopped(Rejected)
        else if IsUnit(c) then Complete(s.buffer, s.res, c)
        else Stopped(Rejected)
  }

  function After(input: string, allowNegative: bool): State {
    if input == [] then Running(Start, [], 0)
    else Next(After(input[..|input| - 1], allowNegative), input[|input| - 1], allowNegative)
  }

  function Parse(input: string, allowNegative: bool): Outcome {
    var s := After(input, allowNegative);
    if s.Stopped? then Failed(s.why) else Parsed(s.res)
  }

  /** The loop of the code; `ms` is written only when the input is parsed. */
  method ParseDuration(input: string, allowNegative: bool, ms: int) returns (outcome: Outcome, ms': int)
    ensures outcome == Parse(input, allowNegative)
    ensures ms' == if outcome.Parsed? then outcome.ms else ms
  {
    var mode, buffer, res := Start, [], 0;
    ms' := ms;
    for i := 0 to |input|
      invariant After(input[..i], allowNegative) == Running(mode, buffer, res)
    {
      var c := input[i];
      assert input[..i + 1][..i] == input[..i];
      ghost var s := After(input[..i + 1], allowNegative);
      StopsForGood(input, i + 1, allowNegative);
      if mode == Start {
        if c == '-' && !allowNegative { return Failed(Rejected), ms; }
        buffer := buffer + [c];
        mode := Digit;
      } else if IsDigit(c) {
        buffer := buffer + [c];
      } else {
        if buffer == [] { return Failed(Rejected), ms; }
        if c == 'h' || c == 'm' || c == 's' {
          var n := Stoi(buffer);
          if n.None? { return Failed(Threw), ms; }
          var term := n.value * Factor(c);
          if !InInt(term) || !InInt(res + term) { return Failed(Undefined), ms; }
          res := res + term;
          buffer := [];
        } else {
          return Failed(Rejected), ms;
        }
      }
    }
    assert input[..|input|] == input;
    return Parsed(res), res;
  }

  lemma {:induction false} StopsForGood(input: string, i: nat, allowNegative: bool)
    requires i <= |input|
    ensures After(input[..i], allowNegative).Stopped? ==>
      After(input, allowNegative) == After(input[..i], allowNegative)
    decreases |input| - i
  {
    if i < |input| {
      assert input[..i + 1][..i] == input[..i];
      StopsForGood(input, i + 1, allowNegative);
    } else {
      assert input[..i] == input;
    }
  }

  // ---------------------------------------------------------------------------------------------
  // The language of durations

  datatype Term = Term(digits: string, unit: char)

  predicate IsTerm(t: Term) { t.digits != [] && AllDigits(t.digits) && IsUnit(t.unit) }

  predicate AreTerms(ts: seq<Term>) { forall i :: 0 <= i < |ts| ==> IsTerm(ts[i]) }

  function Text(ts: seq<Term>): string {
    if ts == [] then [] else Text(ts[..|ts| - 1]) + ts[|ts| - 1].digits + [ts[|ts| - 1].unit]
  }

  function Total(ts: seq<Term>): nat
    requires AreTerms(ts)
  {
    if ts == [] then 0 else
      var t := ts[|ts| - 1];
      Total(ts[..|ts| - 1]) + Decimal(t.digits) * Factor(t.unit)
  }

  /** `input` is the terms `ts`, then digits still waiting for a unit. */
  predicate Spells(input: string, ts: seq<Term>, tail: string) {
    AreTerms(ts) && AllDigits(tail) && input == Text(ts) + tail
  }

  /** Digits alone are their decimal value, if that is in range. */
  lemma StoiOfDigits(s: string)
    requires s != [] && AllDigits(s)
    ensures Stoi(s) == if Decimal(s) <= INT_MAX then Some(Decimal(s)) else None
  {
    AllOfIt(s);
  }

  lemma {:induction false} AllOfIt(s: string)
    requires AllDigits(s)
    ensures DigitPrefix(s) == s
  {
    if s != [] {
      AllOfIt(s[1..]);
    }
  }

  lemma OneMore(input: string, c: char, allowNegative: bool)
    ensures After(input + [c], allowNegative) == Next(After(input, allowNegative), c, allowNegative)
  {
    assert (input + [c])[..|input|] == input;
  }

  /** A term is completed: its digits are waiting, its unit arrives. */
  lemma UnitArrives(digits: string, res: nat, unit: char)
    requires digits != [] && AllDigits(digits) && IsUnit(unit)
    ensures Next(Running(Digit, digits, res), unit, false).Running? <==> res + Decimal(digits) * Factor(unit) <= INT_MAX
    ensures res + Decimal(digits) * Factor(unit) <= INT_MAX ==>
      Next(Running(Digit, digits, res), unit, false) == Running(Digit, [], res + Decimal(digits) * Factor(unit))
  {
    StoiOfDigits(digits);
    LongEnough(Decimal(digits), Factor(unit));
  }

  /** A well-formed input whose terms fit is scanned to its end: the terms are added up, and the
      digits after them wait in the buffer. */
  lemma {:induction false} ScanForth(ts: seq<Term>, tail: string)
    requires AreTerms(ts) && AllDigits(tail) && Total(ts) <= INT_MAX
    ensures After(Text(ts) + tail, false)
         == if ts == [] && tail == [] then Running(Start, [], 0) else Running(Digit, tail, Total(ts))
    decreases |ts|, |tail|
  {
    hide After, Complete, Stoi, Decimal;
    if tail != [] {
      var tail', c := tail[..|tail| - 1], tail[|tail| - 1];
      ScanForth(ts, tail');
      OneMore(Text(ts) + tail', c, false);
      assert tail == tail' + [c] && Text(ts) + tail == (Text(ts) + tail') + [c];
    } else if ts != [] {
      var rest, t := ts[..|ts| - 1], ts[|ts| - 1];
      assert IsTerm(t) && AreTerms(rest);
      ScanForth(rest, t.digits);
      OneMore(Text(rest) + t.digits, t.unit, false);
      UnitArrives(t.digits, Total(rest), t.unit);
      assert Text(ts) + [] == (Text(rest) + t.digits) + [t.unit];
    } else {
      AfterNothing(false);
      assert Text(ts) + tail == [];
    }
  }

  lemma NoTerms()
    ensures Text([]) == [] && Total([]) == 0
  {
  }

  lemma AfterNothing(allowNegative: bool)
    ensures After([], allowNegative) == Running(Start, [], 0)
  {
  }

  lemma LongEnough(n: nat, f: nat)
    requires f > 0
    ensures n <= n * f
  {
  }

  /** An input that starts with a digit and is scanned to its end is well formed, and its terms
      fit. */
  lemma {:induction false} ScanBack(input: string) returns (ts: seq<Term>, tail: string)
    requires input == [] || IsDigit(input[0])
    requires After(input, false).Running?
    ensures Spells(input, ts, tail) && Total(ts) <= INT_MAX
    ensures After(input, false) == Running(if input == [] then Start else Digit, tail, Total(ts))
  {
    NoTerms();
    hide After, Complete, Stoi, Decimal, Text, Total;
    if input == [] {
      ts, tail := [], [];
      AfterNothing(false);
    } else {
      var before, c := input[..|input| - 1], input[|input| - 1];
      assert input == before + [c];
      OneMore(before, c, false);
      ts, tail := ScanBack(before);
      if IsDigit(c) {
        assert input == Text(ts) + (tail + [c]);
        tail := tail + [c];
      } else {
        UnitArrives(tail, Total(ts), c);
        Completes(ts, tail, c);
        ts, tail := ts + [Term(tail, c)], [];
        assert input == Text(ts) + [];
      }
    }
  }

  lemma Completes(ts: seq<Term>, digits: string, unit: char)
    requires AreTerms(ts) && digits != [] && AllDigits(digits) && IsUnit(unit)
    ensures var us := ts + [Term(digits, unit)];
      AreTerms(us) && Text(us) == Text(ts) + digits + [unit] && Total(us) == Total(ts) + Decimal(digits) * Factor(unit)
  {
    assert (ts + [Term(digits, unit)])[..|ts|] == ts;
  }

  /** For inputs that start with a digit, or are empty: parsing succeeds with `v` if and only if
      the input is terms (digits and a unit) and then perhaps more digits, the terms add up to `v`,
      and `v` fits. The unfinished digits add nothing, and nothing overflows on the way. */
  lemma ParsesIff(input: string, v: int)
    requires input == [] || IsDigit(input[0])
    ensures Parse(input, false) == Parsed(v)
       <==> v <= INT_MAX && exists ts, tail :: Spells(input, ts, tail) && Total(ts) == v
  {
    if Parse(input, false) == Parsed(v) {
      var ts, tail := ScanBack(input);
      assert Spells(input, ts, tail) && Total(ts) == v;
    }
    if v <= INT_MAX && exists ts, tail :: Spells(input, ts, tail) && Total(ts) == v {
      var ts, tail :| Spells(input, ts, tail) && Total(ts) == v;
      ScanForth(ts, tail);
    }
  }

  lemma {:induction false} TextAppend(ts: seq<Term>, us: seq<Term>)
    requires AreTerms(ts) && AreTerms(us)
    ensures Text(ts + us) == Text(ts) + Text(us) && Total(ts + us) == Total(ts) + Total(us)
  {
    if us == [] {
      assert ts + us == ts;
    } else {
      var rest := us[..|us| - 1];
      assert (ts + us)[..|ts + us| - 1] == ts + rest;
      TextAppend(ts, rest);
    }
  }

  lemma EndsInDigit(ts: seq<Term>, tail: string)
    requires tail != [] && AllDigits(tail)
    ensures var a := Text(ts) + tail; a != [] && IsDigit(a[|a| - 1])
  {
  }

  /** An input that ends in a unit leaves no tail. */
  lemma ScanTerms(a: string) returns (ts: seq<Term>)
    requires a != [] && IsDigit(a[0]) && !IsDigit(a[|a| - 1]) && After(a, false).Running?
    ensures AreTerms(ts) && a == Text(ts) && After(a, false).res == Total(ts)
  {
    hide After, Total, Decimal, Text;
    var tail;
    ts, tail := ScanBack(a);
    if tail != [] {
      EndsInDigit(ts, tail);
    }
  }

  /** Durations add up: a complete one, ending in a unit, followed by any other, is their sum,
      whenever the sum fits. */
  lemma ConcatenationAdds(a: string, b: string, x: int, y: int)
    requires a != [] && IsDigit(a[0]) && !IsDigit(a[|a| - 1]) && (b == [] || IsDigit(b[0]))
    requires Parse(a, false) == Parsed(x) && Parse(b, false) == Parsed(y) && x + y <= INT_MAX
    ensures Parse(a + b, false) == Parsed(x + y)
  {
    hide After, Total, Decimal, Text;
    var ts := ScanTerms(a);
    var us, rest := ScanBack(b);
    TextAppend(ts, us);
    assert a + b == Text(ts + us) + rest;
    ScanForth(ts + us, rest);
  }

  // ---------------------------------------------------------------------------------------------
  // Inputs that start badly

  /** What `stoi` skips before a number. */
  predicate IsSkipped(c: char) { c in {'+', ' ', '\t', '\n', 11 as char, 12 as char, '\r'} }

  lemma StoiSkips(c: char, digits: string)
    requires AllDigits(digits) && !IsDigit(c) && c != '-'
    ensures Stoi([c] + digits) == if IsSkipped(c) && digits != [] then Stoi(digits) else None
  {
    hide Decimal;
    var s := [c] + digits;
    assert s[0] == c && s[1..] == digits;
    if digits == [] {
      assert s == [c];
      assert DigitPrefix(s) == [] && DigitPrefix([]) == [] && Stoi([]) == None;
    } else if IsSpace(c) {
      assert Stoi(s) == Stoi(digits);
    } else {
      AllOfIt(digits);
      assert DigitPrefix(s) == [];
    }
  }

  /** The scan after a bad first character: it waits with the digits; the first unit either throws
      or, if `stoi` skips the character, makes it forgotten. */
  lemma {:induction false} ScanBadStart(c: char, rest: string)
    requires !IsDigit(c) && c != '-'
    ensures AllDigits(rest) ==> After([c] + rest, false) == Running(Digit, [c] + rest, 0)
    ensures !AllDigits(rest) ==>
      if IsSkipped(c) && IsDigit(rest[0]) then After([c] + rest, false) == After(rest, false)
      else After([c] + rest, false).Stopped?
  {
    hide After, Stoi, Decimal;
    AfterNothing(false);
    if rest == [] {
      OneMore([], c, false);
      assert [] + [c] == [c] && [c] + rest == [c];
    } else {
      var before, d := rest[..|rest| - 1], rest[|rest| - 1];
      assert rest == before + [d] && [c] + rest == ([c] + before) + [d];
      ScanBadStart(c, before);
      OneMore([c] + before, d, false);
      OneMore(before, d, false);
      if AllDigits(before) && !IsDigit(d) {
        StoiSkips(c, before);
        ScanForth([], before);
        assert Text([]) + before == before;
      } else if AllDigits(before) {
        assert ([c] + before) + [d] == [c] + rest;
      }
    }
  }

  /** A bad first character other than '-' is reported but not refused. The parse succeeds exactly
      if nothing but digits follows, and then yields 0, or if `stoi` skips the character and what
      follows starts with a digit and parses. */
  lemma BadStartParsesIff(c: char, rest: string, v: int)
    requires !IsDigit(c) && c != '-'
    ensures Parse([c] + rest, false) == Parsed(v) <==> (
      || (AllDigits(rest) && v == 0)
      || (IsSkipped(c) && rest != [] && IsDigit(rest[0]) && Parse(rest, false) == Parsed(v)))
  {
    hide After;
    ScanBadStart(c, rest);
    if AllDigits(rest) {
      AfterNothing(false);
      ScanForth([], rest);
      assert Text([]) + rest == rest;
    }
  }
}
