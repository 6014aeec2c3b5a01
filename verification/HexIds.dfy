/** `Util::to_hex64_str` of src/Util.hpp and `Config::parse_hex_uint64` of src/Config.cpp: how node
    ids are printed and read. */
module HexIds {
  import opened Options
  import opened Arithmetic

  type U64 = n: nat | n < 0x1_0000_0000_0000_0000

  const WIDTH: nat := 16

  function Pow16(n: nat): (p: nat)
    ensures p > 0
  {
    if n == 0 then 1 else 16 * Pow16(n - 1)
  }

  function HexDigit(d: nat): char
    requires d < 16
  {
    if d < 10 then '0' + d as char else 'a' + (d - 10) as char
  }

  predicate IsHex(c: char) { '0' <= c <= '9' || 'a' <= c <= 'f' || 'A' <= c <= 'F' }

  function ToLower(c: char): char {
    if 'A' <= c <= 'Z' then c + 32 as char else c
  }

  function HexValue(c: char): (d: nat)
    requires IsHex(c)
    ensures d < 16
  {
    if c <= '9' then c as nat - '0' as nat
    else if c <= 'F' then c as nat - 'A' as nat + 10
    else c as nat - 'a' as nat + 10
  }

  predicate AllHex(s: string) { forall i :: 0 <= i < |s| ==> IsHex(s[i]) }

  function Lower(s: string): (r: string)
    ensures |r| == |s|
  {
    seq(|s|, i requires 0 <= i < |s| => ToLower(s[i]))
  }

  /** `std::hex`: the shortest numeral. */
  function Numeral(v: nat): string {
    if v < 16 then [HexDigit(v)] else Numeral(v / 16) + [HexDigit(v % 16)]
  }

  /** `setfill('0')` and `setw`. */
  function Pad(s: string, width: nat): string {
    if |s| >= width then s else seq(width - |s|, _ => '0') + s
  }

  function ToHex64(v: U64): string {
    "0x" + Pad(Numeral(v), WIDTH)
  }

  /** `std::stoull` in base 16, on digits only. */
  function Value(s: string): nat
    requires AllHex(s)
  {
    if s == [] then 0 else 16 * Value(s[..|s| - 1]) + HexValue(s[|s| - 1])
  }

  function StripPrefix(s: string): string {
    if |s| >= 2 && s[..2] == "0x" then s[2..] else s
  }

  /** What the parser accepts: a lower-case "0x" or nothing, then 16 hex digits of either case. */
  predicate Accepts(s: string) {
    |StripPrefix(s)| == WIDTH && AllHex(StripPrefix(s))
  }

  function Canonical(s: string): string { "0x" + Lower(StripPrefix(s)) }

  /** The id an input stands for, case aside. */
  function ParseHex(s: string): Option<U64> {
    if !Accepts(s) then None else
      ValueInRange(StripPrefix(s));
      Pow16Is64();
      Some(Value(StripPrefix(s)))
  }

  /** Writes `value` only when the input is accepted. */
  method ParseHexUint64(input: string, value: U64) returns (ok: bool, value': U64)
    ensures (if ok then Some(value') else None) == ParseHex(input)
    ensures !ok ==> value' == value
  {
    var hexInput := input;
    if |hexInput| >= 2 && hexInput[..2] == "0x" {
      hexInput := hexInput[2..];
    }
    LowerKeepsHex(hexInput);
    hexInput := Lower(hexInput);
    if |hexInput| != WIDTH || !AllHex(hexInput) {
      return false, value;
    }
    ValueInRange(hexInput);
    ValueOfLower(StripPrefix(input));
    Pow16Is64();
    return true, Value(hexInput);
  }

  lemma Pow16Is64()
    ensures Pow16(WIDTH) == 0x1_0000_0000_0000_0000
  {
    assert Pow16(4) == 0x1_0000;
    assert Pow16(8) == 0x1_0000_0000;
    assert Pow16(12) == 0x1_0000_0000_0000;
  }

  lemma LowerKeepsHex(s: string)
    ensures AllHex(Lower(s)) <==> AllHex(s)
    ensures AllHex(s) ==> IsLower(Lower(s))
  {
    assert forall i :: 0 <= i < |s| ==> (IsHex(Lower(s)[i]) <==> IsHex(s[i]));
  }

  lemma {:induction false} ValueOfLower(s: string)
    requires AllHex(s)
    ensures AllHex(Lower(s)) && Value(Lower(s)) == Value(s)
  {
    LowerKeepsHex(s);
    if s != [] {
      var rest := s[..|s| - 1];
      ValueOfLower(rest);
      assert Lower(s)[..|s| - 1] == Lower(rest);
    }
  }

  /** Hex digits, none of them upper-case. */
  predicate IsLower(s: string) { forall i :: 0 <= i < |s| ==> IsHex(s[i]) && !('A' <= s[i] <= 'F') }

  lemma {:induction false} ValueInRange(s: string)
    requires AllHex(s)
    ensures Value(s) < Pow16(|s|)
  {
    if s != [] {
      ValueInRange(s[..|s| - 1]);
    }
  }

  /** Leading zeros do not count. */
  lemma {:induction false} ValueOfPadded(zeros: nat, s: string)
    requires AllHex(s)
    ensures AllHex(seq(zeros, _ => '0') + s) && Value(seq(zeros, _ => '0') + s) == Value(s)
  {
    var z := seq(zeros, _ => '0');
    if s != [] {
      var rest := s[..|s| - 1];
      ValueOfPadded(zeros, rest);
      assert (z + s)[..|z + s| - 1] == z + rest;
    } else if zeros > 0 {
      ValueOfPadded(zeros - 1, []);
      var z' := seq(zeros - 1, _ => '0');
      assert (z + s)[..|z + s| - 1] == z' + [];
    }
  }

  lemma {:induction false} NumeralIsHex(v: nat, width: nat)
    requires v < Pow16(width) && width > 0
    ensures AllHex(Numeral(v)) && 1 <= |Numeral(v)| <= width && Value(Numeral(v)) == v
  {
    if v >= 16 {
      NumeralIsHex(v / 16, width - 1);
      var n := Numeral(v);
      assert n[..|n| - 1] == Numeral(v / 16);
    } else {
      assert [HexDigit(v)][..0] == [];
    }
  }

  /** Printing the value of lower-case digits gives the digits back. */
  lemma {:induction false} PrintUndoesValue(s: string)
    requires IsLower(s) && s != []
    ensures Pad(Numeral(Value(s)), |s|) == s
  {
    var rest, d := s[..|s| - 1], HexValue(s[|s| - 1]);
    assert HexDigit(d) == s[|s| - 1];
    assert s == rest + [s[|s| - 1]];
    if rest == [] {
      assert Value(rest) == 0;
    } else {
      PrintUndoesValue(rest);
      var v := Value(rest);
      assert Value(s) % 16 == d && Value(s) / 16 == v;
      hide Value, HexValue, IsLower;
      if v == 0 {
        assert Numeral(Value(s)) == [HexDigit(d)];
        assert Numeral(v) == ['0'];
        ZerosOnly(rest);
      } else {
        assert Numeral(Value(s)) == Numeral(v) + [HexDigit(d)];
        PadMore(Numeral(v), HexDigit(d), |rest|);
      }
    }
  }

  lemma PadMore(n: string, c: char, width: nat)
    ensures Pad(n + [c], width + 1) == Pad(n, width) + [c]
  {
  }

  lemma ZerosOnly(s: string)
    requires s != [] && Pad(['0'], |s|) == s
    ensures s == seq(|s|, _ => '0')
  {
  }

  /** Every id that is printed is read back. */
  lemma ReadBack(v: U64)
    ensures ParseHex(ToHex64(v)) == Some(v)
  {
    Pow16Is64();
    NumeralIsHex(v, WIDTH);
    var n := Numeral(v);
    ValueOfPadded(WIDTH - |n|, n);
    assert seq(0, _ => '0') + n == n;
    assert ToHex64(v)[..2] == "0x" && ToHex64(v)[2..] == Pad(n, WIDTH);
  }

  /** An input is read exactly if it is accepted, and what was read prints as its canonical form. */
  lemma PrintBack(s: string)
    ensures ParseHex(s).Some? <==> Accepts(s)
    ensures Accepts(s) ==> ToHex64(ParseHex(s).value) == Canonical(s)
  {
    if Accepts(s) {
      var digits := StripPrefix(s);
      LowerKeepsHex(digits);
      ValueOfLower(digits);
      PrintUndoesValue(Lower(digits));
    }
  }

  /** So two accepted inputs are the same id exactly if they have the same canonical form. */
  lemma SameIdIff(s: string, t: string)
    requires Accepts(s) && Accepts(t)
    ensures ParseHex(s) == ParseHex(t) <==> Canonical(s) == Canonical(t)
  {
    PrintBack(s);
    PrintBack(t);
    ReadBack(ParseHex(s).value);
    ReadBack(ParseHex(t).value);
  }

  // ---------------------------------------------------------------------------------------------
  // Digit by digit

  const LOWER: string := "0123456789abcdef"
  const UPPER: string := "0123456789ABCDEF"

  /** The hexadecimal digit of weight `16` to the power `k`. */
  function Nibble(v: nat, k: nat): (d: nat)
    ensures d < 16
  {
    v / Pow16(k) % 16
  }

  lemma NextNibble(v: nat, k: nat)
    requires k > 0
    ensures Nibble(v, k) == Nibble(v / 16, k - 1)
  {
    var p := Pow16(k - 1);
    var q, r := v / 16 / p, v / 16 % p;
    assert v == 16 * (p * q + r) + v % 16;
    SameQuotient(v, 16 * p, q, 16 * r + v % 16);
  }

  lemma HexDigitIs(d: nat)
    requires d < 16
    ensures HexDigit(d) == LOWER[d] && IsHex(LOWER[d])
  {
  }

  lemma HexValueIs(c: char)
    requires IsHex(c)
    ensures c == LOWER[HexValue(c)] || c == UPPER[HexValue(c)]
  {
  }

  /** A padded numeral ends in its last digit, after the padded numeral of the rest. */
  lemma PadLast(v: nat, width: nat)
    requires width > 0
    ensures |Numeral(v / 16)| <= width ==>
      Pad(Numeral(v), width + 1) == Pad(Numeral(v / 16), width) + [HexDigit(v % 16)]
  {
    if v < 16 {
      assert Numeral(v / 16) == ['0'];
    }
  }

  lemma PadOne(v: nat)
    requires v < Pow16(1)
    ensures Pad(Numeral(v), 1) == [HexDigit(v % 16)]
  {
    assert Pow16(0) == 1;
  }

  lemma LowestNibble(v: nat)
    ensures Nibble(v, 0) == v % 16
  {
    assert Pow16(0) == 1;
  }

  lemma {:induction false} PaddedNibble(v: nat, width: nat, i: nat)
    requires v < Pow16(width) && i < width
    ensures |Pad(Numeral(v), width)| == width && Pad(Numeral(v), width)[i] == LOWER[Nibble(v, width - 1 - i)]
    decreases width
  {
    hide Numeral, Pad, HexDigit, Nibble;
    HexDigitIs(v % 16);
    LowestNibble(v);
    if width == 1 {
      PadOne(v);
    } else {
      NumeralIsHex(v / 16, width - 1);
      PadLast(v, width - 1);
      if i < width - 1 {
        PaddedNibble(v / 16, width - 1, i);
        NextNibble(v, width - 1 - i);
      } else {
        PaddedNibble(v / 16, width - 1, 0);
      }
    }
  }

  /** An id is printed as "0x" and its sixteen hexadecimal digits, the most significant first. */
  lemma PrintedDigits(v: U64, i: nat)
    requires i < 16
    ensures |ToHex64(v)| == 18 && ToHex64(v)[..2] == "0x"
    ensures ToHex64(v)[2 + i] == "0123456789abcdef"[v / Pow16(15 - i) % 16]
  {
    Pow16Is64();
    PaddedNibble(v, 16, i);
  }

  lemma {:induction false} ValueNibble(s: string, i: nat)
    requires AllHex(s) && i < |s|
    ensures Nibble(Value(s), |s| - 1 - i) == HexValue(s[i])
  {
    var rest, d := s[..|s| - 1], HexValue(s[|s| - 1]);
    assert Value(s) == 16 * Value(rest) + d;
    if i == |s| - 1 {
      LowestNibble(Value(s));
    } else {
      ValueNibble(rest, i);
      NextNibble(Value(s), |s| - 1 - i);
      assert Value(s) / 16 == Value(rest);
    }
  }

  /** And read the same way: exactly inputs of sixteen digits are read, after a lower-case "0x" or
      not, and each digit, of either case, is the digit of the id at its place. */
  lemma ReadDigits(s: string)
    ensures var digits := if |s| >= 2 && s[..2] == "0x" then s[2..] else s;
      && (ParseHex(s).Some? <==> |digits| == 16 && forall i :: 0 <= i < 16 ==> digits[i] in LOWER || digits[i] in UPPER)
      && (ParseHex(s).Some? ==> forall i :: 0 <= i < 16 ==>
            var d := ParseHex(s).value / Pow16(15 - i) % 16;
            digits[i] == "0123456789abcdef"[d] || digits[i] == "0123456789ABCDEF"[d])
  {
    hide Value, IsHex;
    var digits := StripPrefix(s);
    forall i | 0 <= i < |digits| ensures IsHex(digits[i]) <==> digits[i] in LOWER || digits[i] in UPPER {
      HexIsListed(digits[i]);
    }
    if Accepts(s) {
      forall i | 0 <= i < 16
        ensures var d := ParseHex(s).value / Pow16(15 - i) % 16;
          digits[i] == "0123456789abcdef"[d] || digits[i] == "0123456789ABCDEF"[d]
      {
        ValueNibble(digits, i);
        HexValueIs(digits[i]);
        hide HexValue;
      }
    }
  }

  lemma HexIsListed(c: char)
    ensures IsHex(c) <==> c in LOWER || c in UPPER
  {
    if IsHex(c) {
      HexValueIs(c);
    }
    if c in LOWER {
      var d :| 0 <= d < 16 && LOWER[d] == c;
      HexDigitIs(d);
    }
    if c in UPPER {
      var d :| 0 <= d < 16 && UPPER[d] == c;
      assert IsHex(UPPER[d]);
    }
  }

  // ---------------------------------------------------------------------------------------------
  // Order

  /** `s` comes before `t` in a dictionary of strings of one length. */
  ghost predicate Before(s: string, t: string) {
    |s| == |t| && exists i :: 0 <= i < |s| && s[..i] == t[..i] && s[i] < t[i]
  }

  lemma HexDigitsAscend(c: char, d: char)
    requires IsHex(c) && IsHex(d) && !('A' <= c <= 'F') && !('A' <= d <= 'F')
    ensures c < d <==> HexValue(c) < HexValue(d)
  {
  }

  lemma BeforeByLast(s: string, t: string)
    requires |s| == |t| > 0
    ensures var n := |s| - 1;
      Before(s, t) <==> Before(s[..n], t[..n]) || (s[..n] == t[..n] && s[n] < t[n])
  {
    var n := |s| - 1;
    var s', t' := s[..n], t[..n];
    assert forall i :: 0 <= i <= n ==> s'[..i] == s[..i] && t'[..i] == t[..i];
    if Before(s', t') {
      var i :| 0 <= i < n && s'[..i] == t'[..i] && s'[i] < t'[i];
      assert s[..i] == t[..i] && s[i] < t[i];
    }
    if Before(s, t) {
      var i :| 0 <= i < |s| && s[..i] == t[..i] && s[i] < t[i];
      assert i < n ==> s'[..i] == t'[..i] && s'[i] < t'[i];
    }
  }

  lemma ByLastDigit(v: nat, d: nat, v': nat, d': nat)
    requires d < 16 && d' < 16
    ensures 16 * v + d < 16 * v' + d' <==> v < v' || (v == v' && d < d')
    ensures 16 * v + d == 16 * v' + d' <==> v == v' && d == d'
  {
  }

  /** The order of two strings of digits agrees with the order of their values. */
  ghost predicate Agrees(s: string, t: string) {
    && AllHex(s) && AllHex(t) && |s| == |t|
    && (Value(s) < Value(t) <==> Before(s, t))
    && (Value(s) == Value(t) <==> s == t)
  }

  lemma AgreesByLast(s: string, c: char, t: string, d: char)
    requires Agrees(s, t) && IsHex(c) && IsHex(d) && !('A' <= c <= 'F') && !('A' <= d <= 'F')
    ensures Agrees(s + [c], t + [d])
  {
    HexDigitsAscend(c, d);
    HexDigitsAscend(d, c);
    BeforeByLast(s + [c], t + [d]);
    assert (s + [c])[..|s|] == s && (t + [d])[..|t|] == t;
    assert Value(s + [c]) == 16 * Value(s) + HexValue(c) && Value(t + [d]) == 16 * Value(t) + HexValue(d);
    hide Before, HexValue, Value, IsHex;
    ByLastDigit(Value(s), HexValue(c), Value(t), HexValue(d));
    assert c < d || c == d || d < c;
  }

  lemma {:induction false} ValuesAscend(s: string, t: string)
    requires IsLower(s) && IsLower(t) && |s| == |t|
    ensures Agrees(s, t)
  {
    if s != [] {
      hide Agrees;
      var n := |s| - 1;
      ValuesAscend(s[..n], t[..n]);
      AgreesByLast(s[..n], s[n], t[..n], t[n]);
      assert s == s[..n] + [s[n]] && t == t[..n] + [t[n]];
    }
  }

  /** The order of ids is the dictionary order of their canonical forms. */
  lemma OrderIff(s: string, t: string)
    requires Accepts(s) && Accepts(t)
    ensures ParseHex(s).value < ParseHex(t).value <==> Before(Canonical(s), Canonical(t))
  {
    var a, b := Lower(StripPrefix(s)), Lower(StripPrefix(t));
    LowerKeepsHex(StripPrefix(s));
    LowerKeepsHex(StripPrefix(t));
    ValueOfLower(StripPrefix(s));
    ValueOfLower(StripPrefix(t));
    ValuesAscend(a, b);
    BehindPrefix(a, b);
  }

  lemma BehindPrefix(a: string, b: string)
    requires |a| == |b|
    ensures Before("0x" + a, "0x" + b) <==> Before(a, b)
  {
    var s, t := "0x" + a, "0x" + b;
    if Before(a, b) {
      var i :| 0 <= i < |a| && a[..i] == b[..i] && a[i] < b[i];
      assert s[..i + 2] == "0x" + a[..i] && t[..i + 2] == "0x" + b[..i] && s[i + 2] < t[i + 2];
    }
    if Before(s, t) {
      var i :| 0 <= i < |s| && s[..i] == t[..i] && s[i] < t[i];
      assert i >= 2;
      assert s[..i][2..] == a[..i - 2] && t[..i][2..] == b[..i - 2];
      assert a[..i - 2] == b[..i - 2] && a[i - 2] < b[i - 2];
    }
  }
}
