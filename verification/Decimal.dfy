/** Decimal numbers as the C++ library writes and reads them: `std::to_string` and `std::stoi`. */
module Decimal {
  import opened Options

  const INT_MIN := -0x8000_0000
  const INT_MAX := 0x7FFF_FFFF

  type Int32 = x: int | INT_MIN <= x <= INT_MAX

  predicate IsDigit(c: char) { '0' <= c <= '9' }

  predicate IsSpace(c: char) { c == ' ' || '\t' <= c <= '\r' }

  predicate AllDigits(s: string) { forall i :: 0 <= i < |s| ==> IsDigit(s[i]) }

  function DigitChar(d: nat): char
    requires d < 10
  {
    '0' + d as char
  }

  function Digits(n: nat): (s: string)
    ensures s != [] && AllDigits(s)
  {
    if n < 10 then [DigitChar(n)] else Digits(n / 10) + [DigitChar(n % 10)]
  }

  /** `std::to_string`. */
  function ToString(n: int): string {
    if n < 0 then "-" + Digits(-n) else Digits(n)
  }

  /** The number a string of digits stands for. */
  function Value(s: string): nat
    requires AllDigits(s)
  {
    if s == [] then 0 else Value(s[..|s| - 1]) * 10 + (s[|s| - 1] as int - '0' as int)
  }

  /** How many digits the string starts with. */
  function DigitRun(s: string): (k: nat)
    ensures k <= |s| && AllDigits(s[..k])
    ensures k < |s| ==> !IsDigit(s[k])
  {
    if s == [] || !IsDigit(s[0]) then 0
    else
      assert s[..1 + DigitRun(s[1..])] == [s[0]] + s[1..][..DigitRun(s[1..])];
      1 + DigitRun(s[1..])
  }

  function SkipSpaces(s: string): string {
    if s != [] && IsSpace(s[0]) then SkipSpaces(s[1..]) else s
  }

  /** The number a string starts with, if it starts with a digit. */
  function Number(s: string): Option<nat> {
    if DigitRun(s) == 0 then None else Some(Value(s[..DigitRun(s)]))
  }

  /** `std::stoi`: skips white space, takes an optional sign and the digits that follow, ignores
      the rest; `None` is the exception thrown when there is no digit or no `int` to hold it. */
  function Stoi(s: string): Option<Int32> {
    var t := SkipSpaces(s);
    var u := if t != [] && (t[0] == '-' || t[0] == '+') then t[1..] else t;
    match Number(u)
    case None => None
    case Some(v) =>
      var x: int := if t != [] && t[0] == '-' then 0 - v else v;
      if INT_MIN <= x <= INT_MAX then Some(x) else None
  }

  lemma {:induction false} DigitRunAll(s: string)
    requires AllDigits(s)
    ensures DigitRun(s) == |s|
  {
    if s != [] {
      DigitRunAll(s[1..]);
    }
  }

  lemma {:induction false} ValueDigits(n: nat)
    ensures Value(Digits(n)) == n
  {
    if n < 10 {
      assert Digits(n)[..0] == [];
    } else {
      ValueDigits(n / 10);
      assert Digits(n)[..|Digits(n)| - 1] == Digits(n / 10);
    }
  }

  lemma {:induction false} ValueZeros(zeros: string)
    requires forall i :: 0 <= i < |zeros| ==> zeros[i] == '0'
    ensures Value(zeros) == 0
  {
    if zeros != [] {
      ValueZeros(zeros[..|zeros| - 1]);
    }
  }

  lemma {:induction false} ValuePadded(zeros: string, s: string)
    requires forall i :: 0 <= i < |zeros| ==> zeros[i] == '0'
    requires AllDigits(s)
    ensures AllDigits(zeros + s) && Value(zeros + s) == Value(s)
    decreases |s|
  {
    if s == [] {
      assert zeros + s == zeros;
      ValueZeros(zeros);
    } else {
      assert (zeros + s)[..|zeros + s| - 1] == zeros + s[..|s| - 1];
      ValuePadded(zeros, s[..|s| - 1]);
    }
  }

  lemma NumberDigits(s: string)
    requires AllDigits(s) && s != []
    ensures Number(s) == Some(Value(s))
  {
    DigitRunAll(s);
    assert s[..|s|] == s;
  }

  lemma StoiDigits(s: string)
    requires AllDigits(s) && s != [] && Value(s) <= INT_MAX
    ensures Stoi(s) == Some(Value(s))
  {
    assert IsDigit(s[0]);
    NumberDigits(s);
  }

  /** Reading back a printed number gives the number, for every `int`. */
  lemma StoiToString(n: Int32)
    ensures Stoi(ToString(n)) == Some(n)
  {
    if n >= 0 {
      ValueDigits(n);
      StoiDigits(Digits(n));
    } else {
      ValueDigits(0 - n);
      NumberDigits(Digits(0 - n));
      assert ToString(n)[1..] == Digits(0 - n);
    }
  }

  /** Leading zeros do not change what is read. */
  lemma StoiPadded(zeros: string, n: nat)
    requires forall i :: 0 <= i < |zeros| ==> zeros[i] == '0'
    requires n <= INT_MAX
    ensures Stoi(zeros + ToString(n)) == Some(n)
  {
    ValuePadded(zeros, Digits(n));
    ValueDigits(n);
    StoiDigits(zeros + Digits(n));
  }

  predicate AllSpaces(s: string) {
    forall i :: 0 <= i < |s| ==> s[i] in [' ', '\t', '\n', '\r', 11 as char, 12 as char]
  }

  lemma {:induction false} SkipAll(spaces: string, s: string)
    requires AllSpaces(spaces)
    ensures Stoi(spaces + s) == Stoi(s)
  {
    hide Stoi;
    if spaces == [] {
      assert spaces + s == s;
    } else {
      SkipAll(spaces[1..], s);
      OneSpace(spaces[0], spaces[1..] + s);
      assert spaces + s == [spaces[0]] + (spaces[1..] + s);
    }
  }

  lemma StoiSigned(n: nat)
    requires n <= INT_MAX
    ensures Stoi("+" + ToString(n)) == Some(n) && Stoi("-" + ToString(n)) == Some(0 - n)
  {
    var s := ToString(n);
    ValueDigits(n);
    NumberDigits(s);
    assert ("+" + s)[1..] == s && ("-" + s)[1..] == s;
  }

  /** White space in front and a plus sign are not part of the number. */
  lemma {:induction false} StoiSkips(spaces: string, n: nat)
    requires n <= INT_MAX && AllSpaces(spaces)
    ensures Stoi(spaces + ToString(n)) == Stoi(spaces + ("+" + ToString(n))) == Some(n)
    ensures Stoi(spaces + ("-" + ToString(n))) == Some(0 - n)
  {
    StoiSigned(n);
    StoiToString(n);
    hide Stoi, ToString;
    SkipAll(spaces, ToString(n));
    SkipAll(spaces, "+" + ToString(n));
    SkipAll(spaces, "-" + ToString(n));
  }

  lemma OneSpace(c: char, s: string)
    requires c in [' ', '\t', '\n', '\r', 11 as char, 12 as char]
    ensures Stoi([c] + s) == Stoi(s)
  {
    assert ([c] + s)[1..] == s;
  }

  /** What is no `int`: no digit behind the white space and the sign, or a number out of range. */
  lemma {:induction false} StoiFails(s: string, n: nat)
    ensures (forall i :: 0 <= i < |s| ==> !IsDigit(s[i])) ==> Stoi(s) == None
    ensures n > 2_147_483_647 ==> Stoi(ToString(n)) == None
    ensures n > 2_147_483_648 ==> Stoi(ToString(0 - n)) == None
  {
    if forall i :: 0 <= i < |s| ==> !IsDigit(s[i]) {
      NoDigits(s);
    }
    if n > 2_147_483_647 {
      OutOfRange(n);
    }
  }

  lemma OutOfRange(n: nat)
    requires n > 2_147_483_647
    ensures Stoi(Digits(n)) == None
    ensures n > 2_147_483_648 ==> Stoi("-" + Digits(n)) == None
  {
    var s := Digits(n);
    ValueDigits(n);
    NumberDigits(s);
    hide Number, Value, Digits;
    assert IsDigit(s[0]);
    assert ("-" + s)[1..] == s;
  }

  lemma {:induction false} NoDigits(s: string)
    requires forall i :: 0 <= i < |s| ==> !IsDigit(s[i])
    ensures Stoi(s) == None
  {
    if s != [] && IsSpace(s[0]) {
      NoDigits(s[1..]);
    }
  }

  /** What follows the digits is not read. */
  lemma StoiIgnoresRest(n: nat, rest: string)
    requires n <= INT_MAX && (rest == [] || !IsDigit(rest[0]))
    ensures Stoi(ToString(n) + rest) == Some(n)
  {
    var s := Digits(n);
    DigitRunStops(s, rest);
    assert (s + rest)[..|s|] == s && IsDigit(s[0]);
    ValueDigits(n);
  }

  lemma {:induction false} DigitRunStops(s: string, rest: string)
    requires AllDigits(s) && (rest == [] || !IsDigit(rest[0]))
    ensures DigitRun(s + rest) == |s|
  {
    if s == [] {
      assert s + rest == rest;
    } else {
      DigitRunStops(s[1..], rest);
      assert (s + rest)[1..] == s[1..] + rest;
    }
  }

  /** A printed number holds no delimiter. */
  lemma ToStringChars(n: int, c: char)
    requires !IsDigit(c) && c != '-'
    ensures c !in ToString(n)
  {
  }

  lemma {:induction false} DigitsLength(n: nat, k: nat, bound: nat)
    requires 1 <= k && bound == Pow10(k) && n < bound
    ensures |Digits(n)| <= k
    decreases k
  {
    if n >= 10 {
      DigitsLength(n / 10, k - 1, bound / 10);
    }
  }

  function Pow10(k: nat): nat { if k == 0 then 1 else 10 * Pow10(k - 1) }

  lemma {:induction false} IntHasTenDigits(n: nat)
    requires n <= INT_MAX
    ensures 1 <= |ToString(n)| <= 10
  {
    assert Pow10(10) == 10_000_000_000 by {
      assert Pow10(5) == 100_000;
      assert Pow10(10) == 100_000 * Pow10(5);
    }
    DigitsLength(n, 10, Pow10(10));
  }
}
