/** Integers in strings, as Python's `int` reads them and `str` writes them. */
module PythonInt {

  predicate Digit(c: char) {
    '0' <= c <= '9'
  }

  predicate HexDigit(c: char) {
    Digit(c) || 'a' <= c <= 'f' || 'A' <= c <= 'F'
  }

  predicate Space(c: char) {
    c in {' ', '\t', '\n', '\r', '\U{000B}', '\U{000C}', '\U{001C}', '\U{001D}', '\U{001E}', '\U{001F}'}
  }

  function Strip(s: string): string {
    if s == "" then s
    else if Space(s[0]) then Strip(s[1..])
    else if Space(s[|s| - 1]) then Strip(s[..|s| - 1])
    else s
  }

  /** Digits, with single underscores between them. */
  predicate Digits(s: string) {
    && s != "" && Digit(s[|s| - 1])
    && (|| |s| == 1
        || (Digit(s[|s| - 2]) && Digits(s[..|s| - 1]))
        || (s[|s| - 2] == '_' && Digits(s[..|s| - 2])))
  }

  function DigitsValue(s: string): nat
    requires Digits(s)
  {
    var d := s[|s| - 1] as int - '0' as int;
    if |s| == 1 then d
    else if Digit(s[|s| - 2]) then 10 * DigitsValue(s[..|s| - 1]) + d
    else 10 * DigitsValue(s[..|s| - 2]) + d
  }

  function Unsigned(s: string): string {
    if s != "" && (s[0] == '+' || s[0] == '-') then s[1..] else s
  }

  /** Python's `int` accepts the string. */
  predicate IsInt(s: string) {
    Digits(Unsigned(Strip(s)))
  }

  function IntOf(s: string): int
    requires IsInt(s)
  {
    var n: int := DigitsValue(Unsigned(Strip(s)));
    if Strip(s) != "" && Strip(s)[0] == '-' then -n else n
  }

  /** The decimal numeral of a number. */
  function Decimal(n: nat): string {
    var d := [(n % 10) as char + '0'];
    if n < 10 then d else Decimal(n / 10) + d
  }

  predicate Numeral(s: string) {
    s != "" && forall i | 0 <= i < |s| :: Digit(s[i])
  }

  lemma {:induction false} DecimalDigits(n: nat)
    ensures Numeral(Decimal(n)) && Digits(Decimal(n)) && DigitsValue(Decimal(n)) == n
  {
    if n >= 10 {
      DecimalDigits(n / 10);
      var s := Decimal(n);
      assert s[..|s| - 1] == Decimal(n / 10);
    }
  }

  lemma DecimalIsInt(n: nat)
    ensures IsInt(Decimal(n)) && IntOf(Decimal(n)) == n
  {
    DecimalDigits(n);
    var s := Decimal(n);
    assert Digit(s[0]) && Digit(s[|s| - 1]);
    assert Strip(s) == s;
  }

  lemma SignedNumeral(sign: char, d: string)
    requires sign in {'-', '+'} && Numeral(d) && Digits(d)
    ensures var s := [sign] + d;
            IsInt(s) && IntOf(s) == if sign == '-' then 0 - DigitsValue(d) else DigitsValue(d)
  {
    hide Digits;
    hide DigitsValue;
    var s := [sign] + d;
    assert s[0] == sign && s[|s| - 1] == d[|d| - 1] && Digit(d[|d| - 1]);
    assert Strip(s) == s;
    assert s[1..] == d;
  }

  lemma SpacedStrips(s: string)
    ensures Strip(" " + s + " ") == Strip(s)
  {
    var t := " " + s + " ";
    assert t[1..] == s + " ";
    SpaceAfter(s);
  }

  lemma {:induction false} SpaceAfter(s: string)
    ensures Strip(s + " ") == Strip(s)
    decreases |s|
  {
    var t := s + " ";
    if s == "" {
      assert t[1..] == "";
    } else if Space(s[0]) {
      assert t[1..] == s[1..] + " ";
      SpaceAfter(s[1..]);
    } else {
      assert t[..|t| - 1] == s;
    }
  }

  /** A sign is read, and spaces around a numeral are not. */
  lemma SignedIsInt(n: nat)
    ensures IsInt("-" + Decimal(n)) && IntOf("-" + Decimal(n)) == 0 - n
    ensures IsInt("+" + Decimal(n)) && IntOf("+" + Decimal(n)) == n
    ensures IsInt(" " + Decimal(n) + " ") && IntOf(" " + Decimal(n) + " ") == n
  {
    DecimalDigits(n);
    DecimalIsInt(n);
    SpacedStrips(Decimal(n));
    SignedNumeral('-', Decimal(n));
    SignedNumeral('+', Decimal(n));
    hide Strip;
    hide Digits;
    hide DigitsValue;
    assert "-" + Decimal(n) == ['-'] + Decimal(n) && "+" + Decimal(n) == ['+'] + Decimal(n);
  }
}
