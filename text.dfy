/**
 * The text pieces the GFA optional-field renderer relies on, written out
 * over `string` (`seq<char>`): from the Rust standard library,
 *  - decimal rendering of integers (`i64`'s `Display` / `to_string`),
 *  - `char::from_digit(x, 16)` for one lowercase hexadecimal digit;
 * and the comma joining that the renderer's array loops perform.
 * Each comes with a partner that undoes it (decimal value, hex value,
 * splitting at commas) and a lemma connecting the two.
 */
module Text {

  // ---------------------------------------------------------------------
  // Decimal digits
  // ---------------------------------------------------------------------

  predicate IsDigit(c: char) {
    '0' <= c <= '9'
  }

  predicate IsDigits(s: string) {
    forall k :: 0 <= k < |s| ==> IsDigit(s[k])
  }

  /** The character of decimal digit `d`. */
  function DigitChar(d: nat): (c: char)
    requires d < 10
    ensures IsDigit(c)
    ensures c as int - '0' as int == d
  {
    ('0' as int + d) as char
  }

  /** The value of a decimal digit character. */
  function DigitValue(c: char): (d: nat)
    requires IsDigit(c)
    ensures d < 10
  {
    c as int - '0' as int
  }

  /** The number a string of decimal digits denotes. */
  function DigitsValue(s: string): nat
    requires IsDigits(s)
  {
    if |s| == 0 then 0 else DigitsValue(s[..|s| - 1]) * 10 + DigitValue(s[|s| - 1])
  }

  /**
   * Decimal text of a natural number, most significant digit first, with
   * no leading zero; reading the digits back gives `n`.
   */
  function NatToDecimal(n: nat): (s: string)
    ensures |s| >= 1 && IsDigits(s)
    ensures s[0] == '0' ==> s == "0"
    ensures DigitsValue(s) == n
  {
    if n < 10 then [DigitChar(n)]
    else
      var t := NatToDecimal(n / 10);
      var s := t + [DigitChar(n % 10)];
      assert s[..|s| - 1] == t;
      s
  }

  /** Well-formed decimal integer text: digits, optionally after a single leading '-'. */
  predicate IsDecimalText(s: string) {
    || (|s| >= 1 && IsDigits(s))
    || (|s| >= 2 && s[0] == '-' && IsDigits(s[1..]))
  }

  /** The integer a well-formed decimal text denotes. */
  function DecimalValue(s: string): int
    requires IsDecimalText(s)
  {
    if s[0] == '-' then -(DigitsValue(s[1..]) as int) else DigitsValue(s)
  }

  /**
   * Decimal text of an integer, as Rust's `Display` for `i64` writes it:
   * a '-' for negative values, then the digits of the magnitude with no
   * leading zero. The text holds no comma and reads back as `i`.
   */
  function IntToDecimal(i: int): (s: string)
    ensures IsDecimalText(s) && DecimalValue(s) == i
    ensures s[0] == '-' <==> i < 0
    ensures var m := if i < 0 then s[1..] else s; m[0] == '0' ==> m == "0"
    ensures NoComma(s)
  {
    if i < 0 then
      var s := "-" + NatToDecimal(-i);
      assert s[1..] == NatToDecimal(-i);
      s
    else NatToDecimal(i)
  }

  // ---------------------------------------------------------------------
  // Hexadecimal digits
  // ---------------------------------------------------------------------

  predicate IsLowerHexDigit(c: char) {
    ('0' <= c <= '9') || ('a' <= c <= 'f')
  }

  /** The value of a lowercase hexadecimal digit. */
  function HexValue(c: char): (v: nat)
    requires IsLowerHexDigit(c)
    ensures v < 16
  {
    if c <= '9' then c as int - '0' as int else c as int - 'a' as int + 10
  }

  /**
   * `char::from_digit(v, 16)`: the lowercase hexadecimal digit of `v`.
   * Rust returns `None` for `v >= 16`; callers here must stay below 16.
   */
  function HexDigit(v: nat): (c: char)
    requires v < 16
    ensures IsLowerHexDigit(c) && HexValue(c) == v
  {
    if v < 10 then ('0' as int + v) as char else ('a' as int + v - 10) as char
  }

  // ---------------------------------------------------------------------
  // Comma-separated lists
  // ---------------------------------------------------------------------

  predicate NoComma(s: string) {
    forall k :: 0 <= k < |s| ==> s[k] != ','
  }

  /**
   * The parts in order with a single ',' between neighbours and none
   * before the first or after the last; no parts give the empty string.
   * Defined from the end, as a loop that appends one part at a time builds it.
   */
  function CommaJoined(parts: seq<string>): string {
    if |parts| == 0 then ""
    else if |parts| == 1 then parts[0]
    else CommaJoined(parts[..|parts| - 1]) + "," + parts[|parts| - 1]
  }

  /** The pieces of `s` between commas, in order (always at least one piece). */
  function SplitAtCommas(s: string): (pieces: seq<string>)
    ensures |pieces| >= 1
  {
    if |s| == 0 then [""]
    else
      var init := SplitAtCommas(s[..|s| - 1]);
      if s[|s| - 1] == ',' then init + [""]
      else init[..|init| - 1] + [init[|init| - 1] + [s[|s| - 1]]]
  }

  /** Number of occurrences of `c` in `s`. */
  function Count(s: string, c: char): nat {
    if |s| == 0 then 0 else Count(s[..|s| - 1], c) + (if s[|s| - 1] == c then 1 else 0)
  }

  lemma {:induction false} SplitCommaFree(s: string)
    requires NoComma(s)
    ensures SplitAtCommas(s) == [s]
  {
    if |s| > 0 {
      SplitCommaFree(s[..|s| - 1]);
      assert s[..|s| - 1] + [s[|s| - 1]] == s;
    }
  }

  /** Appending a comma and a comma-free piece adds exactly that piece. */
  lemma {:induction false} SplitAppendPiece(x: string, b: string)
    requires NoComma(b)
    ensures SplitAtCommas(x + "," + b) == SplitAtCommas(x) + [b]
  {
    var s := x + "," + b;
    if |b| == 0 {
      assert s == x + ",";
      assert s[..|s| - 1] == x;
    } else {
      var b' := b[..|b| - 1];
      assert s[..|s| - 1] == x + "," + b';
      SplitAppendPiece(x, b');
      assert b' + [b[|b| - 1]] == b;
    }
  }

  /** Splitting at commas undoes joining with commas, when no part holds a comma. */
  lemma {:induction false} SplitCommaJoined(parts: seq<string>)
    requires |parts| >= 1
    requires forall k :: 0 <= k < |parts| ==> NoComma(parts[k])
    ensures SplitAtCommas(CommaJoined(parts)) == parts
  {
    if |parts| == 1 {
      SplitCommaFree(parts[0]);
    } else {
      var init := parts[..|parts| - 1];
      SplitCommaJoined(init);
      SplitAppendPiece(CommaJoined(init), parts[|parts| - 1]);
      assert init + [parts[|parts| - 1]] == parts;
    }
  }

  /** A string has one more piece between commas than it has commas. */
  lemma {:induction false} SplitCount(s: string)
    ensures |SplitAtCommas(s)| == Count(s, ',') + 1
  {
    if |s| > 0 {
      SplitCount(s[..|s| - 1]);
    }
  }

  /** Comma-joining one more part: a separator only when something precedes it. */
  lemma CommaJoinedSnoc(parts: seq<string>, k: nat)
    requires k < |parts|
    ensures CommaJoined(parts[..k + 1]) == (if k == 0 then "" else CommaJoined(parts[..k]) + ",") + parts[k]
  {
    assert parts[..k + 1][..k] == parts[..k];
  }

  /**
   * Joining n >= 1 comma-free parts puts exactly n - 1 commas in the result,
   * and splitting the result gives the parts back; so, when every part is
   * non-empty, there is no leading, trailing or doubled comma.
   */
  lemma CommaJoinedSeparators(parts: seq<string>)
    requires |parts| >= 1
    requires forall k :: 0 <= k < |parts| ==> NoComma(parts[k])
    ensures Count(CommaJoined(parts), ',') == |parts| - 1
    ensures SplitAtCommas(CommaJoined(parts)) == parts
  {
    SplitCommaJoined(parts);
    SplitCount(CommaJoined(parts));
  }
}
