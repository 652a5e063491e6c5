/** Entities and string helpers shared by every part of the bookstore front end. */
module Common {

  datatype Option<+T> = None | Some(value: T)

  /** How an awaited promise settles: resolved with a value, or rejected with an error message. */
  datatype Settled<+T> = Resolved(value: T) | Rejected(message: string)

  /** A book record as the backend returns it. */
  datatype Book = Book(id: int, title: string, author: string, price: real, qty: int)

  // ---------------------------------------------------------------------------
  // ASCII case folding (String.prototype.toLowerCase restricted to ASCII)
  // ---------------------------------------------------------------------------

  predicate IsUpper(c: char) {
    'A' <= c <= 'Z'
  }

  function LowerChar(c: char): (d: char)
    ensures !IsUpper(d)
    ensures !IsUpper(c) ==> d == c
    ensures IsUpper(c) ==> d as int - c as int == 32
  {
    if IsUpper(c) then (c as int + 32) as char else c
  }

  function Lower(s: string): (r: string)
    ensures |r| == |s|
  {
    if s == [] then [] else [LowerChar(s[0])] + Lower(s[1..])
  }

  /** Lower-casing maps each character on its own and leaves no upper-case letter. */
  lemma {:induction false} LowerAt(s: string, i: int)
    requires 0 <= i < |s|
    ensures Lower(s)[i] == LowerChar(s[i]) && !IsUpper(Lower(s)[i])
  {
    if i > 0 { LowerAt(s[1..], i - 1); }
  }

  /** Lower-casing twice is lower-casing once. */
  lemma {:induction false} LowerIdempotent(s: string)
    ensures Lower(Lower(s)) == Lower(s)
  {
    if s != [] { LowerIdempotent(s[1..]); }
  }

  // ---------------------------------------------------------------------------
  // Substring search (String.prototype.includes)
  // ---------------------------------------------------------------------------

  /** `needle` occurs in `hay` starting at index `i`. */
  predicate OccursAt(hay: string, needle: string, i: int) {
    0 <= i && i + |needle| <= |hay| && hay[i..i + |needle|] == needle
  }

  /** `hay.includes(needle)`: a left-to-right scan for an occurrence. */
  function Includes(hay: string, needle: string): (b: bool)
    ensures b <==> exists i :: OccursAt(hay, needle, i)
    decreases |hay|
  {
    if |needle| > |hay| then
      assert forall i :: !OccursAt(hay, needle, i);
      false
    else if hay[..|needle|] == needle then
      assert OccursAt(hay, needle, 0);
      true
    else
      var rest := Includes(hay[1..], needle);
      assert forall i :: OccursAt(hay[1..], needle, i) <==> OccursAt(hay, needle, i + 1) by {
        forall i ensures OccursAt(hay[1..], needle, i) <==> OccursAt(hay, needle, i + 1) {
          if 0 <= i && i + |needle| <= |hay[1..]| {
            assert hay[1..][i..i + |needle|] == hay[i + 1..i + 1 + |needle|];
          }
        }
      }
      assert !OccursAt(hay, needle, 0);
      assert (exists i :: OccursAt(hay, needle, i)) ==> exists i :: OccursAt(hay[1..], needle, i) by {
        if exists i :: OccursAt(hay, needle, i) {
          var i :| OccursAt(hay, needle, i);
          assert i != 0;
          assert OccursAt(hay[1..], needle, i - 1);
        }
      }
      rest
  }

  /** The empty string occurs in every string. */
  lemma IncludesEmpty(hay: string)
    ensures Includes(hay, "")
  {
    assert OccursAt(hay, "", 0);
  }

  // ---------------------------------------------------------------------------
  // Decimal rendering of a status code (template-literal `${status}`)
  // ---------------------------------------------------------------------------

  function DigitChar(d: nat): (c: char)
    requires d < 10
    ensures '0' <= c <= '9'
  {
    ('0' as int + d) as char
  }

  function Decimal(n: nat): (s: string)
    ensures |s| >= 1
    ensures forall i :: 0 <= i < |s| ==> '0' <= s[i] <= '9'
  {
    if n < 10 then [DigitChar(n)] else Decimal(n / 10) + [DigitChar(n % 10)]
  }

  /** `${n}` for an integer. */
  function IntText(n: int): (s: string)
    ensures |s| >= 1
  {
    if n < 0 then "-" + Decimal(-n) else Decimal(n)
  }

  // ---------------------------------------------------------------------------
  // Integer parsing (parseInt without a radix)
  // ---------------------------------------------------------------------------

  /** A character's value as a digit in bases up to 36: 0-9, then a-z or A-Z for 10-35; -1 for any other character. */
  function DigitOf(c: char): (d: int)
    ensures -1 <= d < 36
  {
    if '0' <= c <= '9' then c as int - '0' as int
    else if 'a' <= c <= 'z' then c as int - 'a' as int + 10
    else if 'A' <= c <= 'Z' then c as int - 'A' as int + 10
    else -1
  }

  predicate IsDigitIn(radix: nat, c: char) {
    0 <= DigitOf(c) < radix
  }

  /** The value of a string of digits in base `radix`. */
  function DigitsValue(radix: nat, s: string): nat
    requires forall i :: 0 <= i < |s| ==> IsDigitIn(radix, s[i])
  {
    if s == [] then 0
    else
      var init, last := s[..|s| - 1], s[|s| - 1];
      assert IsDigitIn(radix, last);
      assert forall i :: 0 <= i < |init| ==> init[i] == s[i];
      Shifted(DigitsValue(radix, init), radix) + DigitOf(last)
  }

  /** `value` moved one place to the left in base `radix`. */
  function Shifted(value: nat, radix: nat): nat {
    value * radix
  }

  /** The longest prefix of `s` made of digits in base `radix`. */
  function DigitPrefix(radix: nat, s: string): (p: string)
    ensures |p| <= |s| && p == s[..|p|]
    ensures forall i :: 0 <= i < |p| ==> IsDigitIn(radix, p[i])
    ensures |p| < |s| ==> !IsDigitIn(radix, s[|p|])
  {
    if s == [] || !IsDigitIn(radix, s[0]) then []
    else
      var rest := DigitPrefix(radix, s[1..]);
      assert forall i :: 1 <= i <= |rest| ==> ([s[0]] + rest)[i] == s[1..][i - 1];
      [s[0]] + rest
  }

  /** `s` without its sign, if it starts with one. */
  function Unsigned(s: string): (t: string)
    ensures |s| > 0 && (s[0] == '-' || s[0] == '+') ==> t == s[1..]
    ensures !(|s| > 0 && (s[0] == '-' || s[0] == '+')) ==> t == s
  {
    if |s| > 0 && (s[0] == '-' || s[0] == '+') then s[1..] else s
  }

  /** Text starting with "0x" or "0X", which switches a radix-less `parseInt` to base 16. */
  predicate HasHexPrefix(t: string) {
    |t| >= 2 && t[0] == '0' && (t[1] == 'x' || t[1] == 'X')
  }

  /**
   * `parseInt(s)` with no radix: an optional sign; then, after "0x" or "0X",
   * the hexadecimal digits, otherwise the decimal ones, up to the first
   * character that is not one; `None` stands for NaN, the result when no
   * such digit follows.
   */
  function ParseInt(s: string): (r: Option<int>)
    ensures HasHexPrefix(Unsigned(s)) ==> (r.None? <==> DigitPrefix(16, Unsigned(s)[2..]) == [])
    ensures !HasHexPrefix(Unsigned(s)) ==> (r.None? <==> DigitPrefix(10, Unsigned(s)) == [])
    ensures r.Some? && |s| > 0 && s[0] == '-' ==> r.value <= 0
    ensures r.Some? && !(|s| > 0 && s[0] == '-') ==> r.value >= 0
  {
    var negative := |s| > 0 && s[0] == '-';
    var t := Unsigned(s);
    var radix := if HasHexPrefix(t) then 16 else 10;
    var digits := DigitPrefix(radix, if HasHexPrefix(t) then t[2..] else t);
    if digits == [] then None
    else
      var value: int := DigitsValue(radix, digits);
      Some(if negative then -value else value)
  }

  /** Decimal text with a sign or with trailing characters that are not digits. */
  lemma ParseIntDecimal()
    ensures ParseInt("42") == Some(42) && ParseInt("-7") == Some(-7) && ParseInt("12abc") == Some(12)
  {
    assert Unsigned("-7") == "7";
    assert DigitPrefix(10, "42") == "42";
    assert DigitPrefix(10, "7") == "7";
    assert DigitPrefix(10, "12abc") == "12";
    assert DigitsValue(10, "42") == 42 by { assert "42"[..1] == "4"; }
    assert DigitsValue(10, "12") == 12 by { assert "12"[..1] == "1"; }
  }

  /** Text with no digit after the sign is NaN, and so is a hex prefix with no hex digit after it. */
  lemma ParseIntNaN()
    ensures ParseInt("abc") == None && ParseInt("") == None && ParseInt("-") == None && ParseInt("0xg") == None
  {
    assert Unsigned("-") == [];
    assert HasHexPrefix("0xg") && "0xg"[2..] == "g";
  }

  /** After "0x" or "0X" the digits are read in base 16. */
  lemma ParseIntHex()
    ensures ParseInt("0x1A") == Some(26) && ParseInt("-0X10") == Some(-16)
  {
    assert HasHexPrefix("0x1A") && "0x1A"[2..] == "1A";
    assert Unsigned("-0X10") == "0X10" && HasHexPrefix("0X10") && "0X10"[2..] == "10";
    assert DigitPrefix(16, "1A") == "1A";
    assert DigitPrefix(16, "10") == "10";
    assert DigitsValue(16, "1A") == 26 by { assert "1A"[..1] == "1"; }
    assert DigitsValue(16, "10") == 16 by { assert "10"[..1] == "1"; }
  }

  /** Reading back the digits `Decimal` writes gives the number written. */
  lemma {:induction false} DecimalValue(n: nat)
    ensures forall i :: 0 <= i < |Decimal(n)| ==> IsDigitIn(10, Decimal(n)[i])
    ensures DigitsValue(10, Decimal(n)) == n
  {
    if n >= 10 {
      var s := Decimal(n);
      DecimalValue(n / 10);
      assert s[..|s| - 1] == Decimal(n / 10);
    }
  }

  /** A string of digits is its own digit prefix. */
  lemma {:induction false} AllDigitsPrefix(radix: nat, s: string)
    requires forall i :: 0 <= i < |s| ==> IsDigitIn(radix, s[i])
    ensures DigitPrefix(radix, s) == s
  {
    if s != [] {
      AllDigitsPrefix(radix, s[1..]);
    }
  }

  /** `parseInt(`${n}`) === n`: an integer id survives a round trip through its text. */
  lemma ParseIntText(n: int)
    ensures ParseInt(IntText(n)) == Some(n)
  {
    var d := Decimal(if n < 0 then -n else n);
    DecimalValue(if n < 0 then -n else n);
    AllDigitsPrefix(10, d);
    if n < 0 {
      assert IntText(n)[1..] == d;
    }
    assert Unsigned(IntText(n)) == d;
    assert !HasHexPrefix(d) by {
      if |d| >= 2 { assert IsDigitIn(10, d[1]); }
    }
  }
}
