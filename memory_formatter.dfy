/**
 * The memory dump of Console/MemoryFormatter.cs.
 *
 * A format string "start,length" picks the cells to show; each number may be written in hex
 * ("0x" or "$"), binary ("0b"), octal (a leading "0") or decimal, the prefixes compared without
 * regard to case. The length is rounded up to a whole number of 8-byte rows. Each row is "$",
 * the row's first address in four uppercase hex digits and a space, then the eight bytes as
 * two hex digits and a space each, then the same bytes as printable characters ('.' for the
 * others). Rows are separated by a newline, with none after the last.
 *
 * The numbers are C# `int`s: `length + Width - 1` and `start + length` wrap around as 32-bit
 * values and `/` truncates toward zero; both are written out below.
 */
module MemoryFormatting {
  import opened Bytes
  import opened Outcomes
  import opened Memories

  /** Bytes per row. */
  const Width: nat := 8
  const DefaultStart: int := 0
  const DefaultLength: int := 64
  const NewLine: char := '\n'

  const MinInt32: int := -0x8000_0000
  const MaxInt32: int := 0x7FFF_FFFF

  /** Unchecked 32-bit `int` arithmetic: the value modulo 2^32, read as two's complement. */
  function Int32(x: int): (r: int)
    ensures MinInt32 <= r <= MaxInt32
    ensures MinInt32 <= x <= MaxInt32 ==> r == x
    ensures MaxInt32 < x <= 2 * MaxInt32 + 1 ==> r == x - 0x1_0000_0000
  {
    var m := x % 0x1_0000_0000;
    if m > MaxInt32 then m - 0x1_0000_0000 else m
  }

  /** C#'s `a / Width`: the quotient truncated toward zero, not rounded down. */
  function DivWidth(a: int): (q: int)
    ensures 0 <= a ==> 0 <= q * Width <= a < q * Width + Width
    ensures a < 0 ==> q * Width - Width < a <= q * Width <= 0
  {
    if a >= 0 then a / Width else -((-a) / Width)
  }

  // ---------------------------------------------------------------------------------------
  // Characters and digits

  /** Ordinal case folding, as far as the prefixes tested here need it: ASCII letters. */
  function Upper(c: char): char
  {
    if 'a' <= c <= 'z' then (c as int - 32) as char else c
  }

  /** `StartsWith(input, test)`: a prefix test that ignores case. */
  function StartsWith(input: string, test: string): (b: bool)
    ensures b <==> |test| <= |input| && forall i :: 0 <= i < |test| ==> Upper(input[i]) == Upper(test[i])
    decreases |test|
  {
    |test| == 0 || (|input| > 0 && Upper(input[0]) == Upper(test[0]) && StartsWith(input[1..], test[1..]))
  }

  /** A character that differs, ignoring case, within the test's length rules the prefix out. */
  lemma NotPrefix(input: string, test: string, i: nat)
    requires i < |test| && i < |input| && Upper(input[i]) != Upper(test[i])
    ensures !StartsWith(input, test)
  {
  }

  /** The digit a character stands for in the number parsers: 0-9, then letters as 10-35; 36 for no digit. */
  function DigitValue(c: char): nat
  {
    if '0' <= c <= '9' then c as int - '0' as int
    else if 'A' <= c <= 'Z' then c as int - 'A' as int + 10
    else if 'a' <= c <= 'z' then c as int - 'a' as int + 10
    else 36
  }

  predicate AllDigits(s: string, radix: nat)
  {
    forall i :: 0 <= i < |s| ==> DigitValue(s[i]) < radix
  }

  /** The number the digits spell in the given radix, most significant first. */
  function Value(s: string, radix: nat): nat
    requires AllDigits(s, radix)
  {
    if |s| == 0 then 0 else Value(s[..|s| - 1], radix) * radix + DigitValue(s[|s| - 1])
  }

  function Power(radix: nat, n: nat): nat
  {
    if n == 0 then 1 else radix * Power(radix, n - 1)
  }

  /** The digits of a + b: those of a, shifted past b's, plus those of b. */
  lemma {:induction false} ValueAppend(a: string, b: string, radix: nat)
    requires AllDigits(a, radix) && AllDigits(b, radix)
    ensures AllDigits(a + b, radix)
    ensures Value(a + b, radix) == Value(a, radix) * Power(radix, |b|) + Value(b, radix)
    decreases |b|
  {
    if b == [] {
      assert a + b == a;
    } else {
      var init := b[..|b| - 1];
      var d := DigitValue(b[|b| - 1]);
      assert (a + b)[..|a + b| - 1] == a + init;
      ValueAppend(a, init, radix);
      assert Value(a + b, radix) == Value(a + init, radix) * radix + d;
      assert Value(b, radix) == Value(init, radix) * radix + d;
      Shift(Value(a, radix), Power(radix, |init|), Value(init, radix), radix, d);
    }
  }

  /** The arithmetic step of `ValueAppend`. */
  lemma Shift(x: int, p: int, v: int, r: int, d: int)
    ensures (x * p + v) * r + d == x * (r * p) + (v * r + d)
  {
  }

  // ---------------------------------------------------------------------------------------
  // The number parsers

  /**
   * `Convert.ToInt32(s, radix)` for radix 2, 8 or 16: an optional '+' (a '-' is refused
   * outside base 10), for base 16 an optional "0x"/"0X", then one or more digits and nothing
   * else. The digits must fit in 32 bits unsigned and are read back as two's complement.
   */
  function ConvertToInt32(s: string, radix: nat): (r: Option<int>)
    requires radix == 2 || radix == 8 || radix == 16
    ensures r.Some? ==> MinInt32 <= r.value <= MaxInt32
  {
    if |s| == 0 || s[0] == '-' then None
    else
      var unsigned := if s[0] == '+' then s[1..] else s;
      var digits :=
        if radix == 16 && |unsigned| >= 2 && unsigned[0] == '0' && (unsigned[1] == 'x' || unsigned[1] == 'X')
        then unsigned[2..] else unsigned;
      if |digits| == 0 || !AllDigits(digits, radix) then None
      else if Value(digits, radix) >= 0x1_0000_0000 then None
      else Some(Int32(Value(digits, radix)))
  }

  /** The white space `int.Parse` skips at either end: tab to carriage return, and space. */
  predicate IsWhite(c: char)
  {
    c == ' ' || '\t' <= c <= '\r'
  }

  function TrimStart(s: string): string
  {
    if |s| > 0 && IsWhite(s[0]) then TrimStart(s[1..]) else s
  }

  function TrimEnd(s: string): string
  {
    if |s| > 0 && IsWhite(s[|s| - 1]) then TrimEnd(s[..|s| - 1]) else s
  }

  /** The NUL characters `int.Parse` accepts at the very end, after any trailing white space. */
  function TrimNul(s: string): string
  {
    if |s| > 0 && s[|s| - 1] == '\0' then TrimNul(s[..|s| - 1]) else s
  }

  /**
   * `int.Parse(s)`: white space around an optional sign and one or more decimal digits, then
   * any number of NUL characters; the value within the range of `int`.
   */
  function ParseInt(s: string): (r: Option<int>)
    ensures r.Some? ==> MinInt32 <= r.value <= MaxInt32
  {
    var t := TrimEnd(TrimNul(TrimStart(s)));
    if |t| == 0 then None
    else
      var digits := if t[0] == '-' || t[0] == '+' then t[1..] else t;
      if |digits| == 0 || !AllDigits(digits, 10) then None
      else
        var magnitude: int := Value(digits, 10);
        var v := if t[0] == '-' then -magnitude else magnitude;
        if MinInt32 <= v <= MaxInt32 then Some(v) else None
  }

  /** `ParseNumber`: the radix is chosen by the first prefix that matches, in this order. */
  function ParseNumber(input: string): (r: Option<int>)
    ensures r.Some? ==> MinInt32 <= r.value <= MaxInt32
  {
    if StartsWith(input, "0x") then ConvertToInt32(input, 16)
    else if StartsWith(input, "$") then ConvertToInt32(input[1..], 16)
    else if StartsWith(input, "0b") then ConvertToInt32(input[2..], 2)
    else if StartsWith(input, "0") then ConvertToInt32(input, 8)
    else ParseInt(input)
  }

  /**
   * `Convert.ToInt32` on bare digits: no sign and no "0x" to skip (a digit is neither), so the
   * value is read whole and, when it fits in 32 bits, wrapped to an `int`.
   */
  lemma ConvertDigits(d: string, radix: nat)
    requires radix == 2 || radix == 8 || radix == 16
    requires d != [] && AllDigits(d, radix)
    ensures ConvertToInt32(d, radix) == if Value(d, radix) < 0x1_0000_0000 then Some(Int32(Value(d, radix))) else None
  {
    assert DigitValue(d[0]) < radix;
    if |d| >= 2 {
      assert DigitValue(d[1]) < radix;
    }
  }

  /** "$" followed by hex digits is read as hex, as `Convert.ToInt32` reads them. */
  lemma DollarIsHex(d: string)
    requires d != [] && AllDigits(d, 16)
    ensures ParseNumber("$" + d) == ConvertToInt32(d, 16)
    ensures ParseNumber("$" + d) == if Value(d, 16) < 0x1_0000_0000 then Some(Int32(Value(d, 16))) else None
  {
    var s := "$" + d;
    NotPrefix(s, "0x", 0);
    assert s[1..] == d;
    ConvertDigits(d, 16);
  }

  /** "0x" or "0X" followed by hex digits is read as hex, not as octal. */
  lemma ZeroXIsHex(x: char, d: string)
    requires x == 'x' || x == 'X'
    requires d != [] && AllDigits(d, 16)
    ensures ParseNumber(['0', x] + d) == if Value(d, 16) < 0x1_0000_0000 then Some(Int32(Value(d, 16))) else None
  {
    var s := ['0', x] + d;
    assert StartsWith(s, "0x");
    assert s[2..] == d;
    ConvertDigits(d, 16);
  }

  /** "0b" or "0B" followed by binary digits is read as binary, not as octal. */
  lemma ZeroBIsBinary(b: char, d: string)
    requires b == 'b' || b == 'B'
    requires d != [] && AllDigits(d, 2)
    ensures ParseNumber(['0', b] + d) == if Value(d, 2) < 0x1_0000_0000 then Some(Int32(Value(d, 2))) else None
  {
    var s := ['0', b] + d;
    NotPrefix(s, "0x", 1);
    NotPrefix(s, "$", 0);
    assert StartsWith(s, "0b");
    assert s[2..] == d;
    ConvertDigits(d, 2);
  }

  /** A leading 0 adds nothing to the value. */
  lemma LeadingZero(d: string, radix: nat)
    requires 0 < radix && AllDigits(d, radix)
    ensures AllDigits("0" + d, radix) && Value("0" + d, radix) == Value(d, radix)
  {
    assert Value("0", radix) == 0 by { assert "0"[..0] == []; }
    ValueAppend("0", d, radix);
  }

  /** A leading 0 before octal digits means octal; the 0 adds nothing to the value. */
  lemma LeadingZeroIsOctal(d: string)
    requires AllDigits(d, 8)
    ensures ParseNumber("0" + d) == if Value(d, 8) < 0x1_0000_0000 then Some(Int32(Value(d, 8))) else None
  {
    var s := "0" + d;
    LeadingZero(d, 8);
    var v := Value(d, 8);
    ConvertDigits(s, 8);
    var converted := if v < 0x1_0000_0000 then Some(Int32(v)) else None;
    assert ConvertToInt32(s, 8) == converted;
    NotPrefix(s, "$", 0);
    if |d| >= 1 {
      assert DigitValue(d[0]) < 8;
      NotPrefix(s, "0x", 1);
      NotPrefix(s, "0b", 1);
    }
    assert StartsWith(s, "0");
  }

  /** A minus sign after "$" or "0b" is refused: `Convert.ToInt32` takes none outside base 10. */
  lemma MinusRefused(rest: string)
    ensures ParseNumber("$-" + rest) == None
    ensures ParseNumber("0b-" + rest) == None
  {
    var s := "$-" + rest;
    NotPrefix(s, "0x", 0);
    assert s[1..] == "-" + rest;
    var t := "0b-" + rest;
    NotPrefix(t, "0x", 1);
    NotPrefix(t, "$", 0);
    assert t[2..] == "-" + rest;
  }

  /** A digit is not white space. */
  lemma DigitIsNotWhite(c: char)
    requires DigitValue(c) < 10
    ensures !IsWhite(c) && c != '-' && c != '+'
  {
  }

  /** `int.Parse` on decimal digits. */
  lemma ParseIntDigits(d: string)
    requires d != [] && AllDigits(d, 10)
    ensures ParseInt(d) == if Value(d, 10) <= MaxInt32 then Some(Value(d, 10)) else None
  {
    DigitIsNotWhite(d[0]);
    DigitIsNotWhite(d[|d| - 1]);
    assert TrimStart(d) == d;
    assert TrimNul(d) == d;
    assert TrimEnd(d) == d;
  }

  /** `int.Parse` on a minus sign and decimal digits. */
  lemma ParseIntNegative(d: string)
    requires d != [] && AllDigits(d, 10)
    ensures ParseInt("-" + d) == if Value(d, 10) <= -MinInt32 then Some(-(Value(d, 10) as int)) else None
  {
    var n := "-" + d;
    DigitIsNotWhite(d[|d| - 1]);
    assert n[|n| - 1] == d[|d| - 1] && n[1..] == d;
    assert TrimStart(n) == n;
    assert TrimNul(n) == n;
    assert TrimEnd(n) == n;
  }

  /** A NUL appended to a string survives `TrimStart`, because it is not white space. */
  lemma {:induction false} TrimStartNul(s: string)
    ensures TrimStart(s + "\0") == TrimStart(s) + "\0"
  {
    if |s| > 0 && IsWhite(s[0]) {
      assert (s + "\0")[1..] == s[1..] + "\0";
      TrimStartNul(s[1..]);
    } else if |s| == 0 {
      assert !IsWhite('\0');
    }
  }

  /** `int.Parse` ignores a NUL at the end: "10\0" and "10 \0" read as 10. */
  lemma ParseIntTrailingNul(s: string)
    ensures ParseInt(s + "\0") == ParseInt(s)
  {
    TrimStartNul(s);
    var u := TrimStart(s);
    assert (u + "\0")[..|u + "\0"| - 1] == u;
  }

  /** Decimal digits that do not start with 0 fall through to `int.Parse`; the value must fit an `int`. */
  lemma DecimalIsParsed(d: string)
    requires d != [] && AllDigits(d, 10) && d[0] != '0'
    ensures ParseNumber(d) == if Value(d, 10) <= MaxInt32 then Some(Value(d, 10)) else None
    ensures ParseNumber("-" + d) == if Value(d, 10) <= -MinInt32 then Some(-(Value(d, 10) as int)) else None
  {
    assert DigitValue(d[0]) < 10;
    NotPrefix(d, "0x", 0);
    NotPrefix(d, "$", 0);
    NotPrefix(d, "0b", 0);
    NotPrefix(d, "0", 0);
    var n := "-" + d;
    NotPrefix(n, "0x", 0);
    NotPrefix(n, "$", 0);
    NotPrefix(n, "0b", 0);
    NotPrefix(n, "0", 0);
    ParseIntDigits(d);
    ParseIntNegative(d);
  }

  /** A decimal start or length followed by NUL characters is read as if they were absent. */
  lemma DecimalTrailingNul(d: string)
    requires d != [] && AllDigits(d, 10) && d[0] != '0'
    ensures ParseNumber(d + "\0") == ParseNumber(d)
  {
    assert DigitValue(d[0]) < 10;
    var n := d + "\0";
    assert n[0] == d[0];
    NotPrefix(d, "0x", 0);
    NotPrefix(d, "$", 0);
    NotPrefix(d, "0b", 0);
    NotPrefix(d, "0", 0);
    NotPrefix(n, "0x", 0);
    NotPrefix(n, "$", 0);
    NotPrefix(n, "0b", 0);
    NotPrefix(n, "0", 0);
    ParseIntTrailingNul(d);
  }

  // ---------------------------------------------------------------------------------------
  // Hex digits

  /** The characters `X` formatting writes: the digits and the capital letters A to F. */
  predicate UpperHex(c: char)
  {
    '0' <= c <= '9' || 'A' <= c <= 'F'
  }

  /** One uppercase hex digit. */
  function HexDigit(d: nat): char
    requires d < 16
  {
    if d < 10 then ('0' as int + d) as char else ('A' as int + d - 10) as char
  }

  /** `{b:X2}`: two uppercase hex digits. */
  function Hex2(b: Byte): (s: string)
    ensures |s| == 2
  {
    [HexDigit(b / 16), HexDigit(b % 16)]
  }

  /** `{a:X4}` for an address: four uppercase hex digits. */
  function Hex4(w: Word): (s: string)
    ensures |s| == 4
  {
    Hex2(Hi(w)) + Hex2(Lo(w))
  }

  /** Both characters of `{b:X2}` are uppercase hex digits. */
  lemma Hex2Upper(b: Byte)
    ensures forall i :: 0 <= i < |Hex2(b)| ==> UpperHex(Hex2(b)[i])
  {
  }

  /** All four characters of `{a:X4}` are uppercase hex digits. */
  lemma Hex4Upper(w: Word)
    ensures forall i :: 0 <= i < |Hex4(w)| ==> UpperHex(Hex4(w)[i])
  {
    Hex2Upper(Hi(w));
    Hex2Upper(Lo(w));
    assert Hex4(w) == Hex2(Hi(w)) + Hex2(Lo(w));
  }

  /** Hex digits are digits or capital letters, never a newline. */
  lemma HexPlain(w: Word)
    ensures NewLine !in Hex2(Lo(w)) && NewLine !in Hex4(w)
  {
  }

  /** The parsers read a hex digit back as the number it was made from. */
  lemma HexDigitValue(d: nat)
    requires d < 16
    ensures DigitValue(HexDigit(d)) == d
  {
  }

  /** Two hex digits, read back in base 16, give the byte. */
  lemma Hex2Value(b: Byte)
    ensures AllDigits(Hex2(b), 16) && Value(Hex2(b), 16) == b
  {
    var s := Hex2(b);
    HexDigitValue(b / 16);
    HexDigitValue(b % 16);
    assert s[..1] == [HexDigit(b / 16)] && s[..1][..0] == [];
    assert Value(s[..1], 16) == b / 16;
  }

  /** Four hex digits, read back in base 16, give the address. */
  lemma Hex4Value(w: Word)
    ensures AllDigits(Hex4(w), 16) && Value(Hex4(w), 16) == w
  {
    Hex2Value(Hi(w));
    Hex2Value(Lo(w));
    ValueAppend(Hex2(Hi(w)), Hex2(Lo(w)), 16);
    assert Power(16, 2) == 256;
  }

  /** A row's address, written back in the "$" or the "0x" notation, parses to itself. */
  lemma AddressRoundTrip(w: Word)
    ensures ParseNumber("$" + Hex4(w)) == Some(w)
    ensures ParseNumber("0x" + Hex4(w)) == Some(w)
  {
    Hex4Value(w);
    DollarIsHex(Hex4(w));
    ZeroXIsHex('x', Hex4(w));
  }

  // ---------------------------------------------------------------------------------------
  // The layout of a row

  /** The ASCII column: characters 32 to 126 as themselves, everything else as '.'. */
  function Shown(b: Byte): (c: char)
    ensures 32 <= b <= 126 ==> c as int == b
    ensures !(32 <= b <= 126) ==> c == '.'
    ensures c != NewLine
  {
    if 32 <= b <= 126 then b as char else '.'
  }

  /** The hex column of a row: each byte as two digits and a space. */
  function HexColumn(line: seq<Byte>): string
  {
    if |line| == 0 then [] else HexColumn(line[..|line| - 1]) + Hex2(line[|line| - 1]) + " "
  }

  /** The ASCII column of a row. */
  function AsciiColumn(line: seq<Byte>): string
  {
    if |line| == 0 then [] else AsciiColumn(line[..|line| - 1]) + [Shown(line[|line| - 1])]
  }

  /** One row: "$", the address, a space, the hex column and the ASCII column. */
  function Row(address: Word, line: seq<Byte>): string
  {
    "$" + Hex4(address) + " " + HexColumn(line) + AsciiColumn(line)
  }

  /** Byte j of the line sits at 3j as two hex digits, followed by a space at 3j + 2. */
  lemma {:induction false} HexColumnLayout(line: seq<Byte>)
    ensures |HexColumn(line)| == 3 * |line|
    ensures forall j :: 0 <= j < |line| ==>
      HexColumn(line)[3 * j] == Hex2(line[j])[0] && HexColumn(line)[3 * j + 1] == Hex2(line[j])[1] &&
      HexColumn(line)[3 * j + 2] == ' '
    ensures NewLine !in HexColumn(line)
    decreases |line|
  {
    if line != [] {
      var init := line[..|line| - 1];
      HexColumnLayout(init);
      var prefix := HexColumn(init);
      var last := Hex2(line[|line| - 1]) + " ";
      assert HexColumn(line) == prefix + last;
      forall j | 0 <= j < |line|
        ensures HexColumn(line)[3 * j] == Hex2(line[j])[0] && HexColumn(line)[3 * j + 1] == Hex2(line[j])[1] &&
          HexColumn(line)[3 * j + 2] == ' '
      {
        if j < |init| {
          assert line[j] == init[j];
        }
      }
      HexPlain(line[|line| - 1]);
    }
  }

  /** Byte j of the line is shown at position j. */
  lemma {:induction false} AsciiColumnLayout(line: seq<Byte>)
    ensures |AsciiColumn(line)| == |line|
    ensures forall j :: 0 <= j < |line| ==> AsciiColumn(line)[j] == Shown(line[j])
    ensures NewLine !in AsciiColumn(line)
    decreases |line|
  {
    if line != [] {
      AsciiColumnLayout(line[..|line| - 1]);
    }
  }

  /** A full row is 38 characters long and holds no newline. */
  lemma RowShape(address: Word, line: seq<Byte>)
    requires |line| == Width
    ensures |Row(address, line)| == 38 && NewLine !in Row(address, line)
  {
    HexColumnLayout(line);
    AsciiColumnLayout(line);
    HexPlain(address);
  }

  /**
   * A full row is 38 characters: "$" and the address at 1..5, a space, byte j's two digits at
   * 6 + 3j and a space after them, and byte j's character at 30 + j. It holds no newline.
   */
  lemma RowLayout(address: Word, line: seq<Byte>)
    requires |line| == Width
    ensures |Row(address, line)| == 38
    ensures Row(address, line)[0] == '$' && Row(address, line)[1..5] == Hex4(address) && Row(address, line)[5] == ' '
    ensures forall j :: 0 <= j < Width ==>
      Row(address, line)[6 + 3 * j] == Hex2(line[j])[0] && Row(address, line)[7 + 3 * j] == Hex2(line[j])[1] &&
      Row(address, line)[8 + 3 * j] == ' ' && Row(address, line)[30 + j] == Shown(line[j])
    ensures NewLine !in Row(address, line)
  {
    HexColumnLayout(line);
    AsciiColumnLayout(line);
    var head := "$" + Hex4(address) + " ";
    var columns := HexColumn(line) + AsciiColumn(line);
    var row := Row(address, line);
    assert row == head + columns;
    assert |head| == 6 && |columns| == 32;
    forall j | 0 <= j < Width
      ensures row[6 + 3 * j] == Hex2(line[j])[0] && row[7 + 3 * j] == Hex2(line[j])[1] &&
        row[8 + 3 * j] == ' ' && row[30 + j] == Shown(line[j])
    {
      assert row[6 + 3 * j] == columns[3 * j] && row[7 + 3 * j] == columns[3 * j + 1];
      assert row[8 + 3 * j] == columns[3 * j + 2] && row[30 + j] == columns[24 + j];
    }
    HexPlain(address);
  }

  // ---------------------------------------------------------------------------------------
  // Rows, lines and fields

  /**
   * The rows of a dump of the given cells, the first cell at address start; row k shows cells
   * 8k to 8k + 7. `Format` always asks for a whole number of rows.
   */
  function Rows(start: nat, bytes: seq<Byte>): seq<string>
    requires start + |bytes| <= Size
    decreases |bytes|
  {
    if |bytes| < Width then []
    else
      var n := |bytes| - Width;
      Rows(start, bytes[..n]) + [Row(start + n, bytes[n..])]
  }

  /** Lengths that are whole rows: one row less is still a whole number of rows. */
  lemma WholeRows(n: int)
    requires n % Width == 0
    ensures (n - Width) % Width == 0 && (n + Width) % Width == 0
    ensures 0 <= n < Width ==> n == 0
  {
  }

  /** A dump has one row per 8 cells. */
  lemma {:induction false} RowsCount(start: nat, bytes: seq<Byte>)
    requires |bytes| % Width == 0 && start + |bytes| <= Size
    ensures |Rows(start, bytes)| * Width == |bytes|
    decreases |bytes|
  {
    WholeRows(|bytes|);
    if |bytes| > 0 {
      RowsCount(start, bytes[..|bytes| - Width]);
    }
  }

  /** A dump of 8m cells has m rows. */
  lemma {:induction false} RowsLength(start: nat, bytes: seq<Byte>, m: nat)
    requires |bytes| == 8 * m && start + |bytes| <= Size
    ensures |Rows(start, bytes)| == m
    decreases m
  {
    if m > 0 {
      RowsLength(start, bytes[..|bytes| - 8], m - 1);
    }
  }

  /** Row k of a dump of m rows shows the cells 8k to 8k + 7, under the address start + 8k. */
  lemma {:induction false} RowAt(start: nat, bytes: seq<Byte>, m: nat, k: nat)
    requires |bytes| == 8 * m && start + |bytes| <= Size && k < m
    ensures |Rows(start, bytes)| == m
    ensures Rows(start, bytes)[k] == Row(start + 8 * k, bytes[8 * k..8 * k + 8])
    decreases m, 1
  {
    RowsLength(start, bytes, m);
    if k < m - 1 {
      EarlierRow(start, bytes, m, k);
    } else {
      LastRow(start, bytes, m);
    }
  }

  /** A row before the last is the same row of the dump without the last 8 cells. */
  lemma {:induction false} EarlierRow(start: nat, bytes: seq<Byte>, m: nat, k: nat)
    requires |bytes| == 8 * m && start + |bytes| <= Size && k < m - 1
    ensures |Rows(start, bytes)| == m
    ensures Rows(start, bytes)[k] == Row(start + 8 * k, bytes[8 * k..8 * k + 8])
    decreases m, 0
  {
    var front := bytes[..|bytes| - 8];
    RowsLength(start, bytes, m);
    RowAt(start, front, m - 1, k);
    assert front[8 * k..8 * k + 8] == bytes[8 * k..8 * k + 8];
  }

  /** The last row shows the last 8 cells. */
  lemma LastRow(start: nat, bytes: seq<Byte>, m: nat)
    requires |bytes| == 8 * m && start + |bytes| <= Size && 0 < m
    ensures |Rows(start, bytes)| == m
    ensures Rows(start, bytes)[m - 1] == Row(start + 8 * (m - 1), bytes[8 * (m - 1)..8 * m])
  {
    RowsLength(start, bytes, m);
    assert bytes[|bytes| - 8..] == bytes[8 * (m - 1)..8 * m];
  }

  /** Every row of a dump, by its index. */
  lemma RowsIndex(start: nat, bytes: seq<Byte>)
    requires |bytes| % Width == 0 && start + |bytes| <= Size
    ensures |Rows(start, bytes)| * Width == |bytes|
    ensures forall k :: 0 <= k < |Rows(start, bytes)| ==>
      Rows(start, bytes)[k] == Row(start + 8 * k, bytes[8 * k..8 * k + 8])
  {
    RowsCount(start, bytes);
    var m := |bytes| / 8;
    forall k | 0 <= k < |Rows(start, bytes)|
      ensures Rows(start, bytes)[k] == Row(start + 8 * k, bytes[8 * k..8 * k + 8])
    {
      RowAt(start, bytes, m, k);
    }
  }

  /** Every row of a dump is 38 characters long and holds no newline. */
  lemma {:induction false} RowsPlain(start: nat, bytes: seq<Byte>)
    requires start + |bytes| <= Size
    ensures forall k :: 0 <= k < |Rows(start, bytes)| ==>
      |Rows(start, bytes)[k]| == 38 && NewLine !in Rows(start, bytes)[k]
    decreases |bytes|
  {
    if |bytes| >= Width {
      var n := |bytes| - Width;
      var init := Rows(start, bytes[..n]);
      var row := Row(start + n, bytes[n..]);
      var rows := Rows(start, bytes);
      assert rows == init + [row];
      RowsPlain(start, bytes[..n]);
      RowShape(start + n, bytes[n..]);
      forall k | 0 <= k < |rows|
        ensures |rows[k]| == 38 && NewLine !in rows[k]
      {
        if k < |init| {
          assert rows[k] == init[k];
        } else {
          assert rows[k] == row;
        }
      }
    }
  }

  /** Rows with a newline between each two. */
  function Join(rows: seq<string>): string
  {
    if |rows| == 0 then []
    else if |rows| == 1 then rows[0]
    else Join(rows[..|rows| - 1]) + [NewLine] + rows[|rows| - 1]
  }

  /** Adding a row at the end: the row itself, or a newline and the row. */
  lemma JoinSnoc(rows: seq<string>, row: string)
    ensures Join(rows + [row]) == (if rows == [] then [] else Join(rows) + [NewLine]) + row
  {
    assert (rows + [row])[..|rows|] == rows;
    if rows == [] {
      assert [] + row == row;
    }
  }

  /** The last position of sep in s, or -1. */
  function LastIndex(s: string, sep: char): (i: int)
    ensures -1 <= i < |s|
    ensures i >= 0 ==> s[i] == sep
    ensures forall j :: i < j < |s| ==> s[j] != sep
  {
    if |s| == 0 then -1 else if s[|s| - 1] == sep then |s| - 1 else LastIndex(s[..|s| - 1], sep)
  }

  /** `s.Split(sep)`: the pieces between separators; a string without one is a single piece. */
  function Split(s: string, sep: char): (parts: seq<string>)
    ensures |parts| >= 1
    decreases |s|
  {
    var i := LastIndex(s, sep);
    if i < 0 then [s] else Split(s[..i], sep) + [s[i + 1..]]
  }

  /** Splitting joined rows at the newlines gives the rows back, when no row holds a newline. */
  lemma {:induction false} SplitJoin(rows: seq<string>)
    requires |rows| >= 1
    requires forall k :: 0 <= k < |rows| ==> NewLine !in rows[k]
    ensures Split(Join(rows), NewLine) == rows
    decreases |rows|
  {
    if |rows| == 1 {
      assert LastIndex(rows[0], NewLine) == -1;
    } else {
      var init := rows[..|rows| - 1];
      var last := rows[|rows| - 1];
      var prefix := Join(init);
      var s := Join(rows);
      assert s == prefix + [NewLine] + last;
      assert s[|prefix|] == NewLine;
      var i := LastIndex(s, NewLine);
      assert i == |prefix|;
      assert s[..i] == prefix && s[i + 1..] == last;
      SplitJoin(init);
    }
  }

  /** A newline-separated text whose rows are non-empty and newline-free does not end in a newline. */
  lemma {:induction false} JoinEnd(rows: seq<string>)
    requires |rows| >= 1 && rows[|rows| - 1] != []
    ensures Join(rows) != [] && Join(rows)[|Join(rows)| - 1] == rows[|rows| - 1][|rows[|rows| - 1]| - 1]
  {
  }

  // ---------------------------------------------------------------------------------------
  // Format

  /** What is being formatted: the store, or any other object, given by its `ToString` text. */
  datatype Argument = MemoryArgument(mem: Image) | OtherArgument(text: string)

  /** Why `Format` throws: a number that does not parse, or cells outside the store. */
  datatype FormatError = NotANumber | OutsideMemory

  /** `format?.Split(',')`: no format gives no parts. */
  function Parts(format: Option<string>): seq<string>
  {
    match format
    case None => []
    case Some(f) => Split(f, ',')
  }

  /** The start and the unrounded length the format asks for, the defaults standing in for missing parts. */
  function Requested(format: Option<string>): (r: Option<(int, int)>)
    ensures r.Some? ==> MinInt32 <= r.value.0 <= MaxInt32 && MinInt32 <= r.value.1 <= MaxInt32
  {
    var parts := Parts(format);
    var start := if |parts| >= 1 then ParseNumber(parts[0]) else Some(DefaultStart);
    var length := if |parts| >= 2 then ParseNumber(parts[1]) else Some(DefaultLength);
    if start.None? || length.None? then None else Some((start.value, length.value))
  }

  /** `(length + Width - 1) / Width * Width` in `int` arithmetic. */
  function RoundUp(length: int): (r: int)
    ensures r % Width == 0
    ensures MinInt32 <= r <= MaxInt32
  {
    DivWidth(Int32(length + Width - 1)) * Width
  }

  /**
   * Rounding: a length in range goes up to the next multiple of 8; a length of -14 to -1
   * becomes 0, since the division truncates toward zero; lengths of -15 and below, and lengths
   * so large that `length + 7` wraps, come out negative.
   */
  lemma RoundUpSpec(length: int)
    requires MinInt32 <= length <= MaxInt32
    ensures RoundUp(length) % Width == 0
    ensures 0 <= length <= MaxInt32 - 7 ==> length <= RoundUp(length) < length + Width
    ensures -15 < length < 0 ==> RoundUp(length) == 0
    ensures length <= -15 ==> RoundUp(length) < 0
    ensures MaxInt32 - 7 < length ==> RoundUp(length) < 0
  {
  }

  /** `start < 0 || end > memory.Size || start > end` is false, end being `start + length` in `int`. */
  predicate InStore(start: int, length: int)
    requires MinInt32 <= start <= MaxInt32 && MinInt32 <= length <= MaxInt32
  {
    var end := Int32(start + length);
    0 <= start <= end <= Size
  }

  /** The 32-bit sum cannot wrap back into the store: the check passes exactly for ranges inside it. */
  lemma InStoreSpec(start: int, length: int)
    requires MinInt32 <= start <= MaxInt32 && MinInt32 <= length <= MaxInt32
    ensures InStore(start, length) <==> 0 <= start && 0 <= length && start + length <= Size
    ensures InStore(start, length) ==> Int32(start + length) == start + length
  {
  }

  /** The dump of the cells from start, when they lie in the store. */
  function Dump(mem: Image, start: int, length: int): Result<string, FormatError>
    requires MinInt32 <= start <= MaxInt32 && MinInt32 <= length <= MaxInt32
    requires length % Width == 0
  {
    if InStore(start, length) then
      InStoreSpec(start, length);
      Ok(Join(Rows(start, mem[start..start + length])))
    else Err(OutsideMemory)
  }

  /** What `Format(format, arg)` returns or throws. */
  function Formatted(format: Option<string>, arg: Argument): Result<string, FormatError>
  {
    match arg
    case OtherArgument(text) => Ok(text)
    case MemoryArgument(mem) =>
      var requested := Requested(format);
      if requested.None? then Err(NotANumber)
      else Dump(mem, requested.value.0, RoundUp(requested.value.1))
  }

  /** The dump succeeds exactly when the rounded range lies in the store. */
  lemma DumpSpec(mem: Image, start: int, length: int)
    requires MinInt32 <= start <= MaxInt32 && MinInt32 <= length <= MaxInt32
    requires length % Width == 0
    ensures Dump(mem, start, length).Ok? <==> 0 <= start && 0 <= length && start + length <= Size
  {
    InStoreSpec(start, length);
  }

  /** The dump is empty exactly for a length of 0 at a start inside the store (or just past it). */
  lemma DumpEmpty(mem: Image, start: int, length: int)
    requires MinInt32 <= start <= MaxInt32 && MinInt32 <= length <= MaxInt32
    requires length % Width == 0
    ensures Dump(mem, start, length) == Ok([]) <==> 0 <= start <= Size && length == 0
  {
    InStoreSpec(start, length);
    if InStore(start, length) && length > 0 {
      var rows := Rows(start, mem[start..start + length]);
      RowsCount(start, mem[start..start + length]);
      RowsPlain(start, mem[start..start + length]);
      JoinEnd(rows);
    }
  }

  /**
   * A dump of one or more rows has one row per 8 cells, which splitting at the newlines gives
   * back; it ends in the last row's last ASCII character, not in a newline.
   */
  lemma DumpText(mem: Image, start: int, length: int)
    requires 0 <= start && 0 < length && start + length <= Size
    requires length % Width == 0
    ensures
      var rows := Rows(start, mem[start..start + length]);
      var out := Join(rows);
      Dump(mem, start, length) == Ok(out) &&
      |rows| == length / Width && Split(out, NewLine) == rows &&
      out != [] && out[|out| - 1] != NewLine
  {
    InStoreSpec(start, length);
    var rows := Rows(start, mem[start..start + length]);
    RowsCount(start, mem[start..start + length]);
    RowsPlain(start, mem[start..start + length]);
    SplitJoin(rows);
    JoinEnd(rows);
    assert rows[|rows| - 1][37] != NewLine;
  }

  /** The rows of a dump in the store, each showing the 8 cells from start + 8k under that address. */
  lemma DumpLines(mem: Image, start: int, length: int)
    requires 0 <= start && 0 <= length && start + length <= Size
    requires length % Width == 0
    ensures
      var rows := Rows(start, mem[start..start + length]);
      Dump(mem, start, length) == Ok(Join(rows)) &&
      8 * |rows| == length &&
      forall k :: 0 <= k < |rows| ==>
        rows[k] == Row(start + 8 * k, mem[start + 8 * k..start + 8 * k + 8])
  {
    InStoreSpec(start, length);
    var rows := Rows(start, mem[start..start + length]);
    var m := length / Width;
    assert 8 * m == length;
    RowsLength(start, mem[start..start + length], m);
    forall k | 0 <= k < |rows|
      ensures rows[k] == Row(start + 8 * k, mem[start + 8 * k..start + 8 * k + 8])
    {
      DumpRow(mem, start, m, k);
    }
  }

  /** Row k of a dump of m rows shows the 8 cells from start + 8k, under that address. */
  lemma DumpRow(mem: Image, start: nat, m: nat, k: nat)
    requires start + 8 * m <= Size && k < m
    ensures |Rows(start, mem[start..start + 8 * m])| == m
    ensures Rows(start, mem[start..start + 8 * m])[k] == Row(start + 8 * k, mem[start + 8 * k..start + 8 * k + 8])
  {
    RowAt(start, mem[start..start + 8 * m], m, k);
    SubSlice(mem, start, start + 8 * m, 8 * k, 8 * k + 8);
  }

  /** A slice of a slice is a slice of the whole. */
  lemma SubSlice<T>(s: seq<T>, from: nat, to: nat, i: nat, j: nat)
    requires from <= to <= |s| && i <= j <= to - from
    ensures s[from..to][i..j] == s[from + i..from + j]
  {
    forall x | 0 <= x < j - i
      ensures s[from..to][i..j][x] == s[from + i..from + j][x]
    {
      assert s[from..to][i..j][x] == s[from..to][i + x] == s[from + i + x];
    }
  }

  /** Without a format the dump shows the 64 cells from address 0, in 8 rows. */
  lemma FormatDefaults(mem: Image)
    ensures Formatted(None, MemoryArgument(mem)) == Ok(Join(Rows(0, mem[0..64])))
    ensures |Rows(0, mem[0..64])| == 8
  {
    assert RoundUp(64) == 64;
    RowsCount(0, mem[0..64]);
  }

  /**
   * `Format` on the store: an error when a number does not parse, otherwise the dump of
   * the requested range, rounded up.
   */
  lemma FormattedSpec(format: Option<string>, mem: Image)
    ensures Requested(format).None? ==> Formatted(format, MemoryArgument(mem)) == Err(NotANumber)
    ensures Requested(format).Some? ==>
      var start := Requested(format).value.0;
      var length := RoundUp(Requested(format).value.1);
      Formatted(format, MemoryArgument(mem)) == Dump(mem, start, length) &&
      (Formatted(format, MemoryArgument(mem)).Ok? <==> 0 <= start && 0 <= length && start + length <= Size)
  {
    if Requested(format).Some? {
      DumpSpec(mem, Requested(format).value.0, RoundUp(Requested(format).value.1));
    }
  }

  /** `Format(format, arg)`: the numbers are parsed and rounded, then the rows are appended. */
  method Format(format: Option<string>, arg: Argument) returns (r: Result<string, FormatError>)
    ensures r == Formatted(format, arg)
    ensures arg.OtherArgument? ==> r == Ok(arg.text)
  {
    if arg.OtherArgument? {
      return Ok(arg.text);
    }
    var requested := ReadFormat(format);
    FormattedSpec(format, arg.mem);
    if requested.None? {
      return Err(NotANumber);
    }
    var start := requested.value.0;
    var length := RoundUp(requested.value.1);
    var end := Int32(start + length);
    InStoreSpec(start, length);
    if !(0 <= start <= end <= Size) {
      assert Dump(arg.mem, start, length) == Err(OutsideMemory);
      return Err(OutsideMemory);
    }
    assert InStore(start, length) && end == start + length;
    var cells := arg.mem[start..end];
    assert |cells| == length;
    var text := DumpRows(start, cells);
    assert Dump(arg.mem, start, length) == Ok(Join(Rows(start, cells)));
    r := Ok(text);
  }

  /** The first part of `Format`: split the format at ',' and parse the parts there are. */
  method ReadFormat(format: Option<string>) returns (r: Option<(int, int)>)
    ensures r == Requested(format)
  {
    var parts := Parts(format);
    var start := DefaultStart;
    var length := DefaultLength;
    if |parts| >= 1 {
      var n := ParseNumber(parts[0]);
      if n.None? {
        return None;
      }
      start := n.value;
    }
    if |parts| >= 2 {
      var n := ParseNumber(parts[1]);
      if n.None? {
        return None;
      }
      length := n.value;
    }
    r := Some((start, length));
  }

  /** The row loop of `Format`: one row per 8 cells, each followed by a newline unless it is the last. */
  method DumpRows(start: nat, bytes: seq<Byte>) returns (sb: string)
    requires |bytes| % Width == 0 && start + |bytes| <= Size
    ensures sb == Join(Rows(start, bytes))
  {
    var length := |bytes|;
    sb := "";
    var i := 0;
    while i < length
      invariant 0 <= i <= length && i % Width == 0
      invariant sb == Join(Rows(start, bytes[..i])) + (if 0 < i < length then [NewLine] else [])
    {
      NextRow(i, length);
      var line := bytes[i..i + Width];
      var address: Word := start + i;
      ghost var before := sb;
      sb := AppendRow(sb, address, line);
      DumpStep(start, bytes, i, address, line, before, sb);
      if i + Width < length {
        sb := sb + [NewLine];
      }
      i := i + Width;
    }
    assert bytes[..i] == bytes;
  }

  /** One pass of the row loop extends the text of the rows before it by the next row. */
  lemma DumpStep(start: nat, bytes: seq<Byte>, i: nat, address: Word, line: seq<Byte>, text: string, next: string)
    requires i + Width <= |bytes| && i % Width == 0 && start + |bytes| <= Size
    requires address == start + i && line == bytes[i..i + Width]
    requires text == Join(Rows(start, bytes[..i])) + (if 0 < i then [NewLine] else [])
    requires next == text + Row(address, line)
    ensures next == Join(Rows(start, bytes[..i + Width]))
  {
    var done := Rows(start, bytes[..i]);
    var row := Row(address, line);
    RowsSnoc(start, bytes, i);
    JoinSnoc(done, row);
    WholeRows(i);
    assert i == 0 <==> done == [] by {
      if i > 0 {
        RowsSnoc(start, bytes[..i], i - Width);
      }
    }
  }

  /** The rows of the cells up to i + 8: those up to i, then the row of cells i to i + 7. */
  lemma RowsSnoc(start: nat, bytes: seq<Byte>, i: nat)
    requires i + Width <= |bytes| && start + |bytes| <= Size
    ensures Rows(start, bytes[..i + Width]) == Rows(start, bytes[..i]) + [Row(start + i, bytes[i..i + Width])]
  {
    var upTo := bytes[..i + Width];
    assert upTo[..i] == bytes[..i] && upTo[i..] == bytes[i..i + Width];
  }

  /** Row starts are multiples of 8, so a row that starts before the end also ends by it. */
  lemma NextRow(i: int, length: int)
    requires 0 <= i < length && i % Width == 0 && length % Width == 0
    ensures i + Width <= length && (i + Width) % Width == 0
  {
  }

  /** One pass of the row loop of `Format`: the address, then the two columns. */
  method AppendRow(prefix: string, address: Word, line: seq<Byte>) returns (sb: string)
    ensures sb == prefix + Row(address, line)
  {
    var head := "$" + Hex4(address) + " ";
    sb := prefix + head;
    sb := AppendHexColumn(sb, line);
    sb := AppendAsciiColumn(sb, line);
    assert sb == prefix + (head + HexColumn(line) + AsciiColumn(line));
  }

  /** The first inner loop of `Format`: each byte of the row as two hex digits and a space. */
  method AppendHexColumn(prefix: string, line: seq<Byte>) returns (sb: string)
    ensures sb == prefix + HexColumn(line)
  {
    sb := prefix;
    var j := 0;
    while j < |line|
      invariant 0 <= j <= |line|
      invariant sb == prefix + HexColumn(line[..j])
    {
      assert line[..j + 1][..j] == line[..j];
      sb := sb + Hex2(line[j]) + " ";
      j := j + 1;
    }
    assert line[..j] == line;
  }

  /** The second inner loop of `Format`: each byte of the row as its character, or '.'. */
  method AppendAsciiColumn(prefix: string, line: seq<Byte>) returns (sb: string)
    ensures sb == prefix + AsciiColumn(line)
  {
    sb := prefix;
    var j := 0;
    while j < |line|
      invariant 0 <= j <= |line|
      invariant sb == prefix + AsciiColumn(line[..j])
    {
      assert line[..j + 1][..j] == line[..j];
      sb := sb + [Shown(line[j])];
      j := j + 1;
    }
    assert line[..j] == line;
  }
}
