/**
  Identifier synthesis: Vietnamese-style licence plates and RFID card codes.
  Every random draw of the generator is an explicit parameter here,
  constrained to the range the generator draws it from.
*/
module Identifiers {
  import opened Options
  import opened Numerals

  /** Region codes a plate may start with. */
  const PROVINCES: seq<nat> := [29, 30, 31, 32, 14, 15, 90, 18, 36, 37]
  /** Letters a plate series may use. */
  const CHARS: string := "ABCDEFGHKLMNPSTVXYZ"

  /** The draws behind one plate: the 0.8 branch gives a dotted plate
      (`NNN.NN`), the 0.2 branch a plain four-digit one. */
  datatype PlateDraw =
    | Dotted(province: nat, letter: char, num1: nat, num2: nat)
    | Plain(province: nat, letter: char, num: nat)

  predicate ValidPlateDraw(d: PlateDraw) {
    && d.province in PROVINCES
    && d.letter in CHARS
    && match d
       case Dotted(_, _, num1, num2) => 100 <= num1 <= 999 && 10 <= num2 <= 99
       case Plain(_, _, num) => 1000 <= num <= 9999
  }

  predicate IsUpperLetter(c: char) {
    'A' <= c <= 'Z'
  }

  /** `^\d{2}[A-Z]-\d{3}\.\d{2}$` */
  predicate IsDottedPlate(s: string) {
    && |s| == 10
    && AllDigits(s[..2]) && IsUpperLetter(s[2]) && s[3] == '-'
    && AllDigits(s[4..7]) && s[7] == '.' && AllDigits(s[8..])
  }

  /** `^\d{2}[A-Z]-\d{4}$` */
  predicate IsPlainPlate(s: string) {
    |s| == 8 && AllDigits(s[..2]) && IsUpperLetter(s[2]) && s[3] == '-' && AllDigits(s[4..])
  }

  /** The plate string for the given draws. */
  function GenerateVietnamPlate(d: PlateDraw): string {
    match d
    case Dotted(province, letter, num1, num2) =>
      Decimal(province) + [letter] + "-" + Decimal(num1) + "." + Decimal(num2)
    case Plain(province, letter, num) =>
      Decimal(province) + [letter] + "-" + Decimal(num)
  }

  /** Reads a plate back into the draws that produced it. */
  function ParsePlate(s: string): Option<PlateDraw> {
    if IsDottedPlate(s) then
      Some(Dotted(Value(s[..2]), s[2], Value(s[4..7]), Value(s[8..])))
    else if IsPlainPlate(s) then
      Some(Plain(Value(s[..2]), s[2], Value(s[4..])))
    else
      None
  }

  lemma ProvinceHasTwoDigits(p: nat)
    requires p in PROVINCES
    ensures |Decimal(p)| == 2 && Value(Decimal(p)) == p
  {
    DecimalExactLength(p, 2);
    ValueOfDecimal(p);
  }

  /** Every plate has one of the two shapes, chosen by the draw, and reading
      it back recovers the province, the letter and the numbers drawn. */
  lemma PlateRoundTrip(d: PlateDraw)
    requires ValidPlateDraw(d)
    ensures d.Dotted? ==> IsDottedPlate(GenerateVietnamPlate(d))
    ensures d.Plain? ==> IsPlainPlate(GenerateVietnamPlate(d))
    ensures ParsePlate(GenerateVietnamPlate(d)) == Some(d)
  {
    ProvinceHasTwoDigits(d.province);
    assert d.letter in CHARS ==> IsUpperLetter(d.letter);
    match d
    case Dotted(province, letter, num1, num2) =>
      DottedPlateRoundTrip(province, letter, num1, num2);
    case Plain(province, letter, num) =>
      PlainPlateRoundTrip(province, letter, num);
  }

  lemma DottedPlateRoundTrip(province: nat, letter: char, num1: nat, num2: nat)
    requires |Decimal(province)| == 2 && Value(Decimal(province)) == province && IsUpperLetter(letter)
    requires 100 <= num1 <= 999 && 10 <= num2 <= 99
    ensures IsDottedPlate(GenerateVietnamPlate(Dotted(province, letter, num1, num2)))
    ensures ParsePlate(GenerateVietnamPlate(Dotted(province, letter, num1, num2)))
         == Some(Dotted(province, letter, num1, num2))
  {
    DecimalExactLength(num1, 3);
    DecimalExactLength(num2, 2);
    ValueOfDecimal(num1);
    ValueOfDecimal(num2);
    DottedPlateOfParts(Decimal(province), letter, Decimal(num1), Decimal(num2));
  }

  /** Two digits, a capital, a hyphen, three digits, a dot and two digits,
      each part recoverable by its position. */
  lemma DottedPlateOfParts(p: string, letter: char, a: string, b: string)
    requires |p| == 2 && |a| == 3 && |b| == 2 && AllDigits(p) && AllDigits(a) && AllDigits(b)
    requires IsUpperLetter(letter)
    ensures IsDottedPlate(p + [letter] + "-" + a + "." + b)
    ensures var s := p + [letter] + "-" + a + "." + b;
      s[..2] == p && s[2] == letter && s[4..7] == a && s[8..] == b
  {
    var s := p + [letter] + "-" + a + "." + b;
    assert s[..2] == p && s[4..7] == a && s[8..] == b;
  }

  lemma PlainPlateRoundTrip(province: nat, letter: char, num: nat)
    requires |Decimal(province)| == 2 && Value(Decimal(province)) == province && IsUpperLetter(letter)
    requires 1000 <= num <= 9999
    ensures IsPlainPlate(GenerateVietnamPlate(Plain(province, letter, num)))
    ensures !IsDottedPlate(GenerateVietnamPlate(Plain(province, letter, num)))
    ensures ParsePlate(GenerateVietnamPlate(Plain(province, letter, num))) == Some(Plain(province, letter, num))
  {
    DecimalExactLength(num, 4);
    ValueOfDecimal(num);
    PlainPlateOfParts(Decimal(province), letter, Decimal(num));
  }

  /** Two digits, a capital, a hyphen and four digits, each part recoverable
      by its position. */
  lemma PlainPlateOfParts(p: string, letter: char, n: string)
    requires |p| == 2 && |n| == 4 && AllDigits(p) && AllDigits(n) && IsUpperLetter(letter)
    ensures IsPlainPlate(p + [letter] + "-" + n) && !IsDottedPlate(p + [letter] + "-" + n)
    ensures var s := p + [letter] + "-" + n; s[..2] == p && s[2] == letter && s[4..] == n
  {
    var s := p + [letter] + "-" + n;
    assert s[..2] == p && s[4..] == n;
  }

  // ---------------------------------------------------------------------
  // RFID card codes

  type Byte = x: int | 0 <= x < 256

  /** An upper-case hexadecimal digit. */
  predicate IsHexDigit(c: char) {
    '0' <= c <= '9' || 'A' <= c <= 'F'
  }

  /** The upper-case hexadecimal digit of `v`. */
  function HexDigit(v: int): (c: char)
    requires 0 <= v < 16
    ensures IsHexDigit(c)
  {
    if v < 10 then ('0' as int + v) as char else ('A' as int + v - 10) as char
  }

  function HexValue(c: char): (v: int)
    requires IsHexDigit(c)
    ensures 0 <= v < 16 && HexDigit(v) == c
  {
    if '0' <= c <= '9' then c as int - '0' as int else c as int - 'A' as int + 10
  }

  /** `f"{b:02X}"` */
  function HexByte(b: Byte): (s: string)
    ensures |s| == 2 && IsHexDigit(s[0]) && IsHexDigit(s[1])
    ensures HexValue(s[0]) * 16 + HexValue(s[1]) == b
  {
    [HexDigit(b / 16), HexDigit(b % 16)]
  }

  /** `" ".join(f"{b:02X}" for b in bytes)` */
  function JoinHexBytes(bytes: seq<Byte>): string {
    if |bytes| == 0 then ""
    else if |bytes| == 1 then HexByte(bytes[0])
    else HexByte(bytes[0]) + " " + JoinHexBytes(bytes[1..])
  }

  /** The card code for four drawn bytes, e.g. `4E 12 AB F9`. */
  function GenerateHexCardId(bytes: seq<Byte>): string
    requires |bytes| == 4
  {
    JoinHexBytes(bytes)
  }

  /** `^[0-9A-F]{2}( [0-9A-F]{2}){3}$` */
  predicate IsCardCode(s: string) {
    |s| == 11 && forall i :: 0 <= i < 11 ==> if i % 3 == 2 then s[i] == ' ' else IsHexDigit(s[i])
  }

  /** Reads space-separated two-digit hex groups; the empty string is no group. */
  function ParseCardCode(s: string): Option<seq<Byte>> {
    if s == [] then Some([]) else ParseGroups(s)
  }

  function ParseGroups(s: string): Option<seq<Byte>>
    decreases |s|
  {
    if |s| < 2 || !IsHexDigit(s[0]) || !IsHexDigit(s[1]) then None
    else
      var b := HexValue(s[0]) * 16 + HexValue(s[1]);
      if |s| == 2 then Some([b])
      else if s[2] != ' ' then None
      else match ParseGroups(s[3..])
        case None => None
        case Some(rest) => Some([b] + rest)
  }

  /** Joined groups have the expected length and a separator at every third place. */
  lemma {:induction false} JoinShape(bytes: seq<Byte>)
    requires |bytes| >= 1
    ensures |JoinHexBytes(bytes)| == 3 * |bytes| - 1
    ensures forall i :: 0 <= i < 3 * |bytes| - 1 ==>
      if i % 3 == 2 then JoinHexBytes(bytes)[i] == ' ' else IsHexDigit(JoinHexBytes(bytes)[i])
  {
    if |bytes| > 1 {
      JoinShape(bytes[1..]);
      var s, t := JoinHexBytes(bytes), JoinHexBytes(bytes[1..]);
      assert s == HexByte(bytes[0]) + " " + t;
      forall i | 3 <= i < 3 * |bytes| - 1
        ensures if i % 3 == 2 then s[i] == ' ' else IsHexDigit(s[i])
      {
        assert s[i] == t[i - 3];
      }
    }
  }

  /** A generated card code has the `XX XX XX XX` shape. */
  lemma CardCodeShape(bytes: seq<Byte>)
    requires |bytes| == 4
    ensures IsCardCode(GenerateHexCardId(bytes))
  {
    JoinShape(bytes);
  }

  /** Parsing a joined code gives back the bytes it was made of. */
  lemma {:induction false} ParseJoinRoundTrip(bytes: seq<Byte>)
    ensures ParseCardCode(JoinHexBytes(bytes)) == Some(bytes)
  {
    if |bytes| > 1 {
      ParseJoinRoundTrip(bytes[1..]);
      var s := JoinHexBytes(bytes);
      assert s[3..] == JoinHexBytes(bytes[1..]);
      JoinShape(bytes[1..]);
      assert [bytes[0]] + bytes[1..] == bytes;
    } else if |bytes| == 1 {
      assert [bytes[0]] == bytes;
    }
  }

  /** Every string the parser accepts is the joined rendering of what it returns. */
  lemma {:induction false} JoinParseRoundTrip(s: string, bytes: seq<Byte>)
    requires ParseCardCode(s) == Some(bytes)
    ensures JoinHexBytes(bytes) == s
  {
    if s != [] {
      GroupsRoundTrip(s, bytes);
    }
  }

  lemma {:induction false} GroupsRoundTrip(s: string, bytes: seq<Byte>)
    requires ParseGroups(s) == Some(bytes)
    ensures |bytes| >= 1 && JoinHexBytes(bytes) == s
    decreases |s|
  {
    var b := HexValue(s[0]) * 16 + HexValue(s[1]);
    HexByteOfDigits(s[0], s[1]);
    assert HexByte(b) == s[..2];
    if |s| > 2 {
      var rest := ParseGroups(s[3..]).value;
      GroupsRoundTrip(s[3..], rest);
      assert bytes == [b] + rest;
      assert bytes[1..] == rest;
      assert s == s[..2] + " " + s[3..];
    }
  }

  /** Two hex digits read as a byte print back as themselves. */
  lemma HexByteOfDigits(hi: char, lo: char)
    requires IsHexDigit(hi) && IsHexDigit(lo)
    ensures 0 <= HexValue(hi) * 16 + HexValue(lo) < 256
    ensures HexByte(HexValue(hi) * 16 + HexValue(lo)) == [hi, lo]
  {
    var h, l := HexValue(hi), HexValue(lo);
    var b := h * 16 + l;
    assert b / 16 == h && b % 16 == l;
  }
}
