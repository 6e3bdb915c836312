/**
 * The country list behind the phone-code picker: each country's flag is
 * spelled with the regional indicator symbols of the Unicode Standard
 * (section 22.10), one per letter of its ISO code, and every such symbol is
 * a supplementary code point, stored in a string as a UTF-16 surrogate pair
 * (Unicode section 3.9).
 */
module Countries {
  import opened Strings

  /** One UTF-16 code unit, the element of a Kotlin string. */
  newtype CodeUnit = x: int | 0 <= x < 0x1_0000

  const RegionalIndicatorA: int := 0x1F1E6

  datatype PhoneCountry = PhoneCountry(
    name: string,
    iso: string,
    phoneCode: string,
    flag: seq<CodeUnit>)

  predicate IsHighSurrogate(u: CodeUnit) { 0xD800 <= u <= 0xDBFF }
  predicate IsLowSurrogate(u: CodeUnit) { 0xDC00 <= u <= 0xDFFF }

  /** The code point a surrogate pair stands for. */
  function PairValue(hi: CodeUnit, lo: CodeUnit): int
  {
    0x1_0000 + (hi as int - 0xD800) * 0x400 + (lo as int - 0xDC00)
  }

  /** `Character.toChars(cp)` for a supplementary code point. */
  function SurrogatePair(cp: int): (r: seq<CodeUnit>)
    requires 0x1_0000 <= cp <= 0x10_FFFF
    ensures |r| == 2 && IsHighSurrogate(r[0]) && IsLowSurrogate(r[1])
    ensures PairValue(r[0], r[1]) == cp
  {
    var v := cp - 0x1_0000;
    [(0xD800 + v / 0x400) as CodeUnit, (0xDC00 + v % 0x400) as CodeUnit]
  }

  /** A string as the code units Kotlin holds: a character outside the Basic
      Multilingual Plane takes two. */
  function Utf16(s: string): (r: seq<CodeUnit>)
    ensures |r| >= |s|
  {
    if s == [] then []
    else
      (if s[0] as int < 0x1_0000 then [s[0] as int as CodeUnit] else SurrogatePair(s[0] as int))
      + Utf16(s[1..])
  }

  lemma {:induction false} Utf16OfBmp(s: string)
    requires forall i :: 0 <= i < |s| ==> s[i] as int < 0x1_0000
    ensures |Utf16(s)| == |s|
  {
    if s != [] {
      Utf16OfBmp(s[1..]);
    }
  }

  /** Reads code points back from code units: a high surrogate followed by a
      low one is one code point, any other unit stands for itself. */
  function DecodeUtf16(u: seq<CodeUnit>): seq<int>
  {
    if u == [] then []
    else if |u| >= 2 && IsHighSurrogate(u[0]) && IsLowSurrogate(u[1]) then
      [PairValue(u[0], u[1])] + DecodeUtf16(u[2..])
    else [u[0] as int] + DecodeUtf16(u[1..])
  }

  /** The symbol a code unit of the upper-cased ISO code becomes. */
  function FlagCodePoint(u: CodeUnit): (cp: int)
    ensures 0x1_0000 <= cp <= 0x10_FFFF
    ensures 'A' as int <= u as int <= 'Z' as int ==> RegionalIndicatorA <= cp <= RegionalIndicatorA + 25
  {
    RegionalIndicatorA + (u as int - 'A' as int)
  }

  function FlagUnits(units: seq<CodeUnit>): (r: seq<CodeUnit>)
    ensures |r| == 2 * |units|
  {
    if units == [] then [] else SurrogatePair(FlagCodePoint(units[0])) + FlagUnits(units[1..])
  }

  function FlagCodePoints(units: seq<CodeUnit>): (r: seq<int>)
    ensures |r| == |units|
    ensures forall i :: 0 <= i < |units| ==> r[i] == FlagCodePoint(units[i])
  {
    if units == [] then [] else [FlagCodePoint(units[0])] + FlagCodePoints(units[1..])
  }

  /** `isoToFlag`: the ISO code upper-cased, each code unit mapped to a
      regional indicator symbol, each symbol written as a surrogate pair. */
  function IsoToFlag(iso: string): (r: seq<CodeUnit>)
    ensures |r| == 2 * |Utf16(Upper(iso))|
  {
    FlagUnits(Utf16(Upper(iso)))
  }

  lemma {:induction false} FlagUnitsDecode(units: seq<CodeUnit>)
    ensures DecodeUtf16(FlagUnits(units)) == FlagCodePoints(units)
  {
    if units != [] {
      var p := SurrogatePair(FlagCodePoint(units[0]));
      var rest := FlagUnits(units[1..]);
      assert (p + rest)[2..] == rest;
      FlagUnitsDecode(units[1..]);
    }
  }

  /** Decoding a flag gives one symbol per code unit of the upper-cased ISO
      code, in order; every symbol is a supplementary code point. */
  lemma FlagDecodes(iso: string)
    ensures DecodeUtf16(IsoToFlag(iso)) == FlagCodePoints(Utf16(Upper(iso)))
  {
    FlagUnitsDecode(Utf16(Upper(iso)));
  }

  /** A flag does not depend on the case of the ISO code. */
  lemma FlagIgnoresCase(iso: string)
    ensures IsoToFlag(Lower(iso)) == IsoToFlag(iso)
  {
    assert Upper(Lower(iso)) == Upper(iso);
  }

  /** A two-letter code gives two regional indicator symbols, four code units. */
  lemma TwoLetterFlag(iso: string)
    requires |iso| == 2 && IsLetter(iso[0]) && IsLetter(iso[1])
    ensures |IsoToFlag(iso)| == 4 && |DecodeUtf16(IsoToFlag(iso))| == 2
    ensures DecodeUtf16(IsoToFlag(iso))[0] == RegionalIndicatorA + (UpperChar(iso[0]) as int - 'A' as int)
    ensures DecodeUtf16(IsoToFlag(iso))[1] == RegionalIndicatorA + (UpperChar(iso[1]) as int - 'A' as int)
  {
    var up := Upper(iso);
    Utf16OfBmp(up);
    FlagDecodes(iso);
    assert up == [up[0]] + [up[1]];
    assert Utf16(up) == [up[0] as int as CodeUnit, up[1] as int as CodeUnit];
  }

  /** One entry of the bundled country file. */
  datatype CountryEntry = CountryEntry(name: string, iso: string, phoneCode: string)

  /** `loadCountries` once the file is read: one country per entry, in file
      order, each with the flag of its ISO code. */
  function LoadCountries(entries: seq<CountryEntry>): (r: seq<PhoneCountry>)
    ensures |r| == |entries|
    ensures forall i :: 0 <= i < |r| ==>
      && r[i].name == entries[i].name
      && r[i].iso == entries[i].iso
      && r[i].phoneCode == entries[i].phoneCode
      && r[i].flag == IsoToFlag(entries[i].iso)
  {
    if entries == [] then []
    else
      var e := entries[0];
      [PhoneCountry(e.name, e.iso, e.phoneCode, IsoToFlag(e.iso))] + LoadCountries(entries[1..])
  }
}
