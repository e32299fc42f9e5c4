/** `col_from_hex`: decoding a `#RRGGBB` colour string into three fractional
    channels, each byte divided by 256. */
module Hex {
  import opened Options

  /** A colour as three fractional channels (Python returns a three-element
      list `[r, g, b]`). Channels are exact dyadic rationals, so `real`. */
  datatype Rgb = Rgb(red: real, green: real, blue: real)

  /** Largest channel value: the divisor is 256, so 255 decodes below 1. */
  const MaxChannel: real := 255.0 / 256.0

  predicate InUnitRange(x: real) {
    0.0 <= x <= MaxChannel
  }

  predicate IsHexDigit(c: char) {
    '0' <= c <= '9' || 'a' <= c <= 'f' || 'A' <= c <= 'F'
  }

  /** Value of one base-16 digit, either case. */
  function DigitValue(c: char): (v: nat)
    requires IsHexDigit(c)
    ensures v < 16
  {
    if '0' <= c <= '9' then (c - '0') as nat
    else if 'a' <= c <= 'f' then (c - 'a') as nat + 10
    else (c - 'A') as nat + 10
  }

  /** The digit for `v`, lower or upper case. */
  function DigitChar(v: nat, upper: bool): (c: char)
    requires v < 16
    ensures IsHexDigit(c) && DigitValue(c) == v
    ensures v >= 10 ==> (if upper then 'A' <= c <= 'F' else 'a' <= c <= 'f')
  {
    if v < 10 then ('0' as int + v) as char
    else if upper then ('A' as int + v - 10) as char
    else ('a' as int + v - 10) as char
  }

  /** A digit spelled in one case: `0-9` and `a-f`, or `0-9` and `A-F`. */
  predicate IsCaseDigit(c: char, upper: bool) {
    '0' <= c <= '9' || (if upper then 'A' <= c <= 'F' else 'a' <= c <= 'f')
  }

  /** Digits of one case are exactly that case's spelling of their value. */
  lemma DigitCanonical(c: char, upper: bool)
    requires IsCaseDigit(c, upper)
    ensures DigitChar(DigitValue(c), upper) == c
  {
  }

  /** `int(hi + lo, 16)` for two hex digits. */
  function PairValue(hi: char, lo: char): (b: nat)
    requires IsHexDigit(hi) && IsHexDigit(lo)
    ensures b < 256
  {
    16 * DigitValue(hi) + DigitValue(lo)
  }

  /** A byte over 256. */
  function Channel(b: nat): (x: real)
    requires b < 256
    ensures InUnitRange(x)
    ensures x * 256.0 == b as real
  {
    b as real / 256.0
  }

  /** The shape `col_from_hex` can decode without error: at least seven
      characters, positions 1..6 hex digits. Position 0 is not examined. */
  predicate WellFormed(c: string) {
    |c| >= 7 && forall i :: 1 <= i <= 6 ==> IsHexDigit(c[i])
  }

  /** `col_from_hex(c)`: the pairs at positions 1-2, 3-4 and 5-6 as bytes, each
      divided by 256; `None` where the source raises. */
  function ColFromHex(c: string): (r: Option<Rgb>)
    ensures r.Some? <==> WellFormed(c)
    ensures r.Some? ==> InUnitRange(r.value.red) && InUnitRange(r.value.green) && InUnitRange(r.value.blue)
  {
    if WellFormed(c) then
      Some(Rgb(Channel(PairValue(c[1], c[2])),
               Channel(PairValue(c[3], c[4])),
               Channel(PairValue(c[5], c[6]))))
    else None
  }

  /** Two hex digits for a byte, as in `'%02x' % b` (or `%02X`). */
  function FormatByte(b: nat, upper: bool): (s: string)
    requires b < 256
    ensures |s| == 2 && IsHexDigit(s[0]) && IsHexDigit(s[1])
    ensures PairValue(s[0], s[1]) == b
  {
    [DigitChar(b / 16, upper), DigitChar(b % 16, upper)]
  }

  /** `'#%02x%02x%02x' % (r, g, b)`. */
  function FormatHex(r: nat, g: nat, b: nat, upper: bool): (s: string)
    requires r < 256 && g < 256 && b < 256
    ensures |s| == 7 && s[0] == '#' && WellFormed(s)
  {
    "#" + FormatByte(r, upper) + FormatByte(g, upper) + FormatByte(b, upper)
  }

  /** Encoding a byte triple, in either digit case, then decoding it gives
      each byte over 256. */
  lemma RoundTrip(r: nat, g: nat, b: nat, upper: bool)
    requires r < 256 && g < 256 && b < 256
    ensures ColFromHex(FormatHex(r, g, b, upper))
         == Some(Rgb(r as real / 256.0, g as real / 256.0, b as real / 256.0))
  {
    var s := FormatHex(r, g, b, upper);
    var fr, fg, fb := FormatByte(r, upper), FormatByte(g, upper), FormatByte(b, upper);
    assert s[1] == fr[0] && s[2] == fr[1];
    assert s[3] == fg[0] && s[4] == fg[1];
    assert s[5] == fb[0] && s[6] == fb[1];
  }

  /** The canonical spelling of a byte's value is the pair it came from. */
  lemma PairCanonical(hi: char, lo: char, upper: bool)
    requires IsCaseDigit(hi, upper) && IsCaseDigit(lo, upper)
    ensures FormatByte(PairValue(hi, lo), upper) == [hi, lo]
  {
    var b := PairValue(hi, lo);
    assert b / 16 == DigitValue(hi) && b % 16 == DigitValue(lo);
    DigitCanonical(hi, upper);
    DigitCanonical(lo, upper);
  }

  /** The other direction of the round trip: a `#rrggbb` (or `#RRGGBB`) string
      is re-encoded in its own case from its decoded bytes unchanged, so
      decoding loses nothing. */
  lemma CanonicalRoundTrip(s: string, upper: bool)
    requires |s| == 7 && s[0] == '#'
    requires forall i :: 1 <= i <= 6 ==> IsCaseDigit(s[i], upper)
    ensures WellFormed(s)
    ensures FormatHex(PairValue(s[1], s[2]), PairValue(s[3], s[4]), PairValue(s[5], s[6]), upper) == s
    ensures ColFromHex(s) == Some(Rgb(PairValue(s[1], s[2]) as real / 256.0,
                                      PairValue(s[3], s[4]) as real / 256.0,
                                      PairValue(s[5], s[6]) as real / 256.0))
  {
    PairCanonical(s[1], s[2], upper);
    PairCanonical(s[3], s[4], upper);
    PairCanonical(s[5], s[6], upper);
  }

  /** Character 0 and everything after position 6 are never read. */
  lemma IgnoresOutside(c: string, first: char, rest: string)
    requires |c| >= 7
    ensures ColFromHex([first] + c[1..7] + rest) == ColFromHex(c)
  {
    var d := [first] + c[1..7] + rest;
    assert forall i :: 1 <= i <= 6 ==> d[i] == c[i];
  }

  lemma ChannelInjective(a: nat, b: nat)
    requires a < 256 && b < 256 && Channel(a) == Channel(b)
    ensures a == b
  {
    assert a as real == Channel(a) * 256.0 == Channel(b) * 256.0 == b as real;
  }

  /** Decoding is injective on `#rrggbb` strings spelled in one case. */
  lemma DecodeInjective(s: string, t: string, upper: bool)
    requires |s| == 7 && s[0] == '#' && forall i :: 1 <= i <= 6 ==> IsCaseDigit(s[i], upper)
    requires |t| == 7 && t[0] == '#' && forall i :: 1 <= i <= 6 ==> IsCaseDigit(t[i], upper)
    requires ColFromHex(s) == ColFromHex(t)
    ensures s == t
  {
    CanonicalRoundTrip(s, upper);
    CanonicalRoundTrip(t, upper);
    ChannelInjective(PairValue(s[1], s[2]), PairValue(t[1], t[2]));
    ChannelInjective(PairValue(s[3], s[4]), PairValue(t[3], t[4]));
    ChannelInjective(PairValue(s[5], s[6]), PairValue(t[5], t[6]));
  }

  /** `A-F` folded to `a-f`; every other character unchanged. */
  function LowerChar(c: char): char {
    if 'A' <= c <= 'F' then (c as int - 'A' as int + 'a' as int) as char else c
  }

  /** `s` with every `A-F` folded to `a-f`. */
  function LowerHex(s: string): (l: string)
    ensures |l| == |s| && forall i :: 0 <= i < |s| ==> l[i] == LowerChar(s[i])
  {
    seq(|s|, i requires 0 <= i < |s| => LowerChar(s[i]))
  }

  /** Decoding ignores the case of the digits, so a mixed-case string decodes
      like its lower-case spelling, which `CanonicalRoundTrip` ties to the
      encoder. */
  lemma DecodeIgnoresCase(s: string)
    ensures ColFromHex(LowerHex(s)) == ColFromHex(s)
  {
    var l := LowerHex(s);
    forall i | 0 <= i < |s| && IsHexDigit(s[i])
      ensures IsHexDigit(l[i]) && DigitValue(l[i]) == DigitValue(s[i])
    {
    }
    forall i | 0 <= i < |s| && !IsHexDigit(s[i])
      ensures !IsHexDigit(l[i])
    {
    }
  }

  /** The source's one upper-case colour, `#3D3D3D`, is the upper-case encoding
      of the byte 61 three times and decodes like `#3d3d3d`. */
  lemma UpperCaseColour()
    ensures FormatHex(61, 61, 61, true) == "#3D3D3D"
    ensures ColFromHex("#3D3D3D") == ColFromHex("#3d3d3d")
                                  == Some(Rgb(61.0 / 256.0, 61.0 / 256.0, 61.0 / 256.0))
  {
    var s := "#3D3D3D";
    assert forall i :: 1 <= i <= 6 ==> IsCaseDigit(s[i], true);
    CanonicalRoundTrip(s, true);
    assert LowerHex(s) == "#3d3d3d";
    DecodeIgnoresCase(s);
  }

  /** White decodes to 255/256 in every channel, not 1. */
  lemma WhiteBelowOne()
    ensures ColFromHex("#ffffff") == Some(Rgb(MaxChannel, MaxChannel, MaxChannel))
    ensures MaxChannel < 1.0
  {
  }

}
