/** `colorToRGB` and `colorToNormalizeRGB`: a `#rrggbb` colour string read as
    three channels, as integers 0..255 and as fractions of 255. Only
    well-formed strings are modelled: `#` and six hexadecimal digits, with
    anything after them ignored. */
module ColorToRGB {

  /** The `RGB` interface: three JavaScript numbers. */
  datatype RGB = RGB(r: real, g: real, b: real)

  predicate IsHexDigit(c: char) {
    '0' <= c <= '9' || 'a' <= c <= 'f' || 'A' <= c <= 'F'
  }

  predicate IsHexString(s: string) {
    forall i :: 0 <= i < |s| ==> IsHexDigit(s[i])
  }

  /** The value of one hexadecimal digit, in either case. */
  function HexValue(c: char): (v: nat)
    requires IsHexDigit(c)
    ensures v < 16
  {
    if c <= '9' then c as int - '0' as int
    else if 'a' <= c then c as int - 'a' as int + 10
    else c as int - 'A' as int + 10
  }

  function Pow16(k: nat): (p: nat)
    ensures p >= 1
  {
    if k == 0 then 1 else 16 * Pow16(k - 1)
  }

  /** `parseInt(s, 16)` on a non-empty string of hexadecimal digits: the
      digits read most significant first. */
  function ParseHex(s: string): (v: nat)
    requires |s| >= 1 && IsHexString(s)
    ensures v < Pow16(|s|)
  {
    if |s| == 1 then HexValue(s[0]) else 16 * ParseHex(s[..|s| - 1]) + HexValue(s[|s| - 1])
  }

  /** A two-digit string is worth 16 times its first digit plus its second. */
  lemma ParsePair(s: string)
    requires |s| == 2 && IsHexString(s)
    ensures ParseHex(s) == 16 * HexValue(s[0]) + HexValue(s[1])
  {
    assert s[..1] == [s[0]];
  }

  /** A `colorStr` that starts with `#` and six hexadecimal digits. */
  predicate IsColorStr(color: string) {
    |color| >= 7 && color[0] == '#' && IsHexString(color[1..7])
  }

  /** `colorToRGB`: r from characters 1-2, g from 3-4, b from 5-6. */
  function ColorToRGB(color: string): (rgb: RGB)
    requires IsColorStr(color)
    ensures rgb.r == (16 * HexValue(color[1]) + HexValue(color[2])) as real
    ensures rgb.g == (16 * HexValue(color[3]) + HexValue(color[4])) as real
    ensures rgb.b == (16 * HexValue(color[5]) + HexValue(color[6])) as real
    ensures 0.0 <= rgb.r <= 255.0 && 0.0 <= rgb.g <= 255.0 && 0.0 <= rgb.b <= 255.0
  {
    assert forall i :: 1 <= i < 7 ==> IsHexDigit(color[i]) by {
      forall i | 1 <= i < 7 ensures IsHexDigit(color[i]) {
        assert color[i] == color[1..7][i - 1];
      }
    }
    ParsePair(color[1..3]);
    ParsePair(color[3..5]);
    ParsePair(color[5..7]);
    RGB(ParseHex(color[1..3]) as real, ParseHex(color[3..5]) as real, ParseHex(color[5..7]) as real)
  }

  /** Characters after the sixth digit do not change the result. */
  lemma IgnoresTail(color: string, tail: string)
    requires IsColorStr(color)
    ensures IsColorStr(color + tail)
    ensures ColorToRGB(color + tail) == ColorToRGB(color)
  {
    assert (color + tail)[1..7] == color[1..7];
  }

  /** A channel divided by 255. */
  function Normalized(c: RGB): RGB {
    RGB(c.r / 255.0, c.g / 255.0, c.b / 255.0)
  }

  /** `colorToNormalizeRGB`: the result of `colorToRGB`, with each channel
      divided by 255 in place. */
  method ColorToNormalizeRGB(color: string) returns (res: RGB)
    requires IsColorStr(color)
    ensures res == Normalized(ColorToRGB(color))
    ensures 255.0 * res.r == ColorToRGB(color).r && 255.0 * res.g == ColorToRGB(color).g
    ensures 255.0 * res.b == ColorToRGB(color).b
    ensures 0.0 <= res.r <= 1.0 && 0.0 <= res.g <= 1.0 && 0.0 <= res.b <= 1.0
  {
    res := ColorToRGB(color);
    res := res.(r := res.r / 255.0);
    res := res.(g := res.g / 255.0);
    res := res.(b := res.b / 255.0);
  }

  /** The colour-interpolation page's default top colour is pure red. */
  lemma DefaultRed()
    ensures IsColorStr("#ff0000") && Normalized(ColorToRGB("#ff0000")) == RGB(1.0, 0.0, 0.0)
  {
    var s := "#ff0000";
    assert s[1..7] == "ff0000";
    assert s[1] == s[2] == 'f' && s[3] == s[4] == s[5] == s[6] == '0';
    assert HexValue('f') == 15 && HexValue('0') == 0;
  }

  /** The default left colour is pure green. */
  lemma DefaultGreen()
    ensures IsColorStr("#00ff00") && Normalized(ColorToRGB("#00ff00")) == RGB(0.0, 1.0, 0.0)
  {
    var s := "#00ff00";
    assert s[1..7] == "00ff00";
    assert s[3] == s[4] == 'f' && s[1] == s[2] == s[5] == s[6] == '0';
    assert HexValue('f') == 15 && HexValue('0') == 0;
  }

  /** The default right colour is pure blue. */
  lemma DefaultBlue()
    ensures IsColorStr("#0000ff") && Normalized(ColorToRGB("#0000ff")) == RGB(0.0, 0.0, 1.0)
  {
    var s := "#0000ff";
    assert s[1..7] == "0000ff";
    assert s[5] == s[6] == 'f' && s[1] == s[2] == s[3] == s[4] == '0';
    assert HexValue('f') == 15 && HexValue('0') == 0;
  }

  // A formatter, as the colour picker writes `#rrggbb`, to state the round trip.

  function HexChar(d: nat): (c: char)
    requires d < 16
    ensures IsHexDigit(c) && HexValue(c) == d
  {
    "0123456789abcdef"[d]
  }

  function FormatByte(v: nat): (s: string)
    requires v < 256
    ensures |s| == 2 && IsHexString(s)
  {
    [HexChar(v / 16), HexChar(v % 16)]
  }

  function FormatColor(r: nat, g: nat, b: nat): (color: string)
    requires r < 256 && g < 256 && b < 256
    ensures IsColorStr(color)
  {
    var s := "#" + FormatByte(r) + FormatByte(g) + FormatByte(b);
    assert s[1..7] == FormatByte(r) + FormatByte(g) + FormatByte(b);
    s
  }

  /** Reading a formatted colour gives back its three channels. */
  lemma RoundTrip(r: nat, g: nat, b: nat)
    requires r < 256 && g < 256 && b < 256
    ensures ColorToRGB(FormatColor(r, g, b)) == RGB(r as real, g as real, b as real)
  {
    var color := FormatColor(r, g, b);
    assert color[1] == HexChar(r / 16) && color[2] == HexChar(r % 16);
    assert color[3] == HexChar(g / 16) && color[4] == HexChar(g % 16);
    assert color[5] == HexChar(b / 16) && color[6] == HexChar(b % 16);
  }
}
