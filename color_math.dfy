/** Hex colour encoding and shading (`rgbToHex`, `shade` in app.js).
    The JavaScript is reproduced operation by operation: `toString(16)`,
    `padStart(2, '0')`, `replace('#', '')`, `parseInt(c, 16)`, the 32-bit
    bitwise operators and the clamp `Math.max(0, Math.min(255, x))`. */
module ColorMath {
  import opened Lists
  import Text

  predicate IsByte(x: int)
  {
    0 <= x <= 255
  }

  /** The lowercase digit `Number.prototype.toString(16)` writes for `d`. */
  function HexDigit(d: int): (c: char)
    requires 0 <= d < 16
    ensures IsLowerHexDigit(c) && IsHexDigit(c) && DigitValue(c) == d
  {
    if d < 10 then ('0' as int + d) as char else ('a' as int + d - 10) as char
  }

  /** `Number.prototype.toString(16)` on a non-negative integer. */
  function NatToHex(n: nat): string
  {
    if n < 16 then [HexDigit(n)] else NatToHex(n / 16) + [HexDigit(n % 16)]
  }

  /** `Number.prototype.toString(16)` on an integer: a minus sign, then the digits. */
  function IntToHex(x: int): string
  {
    if x < 0 then "-" + NatToHex(-x) else NatToHex(x)
  }

  /** `padStart(2, '0')`. */
  function PadStart2(s: string): string
  {
    if |s| == 0 then "00" else if |s| == 1 then "0" + s else s
  }

  /** `rgbToHex(r, g, b)`: each channel through `toString(16).padStart(2, '0')`. */
  function RgbToHex(r: int, g: int, b: int): string
  {
    "#" + PadStart2(IntToHex(r)) + PadStart2(IntToHex(g)) + PadStart2(IntToHex(b))
  }

  /** The two lowercase hex digits of a byte, high nibble first. */
  function ByteHex(x: int): string
    requires IsByte(x)
  {
    [HexDigit(x / 16), HexDigit(x % 16)]
  }

  predicate IsHexDigit(c: char)
  {
    '0' <= c <= '9' || 'a' <= c <= 'f' || 'A' <= c <= 'F'
  }

  predicate IsLowerHexDigit(c: char)
  {
    '0' <= c <= '9' || 'a' <= c <= 'f'
  }

  /** `#` followed by six hex digits of either case, as in the catalogue. */
  predicate IsHexColor(h: string)
  {
    |h| == 7 && h[0] == '#' && forall i :: 1 <= i < 7 ==> IsHexDigit(h[i])
  }

  lemma SixHexDigits(h: string)
    requires |h| == 7 && h[0] == '#'
    requires IsHexDigit(h[1]) && IsHexDigit(h[2]) && IsHexDigit(h[3])
    requires IsHexDigit(h[4]) && IsHexDigit(h[5]) && IsHexDigit(h[6])
    ensures IsHexColor(h)
  {
  }

  /** `#` followed by six lowercase hex digits: what `rgbToHex` writes for bytes. */
  predicate IsCanonicalHexColor(h: string)
  {
    |h| == 7 && h[0] == '#' && forall i :: 1 <= i < 7 ==> IsLowerHexDigit(h[i])
  }

  /** For a byte, `toString(16).padStart(2, '0')` gives exactly two lowercase
      digits, high nibble first. */
  lemma PaddedByte(x: int)
    requires IsByte(x)
    ensures PadStart2(IntToHex(x)) == ByteHex(x)
  {
    if x >= 16 {
      assert NatToHex(x / 16) == [HexDigit(x / 16)];
    }
  }

  /** For channels in 0..255, `rgbToHex` gives "#" and six lowercase hex
      digits, two per channel in r, g, b order. */
  lemma RgbToHexFormat(r: int, g: int, b: int)
    requires IsByte(r) && IsByte(g) && IsByte(b)
    ensures RgbToHex(r, g, b) == "#" + ByteHex(r) + ByteHex(g) + ByteHex(b)
    ensures IsCanonicalHexColor(RgbToHex(r, g, b))
  {
    PaddedByte(r);
    PaddedByte(g);
    PaddedByte(b);
    var h := "#" + ByteHex(r) + ByteHex(g) + ByteHex(b);
    assert h == ['#', HexDigit(r / 16), HexDigit(r % 16), HexDigit(g / 16), HexDigit(g % 16),
                 HexDigit(b / 16), HexDigit(b % 16)];
  }

  function DigitValue(c: char): (v: int)
    requires IsHexDigit(c)
    ensures 0 <= v < 16
  {
    if '0' <= c <= '9' then c as int - '0' as int
    else if 'a' <= c <= 'f' then c as int - 'a' as int + 10
    else c as int - 'A' as int + 10
  }

  predicate AllHexDigits(s: string)
  {
    forall i :: 0 <= i < |s| ==> IsHexDigit(s[i])
  }

  /** The number a string of hex digits denotes, most significant digit first. */
  function HexValue(s: string): nat
    requires AllHexDigits(s)
  {
    if s == [] then 0 else HexValue(s[..|s| - 1]) * 16 + DigitValue(s[|s| - 1])
  }

  /** The longest prefix of `s` made of hex digits. */
  function HexRun(s: string): (r: string)
    ensures r <= s && AllHexDigits(r)
    ensures |r| < |s| ==> !IsHexDigit(s[|r|])
  {
    if s != [] && IsHexDigit(s[0]) then [s[0]] + HexRun(s[1..]) else []
  }

  /** `parseInt(s, 16)`: leading white space, an optional sign, an optional
      `0x`/`0X` prefix, then the longest run of hex digits; `None` is NaN. */
  function ParseIntHex(s: string): Option<int>
  {
    var t := Text.TrimStart(s);
    var negative := t != [] && t[0] == '-';
    var unsigned := if t != [] && (t[0] == '-' || t[0] == '+') then t[1..] else t;
    var body := if |unsigned| >= 2 && unsigned[0] == '0' && (unsigned[1] == 'x' || unsigned[1] == 'X')
                then unsigned[2..] else unsigned;
    var digits := HexRun(body);
    if digits == [] then None
    else
      var magnitude: int := HexValue(digits);
      Some(if negative then -magnitude else magnitude)
  }

  /** ECMAScript ToInt32 on an integer: the representative of `n` modulo 2^32
      in the signed 32-bit range. */
  function ToInt32(n: int): (r: int)
    ensures -0x8000_0000 <= r < 0x8000_0000
    ensures (n - r) % 0x1_0000_0000 == 0
  {
    var m := n % 0x1_0000_0000;
    if m >= 0x8000_0000 then m - 0x1_0000_0000 else m
  }

  /** The signed 32-bit number `shade` takes its channels from: the text
      with its first '#' removed, read by `parseInt(c, 16)`, then converted by
      the bitwise operators (which turn NaN into 0). */
  function ColorBits(hex: string): int
  {
    match ParseIntHex(Text.RemoveFirst(hex, '#'))
    case None => 0
    case Some(n) => ToInt32(n)
  }

  /** `num >> 16` (an arithmetic shift rounds down). */
  function RedOf(bits: int): int
  {
    bits / 0x1_0000
  }

  /** `(num >> 8) & 0xff`. */
  function GreenOf(bits: int): int
  {
    (bits / 0x100) % 0x100
  }

  /** `num & 0xff`. */
  function BlueOf(bits: int): int
  {
    bits % 0x100
  }

  /** `Math.max(0, Math.min(255, x))`. */
  function Clamp(x: int): (r: int)
    ensures IsByte(r)
    ensures r == x || (x < 0 && r == 0) || (x > 255 && r == 255)
  {
    var m := if 255 < x then 255 else x;
    if 0 < m then m else 0
  }

  /** `shade(hex, amt)`: every channel moved by `amt` and clamped, so the
      result is always a well-formed lowercase colour. */
  function Shade(hex: string, amt: int): (r: string)
    ensures IsCanonicalHexColor(r)
  {
    var bits := ColorBits(hex);
    var red := Clamp(RedOf(bits) + amt);
    var green := Clamp(GreenOf(bits) + amt);
    var blue := Clamp(BlueOf(bits) + amt);
    RgbToHexFormat(red, green, blue);
    RgbToHex(red, green, blue)
  }

  /** Appending the two digits of a byte multiplies by 256 and adds the byte. */
  lemma HexValueAppendByte(s: string, x: int)
    requires AllHexDigits(s) && IsByte(x)
    ensures AllHexDigits(s + ByteHex(x))
    ensures HexValue(s + ByteHex(x)) == HexValue(s) * 256 + x
  {
    var t := s + ByteHex(x);
    assert t[..|t| - 1] == s + [HexDigit(x / 16)];
    assert t[..|t| - 1][..|s|] == s;
  }

  /** A number of `n` hex digits is below 16^n. */
  lemma {:induction false} HexValueBound(s: string)
    requires AllHexDigits(s)
    ensures HexValue(s) < Pow16(|s|)
  {
    if s != [] {
      HexValueBound(s[..|s| - 1]);
    }
  }

  function Pow16(n: nat): nat
  {
    if n == 0 then 1 else 16 * Pow16(n - 1)
  }

  /** For a six-digit colour, `parseInt` reads exactly the six digits, so the
      bits are their value, below 2^24. */
  lemma {:induction false} HexColorBits(h: string)
    requires IsHexColor(h)
    ensures AllHexDigits(h[1..])
    ensures ColorBits(h) == HexValue(h[1..]) < 0x100_0000
  {
    var c := h[1..];
    assert Text.RemoveFirst(h, '#') == c;
    assert !Text.IsJsSpace(c[0]);
    assert Text.TrimStart(c) == c;
    assert c[1] != 'x' && c[1] != 'X';
    var run := HexRun(c);
    assert run == c;
    HexValueBound(c);
    assert Pow16(6) == 0x100_0000;
  }

  /** The three bytes packed as `parseInt` reads "rrggbb". */
  lemma HexValueOfBytes(r: int, g: int, b: int)
    requires IsByte(r) && IsByte(g) && IsByte(b)
    ensures AllHexDigits(ByteHex(r) + ByteHex(g) + ByteHex(b))
    ensures HexValue(ByteHex(r) + ByteHex(g) + ByteHex(b)) == r * 0x1_0000 + g * 0x100 + b
  {
    HexValueAppendByte([], r);
    assert [] + ByteHex(r) == ByteHex(r);
    HexValueAppendByte(ByteHex(r), g);
    HexValueAppendByte(ByteHex(r) + ByteHex(g), b);
  }

  /** Shifting and masking a packed colour gives back its channels. */
  lemma UnpackChannels(r: int, g: int, b: int)
    requires IsByte(r) && IsByte(g) && IsByte(b)
    ensures RedOf(r * 0x1_0000 + g * 0x100 + b) == r
    ensures GreenOf(r * 0x1_0000 + g * 0x100 + b) == g
    ensures BlueOf(r * 0x1_0000 + g * 0x100 + b) == b
  {
    var n := r * 0x1_0000 + g * 0x100 + b;
    assert n / 0x100 == r * 0x100 + g;
  }

  /** Reading back what `rgbToHex` wrote recovers each channel. */
  lemma RgbToHexBits(r: int, g: int, b: int)
    requires IsByte(r) && IsByte(g) && IsByte(b)
    ensures ColorBits(RgbToHex(r, g, b)) == r * 0x1_0000 + g * 0x100 + b
    ensures RedOf(ColorBits(RgbToHex(r, g, b))) == r
    ensures GreenOf(ColorBits(RgbToHex(r, g, b))) == g
    ensures BlueOf(ColorBits(RgbToHex(r, g, b))) == b
  {
    RgbToHexFormat(r, g, b);
    var h := RgbToHex(r, g, b);
    var digits := ByteHex(r) + ByteHex(g) + ByteHex(b);
    assert h[1..] == digits;
    HexColorBits(h);
    HexValueOfBytes(r, g, b);
    var n := r * 0x1_0000 + g * 0x100 + b;
    assert ColorBits(h) == n;
    UnpackChannels(r, g, b);
  }

  /** `shade(rgbToHex(r, g, b), 0) == rgbToHex(r, g, b)`: parsing, shifting and
      masking recover each channel, and a zero shift changes nothing. */
  lemma ShadeZeroRoundTrip(r: int, g: int, b: int)
    requires IsByte(r) && IsByte(g) && IsByte(b)
    ensures Shade(RgbToHex(r, g, b), 0) == RgbToHex(r, g, b)
  {
    RgbToHexBits(r, g, b);
  }

  /** The colour `shade` writes reads back as the input's channels shifted by
      `amt` and clamped to 0..255. */
  lemma ShadeChannels(hex: string, amt: int)
    ensures var bits := ColorBits(Shade(hex, amt));
      && RedOf(bits) == Clamp(RedOf(ColorBits(hex)) + amt)
      && GreenOf(bits) == Clamp(GreenOf(ColorBits(hex)) + amt)
      && BlueOf(bits) == Clamp(BlueOf(ColorBits(hex)) + amt)
  {
    var bits := ColorBits(hex);
    RgbToHexBits(Clamp(RedOf(bits) + amt), Clamp(GreenOf(bits) + amt), Clamp(BlueOf(bits) + amt));
  }

  /** On a six-digit colour every channel is a byte. */
  lemma HexColorChannels(h: string)
    requires IsHexColor(h)
    ensures IsByte(RedOf(ColorBits(h))) && IsByte(GreenOf(ColorBits(h))) && IsByte(BlueOf(ColorBits(h)))
  {
    HexColorBits(h);
  }

  /** Black and white as `rgbToHex` writes them. */
  lemma BlackAndWhite()
    ensures RgbToHex(0, 0, 0) == "#000000"
    ensures RgbToHex(255, 255, 255) == "#ffffff"
  {
    RgbToHexFormat(0, 0, 0);
    RgbToHexFormat(255, 255, 255);
  }

  /** On a six-digit colour a shift of at least 255 either way saturates every
      channel: `shade(h, -300)` is black and `shade(h, 300)` is white. */
  lemma ShadeSaturates(h: string, amt: int)
    requires IsHexColor(h)
    ensures amt <= -255 ==> Shade(h, amt) == "#000000"
    ensures amt >= 255 ==> Shade(h, amt) == "#ffffff"
  {
    HexColorChannels(h);
    BlackAndWhite();
    var bits := ColorBits(h);
    var red, green, blue := RedOf(bits) + amt, GreenOf(bits) + amt, BlueOf(bits) + amt;
    assert Shade(h, amt) == RgbToHex(Clamp(red), Clamp(green), Clamp(blue));
    if amt <= -255 {
      assert Clamp(red) == 0 && Clamp(green) == 0 && Clamp(blue) == 0;
    } else if amt >= 255 {
      assert Clamp(red) == 255 && Clamp(green) == 255 && Clamp(blue) == 255;
    }
  }
}
