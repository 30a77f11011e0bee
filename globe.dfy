/** The globe's small helpers: reading a `#rrggbb` colour into channels,
    brightening a colour towards white, the hover label, how each map
    polygon gets its country code and book count, and the click guard. */
module Globe {
  import opened Wrappers
  import Text
  import Colors

  // ----- hexadecimal text -----

  predicate IsHexDigit(c: char) {
    ('0' <= c <= '9') || ('a' <= c <= 'f') || ('A' <= c <= 'F')
  }

  predicate IsLowerHexDigit(c: char) {
    ('0' <= c <= '9') || ('a' <= c <= 'f')
  }

  predicate AllHexDigits(s: string) {
    forall k | 0 <= k < |s| :: IsHexDigit(s[k])
  }

  function HexDigitValue(c: char): (d: nat)
    requires IsHexDigit(c)
    ensures d < 16
  {
    if '0' <= c <= '9' then (c as int) - ('0' as int)
    else if 'a' <= c <= 'f' then (c as int) - ('a' as int) + 10
    else (c as int) - ('A' as int) + 10
  }

  /** The digit `Number.prototype.toString(16)` writes: lower case. */
  function HexDigitChar(d: nat): (c: char)
    requires d < 16
    ensures IsLowerHexDigit(c) && IsHexDigit(c) && HexDigitValue(c) == d
  {
    ['0', '1', '2', '3', '4', '5', '6', '7', '8', '9', 'a', 'b', 'c', 'd', 'e', 'f'][d]
  }

  /** The value of a string of hexadecimal digits. */
  function HexValue(s: string): nat
    requires AllHexDigits(s)
  {
    if s == [] then 0 else 16 * HexValue(s[..|s| - 1]) + HexDigitValue(s[|s| - 1])
  }

  function Pow16(k: nat): nat {
    if k == 0 then 1 else 16 * Pow16(k - 1)
  }

  lemma Pow16Six()
    ensures Pow16(6) == 0x100_0000
  {
    assert Pow16(2) == 256;
    assert Pow16(4) == 0x1_0000;
  }

  /** `k` hexadecimal digits hold a value below 16^k. */
  lemma {:induction false} HexValueBound(s: string)
    requires AllHexDigits(s)
    ensures HexValue(s) < Pow16(|s|)
  {
    if s != [] {
      HexValueBound(s[..|s| - 1]);
    }
  }

  /** `n.toString(16)` for a natural number: lower-case digits, no leading
      zero, reading back to `n`. */
  function NatToHex(n: nat): (r: string)
    ensures |r| >= 1 && AllHexDigits(r)
    ensures forall k | 0 <= k < |r| :: IsLowerHexDigit(r[k])
    ensures HexValue(r) == n
  {
    if n < 16 then [HexDigitChar(n)]
    else
      var front := NatToHex(n / 16);
      var r := front + [HexDigitChar(n % 16)];
      assert r[..|r| - 1] == front;
      r
  }

  /** A value below 16^k takes at most `k` digits. */
  lemma {:induction false} NatToHexWidth(n: nat, k: nat)
    requires k >= 1 && n < Pow16(k)
    ensures |NatToHex(n)| <= k
  {
    if n >= 16 {
      NatToHexWidth(n / 16, k - 1);
    }
  }

  /** `s.padStart(width, '0')`. */
  function PadStartZeros(s: string, width: nat): (r: string)
    ensures |s| >= width ==> r == s
    ensures |s| < width ==> |r| == width && r[width - |s|..] == s
    ensures |s| < width ==> forall k | 0 <= k < width - |s| :: r[k] == '0'
  {
    if |s| >= width then s else seq(width - |s|, _ => '0') + s
  }

  /** Leading zeros do not change a hexadecimal value. */
  lemma {:induction false} LeadingZerosValue(zeros: string, s: string)
    requires forall k | 0 <= k < |zeros| :: zeros[k] == '0'
    requires AllHexDigits(s)
    ensures AllHexDigits(zeros + s)
    ensures HexValue(zeros + s) == HexValue(s)
  {
    if s == [] {
      assert zeros + s == zeros;
      ZerosValue(zeros);
    } else {
      var front := s[..|s| - 1];
      assert (zeros + s)[..|zeros + s| - 1] == zeros + front;
      LeadingZerosValue(zeros, front);
    }
  }

  lemma {:induction false} ZerosValue(zeros: string)
    requires forall k | 0 <= k < |zeros| :: zeros[k] == '0'
    ensures AllHexDigits(zeros) && HexValue(zeros) == 0
  {
    if zeros != [] {
      ZerosValue(zeros[..|zeros| - 1]);
    }
  }

  /** The longest run of hexadecimal digits at the start of `s`. */
  function LeadingHexDigits(s: string): (r: string)
    ensures |r| <= |s| && r == s[..|r|]
    ensures AllHexDigits(r)
    ensures |r| == |s| || !IsHexDigit(s[|r|])
  {
    if s != [] && IsHexDigit(s[0]) then [s[0]] + LeadingHexDigits(s[1..]) else []
  }

  lemma {:induction false} LeadingHexDigitsAll(s: string)
    requires AllHexDigits(s)
    ensures LeadingHexDigits(s) == s
  {
    if s != [] {
      LeadingHexDigitsAll(s[1..]);
    }
  }

  /** `parseInt(s, 16)`: skip leading white space, read an optional sign,
      drop a `0x`/`0X` prefix, then read the leading hexadecimal digits;
      `None` stands for `NaN`. */
  function ParseHex(s: string): (r: Option<int>)
    ensures Text.TrimStart(s) == [] ==> r.None?
    ensures s == [] || !(IsHexDigit(s[0]) || Text.IsWhitespace(s[0]) || s[0] == '-' || s[0] == '+') ==> r.None?
  {
    var t := Text.TrimStart(s);
    var negative := t != [] && t[0] == '-';
    var unsigned := if t != [] && (t[0] == '-' || t[0] == '+') then t[1..] else t;
    var body := if |unsigned| >= 2 && unsigned[0] == '0' && (unsigned[1] == 'x' || unsigned[1] == 'X')
      then unsigned[2..] else unsigned;
    var digits := LeadingHexDigits(body);
    var value: int := if digits == [] then 0 else HexValue(digits);
    if digits == [] then None
    else if negative then Some(-value)
    else Some(value)
  }

  /** A run of hexadecimal digits parses to its value. */
  lemma ParseHexDigits(d: string)
    requires d != [] && AllHexDigits(d)
    ensures ParseHex(d) == Some(HexValue(d))
  {
    HexDigitIsPlain(d[0]);
    if |d| >= 2 {
      HexDigitIsPlain(d[1]);
    }
    Text.TrimStartKeeps(d);
    LeadingHexDigitsAll(d);
    var t := Text.TrimStart(d);
    assert t == d;
    assert !(t != [] && (t[0] == '-' || t[0] == '+'));
    assert !(|t| >= 2 && t[0] == '0' && (t[1] == 'x' || t[1] == 'X'));
    assert LeadingHexDigits(t) == d;
  }

  /** A hexadecimal digit is neither white space, a sign nor the `x` of a
      `0x` prefix. */
  lemma HexDigitIsPlain(c: char)
    requires IsHexDigit(c)
    ensures !Text.IsWhitespace(c) && c != '-' && c != '+' && c != 'x' && c != 'X'
  {
  }

  /** `s.replace(c, "")` with a one-character pattern: the first occurrence
      of `c` is removed. */
  function RemoveFirst(s: string, c: char): (r: string)
    ensures Text.IndexOf(s, c).None? ==> r == s
    ensures |s| > 0 && s[0] == c ==> r == s[1..]
    ensures Text.IndexOf(s, c).Some? ==> r == s[..Text.IndexOf(s, c).value] + s[Text.IndexOf(s, c).value + 1..]
    ensures Text.IndexOf(s, c).Some? ==> |r| == |s| - 1 && multiset(r) + multiset{c} == multiset(s)
  {
    match Text.IndexOf(s, c)
    case None => s
    case Some(i) =>
      assert s == s[..i] + [s[i]] + s[i + 1..];
      s[..i] + s[i + 1..]
  }

  /** A CSS colour `#rrggbb`. */
  predicate IsHexColor(s: string) {
    |s| == 7 && s[0] == '#' && AllHexDigits(s[1..])
  }

  // ----- channels -----

  datatype Rgb = Rgb(red: int, green: int, blue: int)

  predicate IsByte(x: int) {
    0 <= x < 256
  }

  /** ECMAScript ToInt32 of a parsed number; `NaN` becomes 0. */
  function ToInt32(num: Option<int>): int {
    match num
    case None => 0
    case Some(v) => Colors.Wrap32(v)
  }

  /** `(num >> 16) & 255`, `(num >> 8) & 255` and `num & 255`: the shift is
      an arithmetic shift of the 32-bit value, the mask keeps the low byte. */
  function ChannelsOf(num: Option<int>): (c: Rgb)
    ensures IsByte(c.red) && IsByte(c.green) && IsByte(c.blue)
  {
    var i := ToInt32(num);
    Rgb((i / 0x1_0000) % 256, (i / 256) % 256, i % 256)
  }

  /** Euclidean division by a positive divisor has one quotient and one
      remainder. */
  lemma DivModUnique(n: int, d: int, q: int, r: int)
    requires 0 < d && 0 <= r < d && n == q * d + r
    ensures n / d == q && n % d == r
  {
    var q0, r0 := n / d, n % d;
    assert q0 * d + r0 == n;
    assert (q - q0) * d == r0 - r;
    if q > q0 {
      assert (q - q0) * d >= d by { MulAtLeast(q - q0, d); }
    } else if q < q0 {
      assert (q0 - q) * d >= d by { MulAtLeast(q0 - q, d); }
    }
  }

  lemma MulAtLeast(k: int, d: int)
    requires k >= 1 && d > 0
    ensures k * d >= d
  {
  }

  /** The channels of a 24-bit value put it back together. */
  lemma ChannelsSplit(n: int)
    requires 0 <= n < 0x100_0000
    ensures var c := ChannelsOf(Some(n)); 0x1_0000 * c.red + 256 * c.green + c.blue == n
  {
    assert Colors.Wrap32(n) == n;
    var r := n / 0x1_0000;
    var rest := n % 0x1_0000;
    var g := rest / 256;
    var b := rest % 256;
    assert n == r * 0x1_0000 + rest;
    assert rest == g * 256 + b;
    DivModUnique(n, 256, r * 256 + g, b);
    DivModUnique(r * 256 + g, 256, r, g);
  }

  /** Three bytes put together come back apart as the same bytes. */
  lemma ChannelsOfBytes(r: int, g: int, b: int)
    requires IsByte(r) && IsByte(g) && IsByte(b)
    ensures 0 <= 0x1_0000 * r + 256 * g + b < 0x100_0000
    ensures ChannelsOf(Some(0x1_0000 * r + 256 * g + b)) == Rgb(r, g, b)
  {
    var n := 0x1_0000 * r + 256 * g + b;
    assert Colors.Wrap32(n) == n;
    DivModUnique(n, 0x1_0000, r, 256 * g + b);
    DivModUnique(n, 256, 256 * r + g, b);
    DivModUnique(256 * r + g, 256, r, g);
  }

  /** The channels `hexToRgba` reads from a colour string. */
  function HexChannels(hex: string): Rgb {
    ChannelsOf(ParseHex(RemoveFirst(hex, '#')))
  }

  /** A `#rrggbb` colour reads as its 24-bit value. */
  lemma HexColorValue(hex: string)
    requires IsHexColor(hex)
    ensures ParseHex(RemoveFirst(hex, '#')) == Some(HexValue(hex[1..]))
    ensures HexValue(hex[1..]) < 0x100_0000
  {
    ParseHexDigits(hex[1..]);
    HexValueBound(hex[1..]);
    Pow16Six();
  }

  /** `hexToRgba`: `rgba(r, g, b, alpha)`, where `alphaText` is how the
      alpha number renders. Every channel is a byte, and for a `#rrggbb`
      colour the channels put back together give its value. */
  function HexToRgba(hex: string, alphaText: string): (r: string)
    ensures var c := HexChannels(hex);
      IsByte(c.red) && IsByte(c.green) && IsByte(c.blue)
      && r == "rgba(" + Text.NatToString(c.red) + ", " + Text.NatToString(c.green) + ", "
        + Text.NatToString(c.blue) + ", " + alphaText + ")"
    ensures IsHexColor(hex) ==>
      var c := HexChannels(hex); 0x1_0000 * c.red + 256 * c.green + c.blue == HexValue(hex[1..])
  {
    var c := HexChannels(hex);
    var text := "rgba(" + Text.NatToString(c.red) + ", " + Text.NatToString(c.green) + ", "
      + Text.NatToString(c.blue) + ", " + alphaText + ")";
    if IsHexColor(hex) then
      HexColorValue(hex);
      ChannelsSplit(HexValue(hex[1..]));
      text
    else
      text
  }

  // ----- brightening -----

  /** `Math.min(255, Math.floor(c + (255 - c) * percent))`. */
  function BrightenChannel(c: int, percent: real): (r: int)
    ensures r <= 255
    ensures IsByte(c) && 0.0 <= percent <= 1.0 ==> c <= r
    ensures percent == 0.0 ==> r == if c < 255 then c else 255
  {
    var x := (c as real) + ((255 - c) as real) * percent;
    assert IsByte(c) && 0.0 <= percent ==> ((255 - c) as real) * percent >= 0.0;
    var f := x.Floor;
    if f < 255 then f else 255
  }

  /** Bitwise OR of two natural numbers, bit by bit. */
  function BitOr(a: nat, b: nat): nat
    decreases a + b
  {
    if a == 0 then b
    else if b == 0 then a
    else 2 * BitOr(a / 2, b / 2) + (if a % 2 == 1 || b % 2 == 1 then 1 else 0)
  }

  function Pow2(k: nat): nat {
    if k == 0 then 1 else 2 * Pow2(k - 1)
  }

  lemma Pow2Bytes()
    ensures Pow2(8) == 256 && Pow2(16) == 0x1_0000
  {
    assert Pow2(2) == 4;
    assert Pow2(4) == 16;
    assert Pow2(6) == 64;
    assert Pow2(8) == 256;
    assert Pow2(10) == 1024;
    assert Pow2(12) == 4096;
    assert Pow2(14) == 16384;
  }

  /** OR-ing a value shifted left by `k` with one below 2^k adds them: the
      bits do not overlap. */
  lemma {:induction false} BitOrDisjoint(a: nat, b: nat, k: nat)
    requires b < Pow2(k)
    ensures BitOr(a * Pow2(k), b) == a * Pow2(k) + b
  {
    if k == 0 {
      assert b == 0;
    } else if a != 0 && b != 0 {
      var h := a * Pow2(k - 1);
      assert a * Pow2(k) == 2 * h;
      assert (2 * h) / 2 == h && (2 * h) % 2 == 0;
      BitOrDisjoint(a, b / 2, k - 1);
    }
  }

  /** JavaScript `x | y` on numbers: both are taken as 32-bit patterns, and
      the result is read back as a signed 32-bit integer. */
  function Or32(x: int, y: int): int {
    Colors.Wrap32(BitOr(x % 0x1_0000_0000, y % 0x1_0000_0000))
  }

  /** `(r << 16) | (g << 8) | b`. */
  function Pack(r: int, g: int, b: int): int {
    Or32(Or32(Colors.Wrap32(r * 0x1_0000), Colors.Wrap32(g * 256)), b)
  }

  /** OR-ing the low bits `b` below a value shifted by `k` adds them, also
      as a 32-bit operation, as long as the sum fits in 31 bits. */
  lemma Or32Disjoint(a: nat, b: nat, k: nat)
    requires b < Pow2(k) && a * Pow2(k) + b < 0x8000_0000
    ensures Or32(a * Pow2(k), b) == a * Pow2(k) + b
  {
    var x := a * Pow2(k);
    assert x % 0x1_0000_0000 == x;
    assert b % 0x1_0000_0000 == b;
    BitOrDisjoint(a, b, k);
  }

  /** On bytes, packing is placing them side by side. */
  lemma PackBytes(r: int, g: int, b: int)
    requires IsByte(r) && IsByte(g) && IsByte(b)
    ensures Pack(r, g, b) == 0x1_0000 * r + 256 * g + b
  {
    Pow2Bytes();
    var x, y := r * 0x1_0000, g * 256;
    assert Colors.Wrap32(x) == x && Colors.Wrap32(y) == y;
    Or32Disjoint(r, y, 16);
    Or32Disjoint(256 * r + g, b, 8);
    assert (256 * r + g) * Pow2(8) == x + y;
  }

  /** `Number.prototype.toString(16)` of an integer. */
  function IntToHex(v: int): string {
    if v < 0 then "-" + NatToHex(-v) else NatToHex(v)
  }

  /** The three brightened channels of a 32-bit value; the red channel is
      `num >> 16` without a mask. */
  function BrightenRgb(i: int, percent: real): Rgb {
    Rgb(BrightenChannel(i / 0x1_0000, percent), BrightenChannel((i / 256) % 256, percent),
      BrightenChannel(i % 256, percent))
  }

  /** `#` and the packed channels in hexadecimal, padded to six digits. */
  function RgbHex(c: Rgb): string {
    "#" + PadStartZeros(IntToHex(Pack(c.red, c.green, c.blue)), 6)
  }

  /** `brightenColor`: each channel moves `percent` of the way to 255
      (rounded down, at most 255), and the result is written back. */
  function BrightenColor(hex: string, percent: real): (r: string)
    ensures |r| >= 7 && r[0] == '#'
  {
    RgbHex(BrightenRgb(ToInt32(ParseHex(RemoveFirst(hex, '#'))), percent))
  }

  /** Three bytes written as a colour give a `#rrggbb` colour of six
      lower-case digits that reads back as the same bytes. */
  lemma RgbHexOfBytes(c: Rgb)
    requires IsByte(c.red) && IsByte(c.green) && IsByte(c.blue)
    ensures IsHexColor(RgbHex(c))
    ensures forall k | 1 <= k < 7 :: IsLowerHexDigit(RgbHex(c)[k])
    ensures HexChannels(RgbHex(c)) == c
  {
    PackBytes(c.red, c.green, c.blue);
    ChannelsOfBytes(c.red, c.green, c.blue);
    var m := 0x1_0000 * c.red + 256 * c.green + c.blue;
    PaddedHex(m);
    var padded := PadStartZeros(IntToHex(m), 6);
    var out := "#" + padded;
    assert out[1..] == padded;
    HexColorValue(out);
  }

  /** A 24-bit value written as `toString(16)` padded to six digits is six
      lower-case hexadecimal digits that read back as the value. */
  lemma PaddedHex(m: int)
    requires 0 <= m < 0x100_0000
    ensures var t := PadStartZeros(IntToHex(m), 6);
      && |t| == 6 && AllHexDigits(t) && HexValue(t) == m
      && forall k | 0 <= k < 6 :: IsLowerHexDigit(t[k])
  {
    var digits := NatToHex(m);
    Pow16Six();
    NatToHexWidth(m, 6);
    var padded := PadStartZeros(digits, 6);
    if |digits| < 6 {
      var zeros := padded[..6 - |digits|];
      assert padded == zeros + digits;
      LeadingZerosValue(zeros, digits);
    }
  }

  /** Brightening a 24-bit value brightens each of its channels and keeps
      them bytes. */
  lemma BrightenValue(n: int, percent: real)
    requires 0 <= n < 0x100_0000 && 0.0 <= percent <= 1.0
    ensures var before, c := ChannelsOf(Some(n)), BrightenRgb(Colors.Wrap32(n), percent);
      && c == Rgb(BrightenChannel(before.red, percent), BrightenChannel(before.green, percent),
                  BrightenChannel(before.blue, percent))
      && IsByte(c.red) && IsByte(c.green) && IsByte(c.blue)
      && before.red <= c.red && before.green <= c.green && before.blue <= c.blue
      && (percent == 0.0 ==> c == before)
  {
    var i := Colors.Wrap32(n);
    assert i == n;
    var r0 := i / 0x1_0000;
    assert 0 <= r0 < 256;
    assert r0 % 256 == r0;
    var before := ChannelsOf(Some(n));
    assert before.red == r0;
    assert before.green == (i / 256) % 256;
    assert before.blue == i % 256;
  }

  /** For a `#rrggbb` colour and a percentage in [0, 1], brightening gives
      another `#rrggbb` colour (six lower-case digits) whose channels are
      the brightened channels, each between the original channel and 255;
      0% gives the same colour. */
  lemma BrightenHexColor(hex: string, percent: real)
    requires IsHexColor(hex) && 0.0 <= percent <= 1.0
    ensures IsHexColor(BrightenColor(hex, percent))
    ensures forall k | 1 <= k < 7 :: IsLowerHexDigit(BrightenColor(hex, percent)[k])
    ensures var before, after := HexChannels(hex), HexChannels(BrightenColor(hex, percent));
      && after == Rgb(BrightenChannel(before.red, percent), BrightenChannel(before.green, percent),
                      BrightenChannel(before.blue, percent))
      && before.red <= after.red <= 255
      && before.green <= after.green <= 255
      && before.blue <= after.blue <= 255
    ensures percent == 0.0 ==> HexChannels(BrightenColor(hex, percent)) == HexChannels(hex)
  {
    HexColorValue(hex);
    var n := HexValue(hex[1..]);
    var c := BrightenRgb(Colors.Wrap32(n), percent);
    assert HexChannels(hex) == ChannelsOf(Some(n));
    assert BrightenColor(hex, percent) == RgbHex(c);
    BrightenValue(n, percent);
    RgbHexOfBytes(c);
  }

  // ----- polygons -----

  /** Country code of each world-atlas feature id. */
  const IdToIso: map<string, string> := map[
    "004" := "AF", "008" := "AL", "010" := "AQ", "012" := "DZ", "016" := "AS", "020" := "AD",
    "024" := "AO", "028" := "AG", "031" := "AZ", "032" := "AR", "036" := "AU", "040" := "AT",
    "044" := "BS", "048" := "BH", "050" := "BD", "051" := "AM", "052" := "BB", "056" := "BE",
    "060" := "BM", "064" := "BT", "068" := "BO", "070" := "BA", "072" := "BW", "076" := "BR",
    "084" := "BZ", "090" := "SB", "092" := "VG", "096" := "BN", "100" := "BG", "104" := "MM",
    "108" := "BI", "112" := "BY", "116" := "KH", "120" := "CM", "124" := "CA", "132" := "CV",
    "140" := "CF", "144" := "LK", "148" := "TD", "152" := "CL", "156" := "CN", "158" := "TW",
    "170" := "CO", "174" := "KM", "178" := "CG", "180" := "CD", "188" := "CR", "191" := "HR",
    "192" := "CU", "196" := "CY", "203" := "CZ", "204" := "BJ", "208" := "DK", "212" := "DM",
    "214" := "DO", "218" := "EC", "222" := "SV", "226" := "GQ", "231" := "ET", "232" := "ER",
    "233" := "EE", "234" := "FO", "238" := "FK", "242" := "FJ", "246" := "FI", "250" := "FR",
    "254" := "GF", "258" := "PF", "262" := "DJ", "266" := "GA", "268" := "GE", "270" := "GM",
    "275" := "PS", "276" := "DE", "288" := "GH", "296" := "KI", "300" := "GR", "304" := "GL",
    "308" := "GD", "312" := "GP", "316" := "GU", "320" := "GT", "324" := "GN", "328" := "GY",
    "332" := "HT", "340" := "HN", "344" := "HK", "348" := "HU", "352" := "IS", "356" := "IN",
    "360" := "ID", "364" := "IR", "368" := "IQ", "372" := "IE", "376" := "IL", "380" := "IT",
    "384" := "CI", "388" := "JM", "392" := "JP", "398" := "KZ", "400" := "JO", "404" := "KE",
    "408" := "KP", "410" := "KR", "414" := "KW", "417" := "KG", "418" := "LA", "422" := "LB",
    "426" := "LS", "428" := "LV", "430" := "LR", "434" := "LY", "438" := "LI", "440" := "LT",
    "442" := "LU", "446" := "MO", "450" := "MG", "454" := "MW", "458" := "MY", "462" := "MV",
    "466" := "ML", "470" := "MT", "474" := "MQ", "478" := "MR", "480" := "MU", "484" := "MX",
    "492" := "MC", "496" := "MN", "498" := "MD", "499" := "ME", "504" := "MA", "508" := "MZ",
    "512" := "OM", "516" := "NA", "520" := "NR", "524" := "NP", "528" := "NL", "531" := "CW",
    "533" := "AW", "540" := "NC", "548" := "VU", "554" := "NZ", "558" := "NI", "562" := "NE",
    "566" := "NG", "570" := "NU", "574" := "NF", "578" := "NO", "580" := "MP", "583" := "FM",
    "584" := "MH", "585" := "PW", "586" := "PK", "591" := "PA", "598" := "PG", "600" := "PY",
    "604" := "PE", "608" := "PH", "612" := "PN", "616" := "PL", "620" := "PT", "624" := "GW",
    "626" := "TL", "630" := "PR", "634" := "QA", "638" := "RE", "642" := "RO", "643" := "RU",
    "646" := "RW", "652" := "BL", "654" := "SH", "659" := "KN", "660" := "AI", "662" := "LC",
    "663" := "MF", "666" := "PM", "670" := "VC", "674" := "SM", "678" := "ST", "682" := "SA",
    "686" := "SN", "688" := "RS", "690" := "SC", "694" := "SL", "702" := "SG", "703" := "SK",
    "704" := "VN", "705" := "SI", "706" := "SO", "710" := "ZA", "716" := "ZW", "724" := "ES",
    "728" := "SS", "729" := "SD", "732" := "EH", "740" := "SR", "744" := "SJ", "748" := "SZ",
    "752" := "SE", "756" := "CH", "760" := "SY", "762" := "TJ", "764" := "TH", "768" := "TG",
    "772" := "TK", "776" := "TO", "780" := "TT", "784" := "AE", "788" := "TN", "792" := "TR",
    "795" := "TM", "796" := "TC", "798" := "TV", "800" := "UG", "804" := "UA", "807" := "MK",
    "818" := "EG", "826" := "GB", "831" := "GG", "832" := "JE", "833" := "IM", "834" := "TZ",
    "840" := "US", "850" := "VI", "854" := "BF", "858" := "UY", "860" := "UZ", "862" := "VE",
    "876" := "WF", "882" := "WS", "887" := "YE", "894" := "ZM"
  ]

  /** The properties of a map feature the globe reads; a missing or
      non-string property is `None`. */
  datatype Feature = Feature(id: Option<string>, isoA2: Option<string>, name: Option<string>, nameUpper: Option<string>)

  /** The properties the globe attaches to each polygon. */
  datatype PolygonProps = PolygonProps(featureId: string, countryCode: string, countryName: string, bookCount: int, color: string)

  /** `table[key]`, or `None` when the key is absent. */
  function Lookup(table: map<string, string>, key: string): Option<string> {
    if key in table then Some(table[key]) else None
  }

  /** The code, name, count and colour of the feature at `index`: the id
      is the feature's id or else the index; the code is the table's entry
      for the id, else the feature's ISO_A2, else empty; the count is the
      number of books for that code, 0 when there is none. */
  function ResolvePolygon(feat: Feature, index: nat, idToIso: map<string, string>, booksByCountry: map<string, int>): (p: PolygonProps)
    ensures Text.Given(feat.id) ==> p.featureId == feat.id.value
    ensures !Text.Given(feat.id) ==> p.featureId == Text.NatToString(index)
    ensures p.featureId != ""
    ensures Text.Given(Lookup(idToIso, p.featureId)) ==> p.countryCode == idToIso[p.featureId]
    ensures !Text.Given(Lookup(idToIso, p.featureId)) && Text.Given(feat.isoA2) ==> p.countryCode == feat.isoA2.value
    ensures !Text.Given(Lookup(idToIso, p.featureId)) && !Text.Given(feat.isoA2) ==> p.countryCode == ""
    ensures p.countryCode in booksByCountry ==> p.bookCount == booksByCountry[p.countryCode]
    ensures p.countryCode !in booksByCountry ==> p.bookCount == 0
    ensures Text.Given(feat.name) ==> p.countryName == feat.name.value
    ensures !Text.Given(feat.name) && Text.Given(feat.nameUpper) ==> p.countryName == feat.nameUpper.value
    ensures !Text.Given(feat.name) && !Text.Given(feat.nameUpper) ==> p.countryName == "Country " + p.featureId
    ensures p.color == Colors.ColorById(Colors.TextId(p.featureId))
  {
    var featureId := Text.OrElse(feat.id, Text.NatToString(index));
    var countryCode := Text.OrElse(Lookup(idToIso, featureId), Text.OrElse(feat.isoA2, ""));
    var countryName := Text.OrElse(feat.name, Text.OrElse(feat.nameUpper, "Country " + featureId));
    var bookCount := if countryCode in booksByCountry && booksByCountry[countryCode] != 0
      then booksByCountry[countryCode] else 0;
    PolygonProps(featureId, countryCode, countryName, bookCount, Colors.ColorById(Colors.TextId(featureId)))
  }

  /** A feature without an id is coloured by its position, as the number
      `index` would be. */
  lemma UnnamedFeatureColor(feat: Feature, index: nat, idToIso: map<string, string>, booksByCountry: map<string, int>)
    requires !Text.Given(feat.id)
    ensures ResolvePolygon(feat, index, idToIso, booksByCountry).color == Colors.Palette[index % 60]
  {
    Colors.ColorByIdLaws(index);
    assert Text.IntToString(index) == Text.NatToString(index);
  }

  /** `countries.features.map(...)`: one polygon per feature, in order. */
  function Polygons(features: seq<Feature>, booksByCountry: map<string, int>): (r: seq<PolygonProps>)
    ensures |r| == |features|
    ensures forall i | 0 <= i < |r| :: r[i] == ResolvePolygon(features[i], i, IdToIso, booksByCountry)
  {
    seq(|features|, i requires 0 <= i < |features| => ResolvePolygon(features[i], i, IdToIso, booksByCountry))
  }

  /** The count line of a label: `N book` or `N books`. */
  function CountText(n: int): (r: string)
    ensures |r| > |Text.IntToString(n)| && r[..|Text.IntToString(n)|] == Text.IntToString(n)
    ensures n == 1 <==> r[|Text.IntToString(n)|..] == " book"
  {
    Text.IntToString(n) + " " + (if n == 1 then "book" else "books")
  }

  /** The count line says `book` only for one. */
  lemma CountTextSingular(n: int)
    requires n > 0
    ensures n == 1 <==> CountText(n) == "1 book"
  {
    if n != 1 {
      assert |CountText(n)| >= 7;
    }
  }

  /** `getPolygonLabel`: empty without a polygon; the country name alone
      when it has no books; otherwise the name and the count line. */
  function PolygonLabel(polygon: Option<PolygonProps>): (r: string)
    ensures polygon.None? ==> r == ""
    ensures polygon.Some? && polygon.value.bookCount <= 0 ==> r == polygon.value.countryName
    ensures polygon.Some? && polygon.value.bookCount > 0 ==>
      r == polygon.value.countryName + "\n" + CountText(polygon.value.bookCount)
  {
    match polygon
    case None => ""
    case Some(p) =>
      if p.bookCount > 0 then p.countryName + "\n" + CountText(p.bookCount)
      else p.countryName
  }

  /** `onPolygonClick`: the callback fires, with the polygon's code and
      name, exactly for a polygon with a non-empty country code. */
  function ClickTarget(polygon: Option<PolygonProps>): (r: Option<(string, string)>)
    ensures r.Some? <==> polygon.Some? && polygon.value.countryCode != ""
    ensures r.Some? ==> r.value == (polygon.value.countryCode, polygon.value.countryName)
  {
    match polygon
    case None => None
    case Some(p) => if p.countryCode != "" then Some((p.countryCode, p.countryName)) else None
  }

  /** `getPolygonColor`: the theme's default without a polygon, the
      brightened colour for the selected country, and otherwise the
      polygon's own colour (or the colour of its id). */
  function PolygonColor(polygon: Option<PolygonProps>, selected: Option<string>, selectedColor: string, defaultColor: string): (r: string)
    ensures polygon.None? ==> r == defaultColor
    ensures polygon.Some? && selected.Some? && selected.value != "" && polygon.value.countryCode == selected.value
      ==> r == selectedColor
    ensures polygon.Some? && (selected.None? || selected.value == "" || polygon.value.countryCode != selected.value)
      ==> r == Text.OrElse(Some(polygon.value.color), Colors.ColorById(Colors.TextId(Text.OrElse(Some(polygon.value.featureId), "0"))))
  {
    match polygon
    case None => defaultColor
    case Some(p) =>
      var original := Text.OrElse(Some(p.color), Colors.ColorById(Colors.TextId(Text.OrElse(Some(p.featureId), "0"))));
      if selected.Some? && selected.value != "" && p.countryCode == selected.value then selectedColor
      else original
  }
}
