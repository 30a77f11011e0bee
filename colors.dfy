/** Country colours: a fixed palette indexed by a numeric id, and an HSL
    colour derived from a string hash of the country code. */
module Colors {
  import opened Wrappers
  import Text

  /** The sixty palette entries, in order, one source line of five per
      row. */
  const Palette: seq<string> :=
    ["#e63946", "#f4a261", "#2a9d8f", "#264653", "#e9c46a"]
    + ["#f72585", "#7209b7", "#3a0ca3", "#4361ee", "#4cc9f0"]
    + ["#06d6a0", "#118ab2", "#073b4c", "#ef476f", "#ffd166"]
    + ["#8338ec", "#3a86ff", "#fb5607", "#ff006e", "#8ac926"]
    + ["#1982c4", "#6a4c93", "#f94144", "#f3722c", "#f8961e"]
    + ["#90be6d", "#43aa8b", "#577590", "#277da1", "#4d908e"]
    + ["#f9844a", "#f9c74f", "#a7c957", "#6d597a", "#b56576"]
    + ["#e56b6f", "#eaac8b", "#355070", "#6d597a", "#b56576"]
    + ["#0077b6", "#00b4d8", "#90e0ef", "#caf0f8", "#03045e"]
    + ["#023e8a", "#0096c7", "#48cae4", "#ade8f4", "#d62828"]
    + ["#f77f00", "#fcbf49", "#eae2b7", "#003049", "#540b0e"]
    + ["#9e2a2b", "#e09f3e", "#fff3b0", "#335c67", "#c44536"]

  /** The palette has sixty entries, but they are not all different:
      entries 33 and 38, and entries 34 and 39, are the same colour, so two
      ids can share a colour even below sixty. */
  lemma PaletteShape()
    ensures |Palette| == 60 && Palette[0] == "#e63946"
    ensures Palette[33] == Palette[38] == "#6d597a"
    ensures Palette[34] == Palette[39] == "#b56576"
    ensures exists i, j | 0 <= i < j < 60 :: Palette[i] == Palette[j]
  {
    assert Palette[33] == Palette[38];
  }

  function Abs(x: int): nat {
    if x < 0 then -x else x
  }

  /** JavaScript's `%`, whose result takes the sign of the dividend. */
  function JsRem(a: int, b: int): (r: int)
    requires b > 0
    ensures Abs(r) == Abs(a) % b
    ensures a >= 0 ==> r == a % b
  {
    if a >= 0 then a % b else -((-a) % b)
  }

  /** An id as the caller passes it: a number or a string. */
  datatype Id = NumericId(n: int) | TextId(s: string)

  /** The longest run of decimal digits at the start of `s`. */
  function LeadingDigits(s: string): (r: string)
    ensures |r| <= |s| && r == s[..|r|]
    ensures forall k | 0 <= k < |r| :: Text.IsDigit(r[k])
    ensures |r| == |s| || !Text.IsDigit(s[|r|])
  {
    if s != [] && Text.IsDigit(s[0]) then [s[0]] + LeadingDigits(s[1..]) else []
  }

  /** `parseInt(s, 10)`: skip leading white space, read an optional sign
      and then the leading digits; `None` stands for `NaN`, which is what
      a string without leading digits gives. */
  function ParseInt(s: string): (r: Option<int>)
    ensures Text.TrimStart(s) == [] ==> r.None?
    ensures s == [] || !(Text.IsDigit(s[0]) || Text.IsWhitespace(s[0]) || s[0] == '-' || s[0] == '+') ==> r.None?
  {
    var t := Text.TrimStart(s);
    var negative := t != [] && t[0] == '-';
    var rest := if t != [] && (t[0] == '-' || t[0] == '+') then t[1..] else t;
    var digits := LeadingDigits(rest);
    if digits == [] then None
    else if negative then Some(-Text.DecimalValue(digits))
    else Some(Text.DecimalValue(digits))
  }

  /** Reading back the decimal text of any integer gives that integer. */
  lemma ParseIntRoundTrip(n: int)
    ensures ParseInt(Text.IntToString(n)) == Some(n)
  {
    var digits := Text.NatToString(Abs(n));
    assert LeadingDigits(digits) == digits by {
      LeadingDigitsAll(digits);
    }
    if n < 0 {
      var s := "-" + digits;
      assert Text.TrimStart(s) == s;
      assert s[1..] == digits;
    } else {
      ParseIntDigitsThen(digits, []);
      assert digits + [] == digits;
    }
  }

  /** Digits followed by anything that is not a digit parse to the digits'
      value. */
  lemma ParseIntDigitsThen(digits: string, rest: string)
    requires digits != [] && forall k | 0 <= k < |digits| :: Text.IsDigit(digits[k])
    requires rest == [] || !Text.IsDigit(rest[0])
    ensures ParseInt(digits + rest) == Some(Text.DecimalValue(digits))
  {
    var s := digits + rest;
    assert s[0] == digits[0];
    DigitIsPlain(s[0]);
    Text.TrimStartKeeps(s);
    LeadingDigitsStop(digits, rest);
    assert LeadingDigits(s) == digits;
    var t := Text.TrimStart(s);
    assert t == s;
    assert !(t != [] && t[0] == '-');
    assert !(t != [] && (t[0] == '-' || t[0] == '+'));
    assert LeadingDigits(t) == digits;
  }

  /** A decimal digit is neither white space nor a sign. */
  lemma DigitIsPlain(c: char)
    requires Text.IsDigit(c)
    ensures !Text.IsWhitespace(c) && c != '-' && c != '+'
  {
  }

  lemma {:induction false} LeadingDigitsStop(d: string, rest: string)
    requires forall k | 0 <= k < |d| :: Text.IsDigit(d[k])
    requires rest == [] || !Text.IsDigit(rest[0])
    ensures LeadingDigits(d + rest) == d
  {
    if d != [] {
      assert (d + rest)[1..] == d[1..] + rest;
      LeadingDigitsStop(d[1..], rest);
    } else {
      assert d + rest == rest;
    }
  }

  lemma {:induction false} LeadingDigitsAll(s: string)
    requires forall k | 0 <= k < |s| :: Text.IsDigit(s[k])
    ensures LeadingDigits(s) == s
  {
    if s != [] {
      LeadingDigitsAll(s[1..]);
    }
  }

  /** The palette index `getCountryColorById` picks: `|n| mod 60`, where
      `n` is the number, or the string parsed with `parseInt`, with `NaN`
      read as 0. */
  function ColorIndex(id: Id): (i: nat)
    ensures i < 60
    ensures id.NumericId? ==> i == Abs(id.n) % 60
    ensures id.TextId? && ParseInt(id.s).None? ==> i == 0
    ensures id.TextId? && ParseInt(id.s).Some? ==> i == Abs(ParseInt(id.s).value) % 60
  {
    var numericId := match id
      case NumericId(n) => n
      case TextId(s) => ParseInt(s).GetOr(0);
    Abs(numericId) % 60
  }

  /** `getCountryColorById`: a non-numeric string id gets the first
      palette colour. */
  function ColorById(id: Id): (r: string)
    ensures id.NumericId? ==> r == Palette[Abs(id.n) % 60]
    ensures id.TextId? && ParseInt(id.s).None? ==> r == "#e63946"
    ensures id.TextId? && ParseInt(id.s).Some? ==> r == Palette[Abs(ParseInt(id.s).value) % 60]
  {
    PaletteShape();
    Palette[ColorIndex(id)]
  }

  /** A zero-padded string id, as the globe's feature ids are, takes the
      colour of the number it spells: `"004"` is coloured as 4. */
  lemma PaddedIdColor()
    ensures ColorById(TextId("004")) == ColorById(NumericId(4))
  {
    var digits := "004";
    assert forall k | 0 <= k < |digits| :: Text.IsDigit(digits[k]);
    assert Text.DecimalValue(digits) == 4 by {
      assert "0"[..0] == [] && Text.DecimalValue("0") == 0;
      assert "00"[..1] == "0" && Text.DecimalValue("00") == 0;
      assert digits[..2] == "00";
    }
    ParseIntDigits(digits);
  }

  /** A text of decimal digits parses whole. */
  lemma ParseIntDigits(digits: string)
    requires digits != [] && forall k | 0 <= k < |digits| :: Text.IsDigit(digits[k])
    ensures ParseInt(digits) == Some(Text.DecimalValue(digits))
  {
    ParseIntDigitsThen(digits, []);
    assert digits + [] == digits;
  }

  /** The colour by id depends only on the id's magnitude modulo 60, and a
      string id is the number it spells. */
  lemma ColorByIdLaws(n: int)
    ensures ColorById(NumericId(n)) == ColorById(NumericId(-n))
    ensures ColorById(NumericId(n)) == ColorById(NumericId(Abs(n) + 60))
    ensures ColorById(TextId(Text.IntToString(n))) == ColorById(NumericId(n))
  {
    ParseIntRoundTrip(n);
    assert (Abs(n) + 60) % 60 == Abs(n) % 60;
  }

  /** ECMAScript ToInt32: the integer taken modulo 2^32 into [-2^31, 2^31). */
  function Wrap32(x: int): (r: int)
    ensures -0x8000_0000 <= r < 0x8000_0000
    ensures (r - x) % 0x1_0000_0000 == 0
    ensures -0x8000_0000 <= x < 0x8000_0000 ==> r == x
  {
    (x + 0x8000_0000) % 0x1_0000_0000 - 0x8000_0000
  }

  /** The hash after each character: `c + ((hash << 5) - hash)`, where the
      shift wraps to 32 bits but the subtraction and addition do not. */
  function HashStep(hash: int, c: char): (r: int)
    ensures -0x8000_0000 <= hash * 32 < 0x8000_0000 ==> r == 31 * hash + c as int
  {
    (c as int) + (Wrap32(hash * 32) - hash)
  }

  /** The hash of a whole country code, folding from the first character. */
  function Hash(s: string): (r: int)
    ensures s == [] ==> r == 0
    ensures |s| == 1 ==> r == s[0] as int
    ensures |s| == 2 ==> r == 31 * (s[0] as int) + s[1] as int
  {
    if s == [] then 0 else HashStep(Hash(s[..|s| - 1]), s[|s| - 1])
  }

  /** The hash loop shared by `getCountryColor` and `getCountryColorHex`. */
  method ComputeHash(code: string) returns (hash: int)
    ensures hash == Hash(code)
    ensures code == [] ==> hash == 0
  {
    hash := 0;
    for i := 0 to |code|
      invariant hash == Hash(code[..i])
    {
      assert code[..i + 1][..i] == code[..i];
      hash := HashStep(hash, code[i]);
    }
    assert code[..|code|] == code;
  }

  datatype Hsl = Hsl(hue: int, saturation: int, lightness: int)

  /** The colour `getCountryColor` derives from a hash: for every hash,
      hue in [0, 360), saturation in [55, 80) and lightness in [45, 65). */
  function HslOfHash(hash: int): (c: Hsl)
    ensures 0 <= c.hue < 360
    ensures 55 <= c.saturation < 80
    ensures 45 <= c.lightness < 65
    ensures hash == 0 ==> c == Hsl(0, 55, 45)
  {
    Hsl(Abs(hash) % 360, 55 + Abs(hash) % 25, 45 + Abs(hash) % 20)
  }

  /** The colour `getCountryColorHex` hands to `hslToHex`: the hue is
      `|hash % 360|` with JavaScript's signed remainder. */
  function HexHslOfHash(hash: int): (c: Hsl)
    ensures 0 <= c.hue < 360
  {
    Hsl(Abs(JsRem(hash, 360)), 55 + Abs(hash) % 25, 45 + Abs(hash) % 20)
  }

  /** Both ways of taking the hue agree, so the hex colour of a code and its
      `hsl(...)` text describe the same colour. */
  lemma HexHueAgrees(hash: int)
    ensures HexHslOfHash(hash) == HslOfHash(hash)
  {
  }

  /** The CSS text `hsl(h, s%, l%)`. */
  function HslText(c: Hsl): string
    requires c.hue >= 0 && c.saturation >= 0 && c.lightness >= 0
  {
    "hsl(" + Text.NatToString(c.hue) + ", " + Text.NatToString(c.saturation) + "%, "
      + Text.NatToString(c.lightness) + "%)"
  }

  /** `getCountryColor`. */
  method GetCountryColor(code: string) returns (r: string)
    ensures r == HslText(HslOfHash(Hash(code)))
    ensures code == [] ==> r == "hsl(0, 55%, 45%)"
  {
    var hash := ComputeHash(code);
    r := HslText(HslOfHash(hash));
    if code == [] {
      EmptyCodeColor();
    }
  }

  /** The empty code leaves the hash at 0, which gives hue 0, saturation
      55% and lightness 45%. */
  lemma EmptyCodeColor()
    ensures HslText(HslOfHash(Hash([]))) == "hsl(0, 55%, 45%)"
  {
    var c := HslOfHash(Hash([]));
    assert c == Hsl(0, 55, 45);
    assert Text.NatToString(0) == "0";
    assert Text.NatToString(55) == "55" by {
      assert Text.NatToString(5) == "5";
    }
    assert Text.NatToString(45) == "45" by {
      assert Text.NatToString(4) == "4";
    }
    assert HslText(c) == "hsl(" + "0" + ", " + "55" + "%, " + "45" + "%)";
  }

  /** `getCountryColorHex`, up to the HSL triple it converts: the hue,
      saturation and lightness it passes to `hslToHex`. */
  method GetCountryColorHexInputs(code: string) returns (c: Hsl)
    ensures c == HexHslOfHash(Hash(code))
    ensures 0 <= c.hue < 360 && 55 <= c.saturation < 80 && 45 <= c.lightness < 65
  {
    var hash := ComputeHash(code);
    c := HexHslOfHash(hash);
    HexHueAgrees(hash);
  }
}
