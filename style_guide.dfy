/** The integer part of `Color.init(hex:)`: trimming, scanning the hex
    number and splitting it into alpha, red, green and blue channels. */
module StyleGuide {

  /** The channels `(a, r, g, b)` as the initialiser computes them, before
      each is divided by 255. */
  datatype Argb = Argb(a: nat, r: nat, g: nat, b: nat)

  // ---------------------------------------------------------------------
  // Trimming
  // ---------------------------------------------------------------------

  /** Letters and digits (the ASCII part of `CharacterSet.alphanumerics`). */
  predicate IsAlphanumeric(c: char)
  {
    'a' <= c <= 'z' || 'A' <= c <= 'Z' || '0' <= c <= '9'
  }

  /** The number of non-alphanumeric characters at the start of `s`. */
  function LeadingJunk(s: string): (n: nat)
    ensures n <= |s|
    ensures forall k :: 0 <= k < n ==> !IsAlphanumeric(s[k])
    ensures n < |s| ==> IsAlphanumeric(s[n])
  {
    if |s| > 0 && !IsAlphanumeric(s[0]) then
      var n := 1 + LeadingJunk(s[1..]);
      assert forall k :: 1 <= k < n ==> s[k] == s[1..][k - 1];
      n
    else 0
  }

  /** The number of non-alphanumeric characters at the end of `s`. */
  function TrailingJunk(s: string): (n: nat)
    ensures n <= |s|
    ensures forall k :: |s| - n <= k < |s| ==> !IsAlphanumeric(s[k])
    ensures n < |s| ==> IsAlphanumeric(s[|s| - n - 1])
  {
    if |s| > 0 && !IsAlphanumeric(s[|s| - 1]) then
      var init := s[..|s| - 1];
      var n := 1 + TrailingJunk(init);
      assert forall k :: 0 <= k < |s| - 1 ==> s[k] == init[k];
      n
    else 0
  }

  /** `s` with its leading non-alphanumeric characters removed. */
  function TrimStart(s: string): (r: string)
    ensures |r| <= |s| && r == s[|s| - |r|..]
    ensures forall k :: 0 <= k < |s| - |r| ==> !IsAlphanumeric(s[k])
    ensures r == [] || IsAlphanumeric(r[0])
  {
    s[LeadingJunk(s)..]
  }

  /** `s` with its trailing non-alphanumeric characters removed. */
  function TrimEnd(s: string): (r: string)
    ensures |r| <= |s| && r == s[..|r|]
    ensures forall k :: |r| <= k < |s| ==> !IsAlphanumeric(s[k])
    ensures r == [] || IsAlphanumeric(r[|r| - 1])
  {
    s[..|s| - TrailingJunk(s)]
  }

  /** `hex.trimmingCharacters(in: CharacterSet.alphanumerics.inverted)`. */
  function TrimNonAlphanumerics(s: string): (r: string)
    ensures |r| <= |s|
    ensures AlphanumericEnds(r)
  {
    var t := TrimStart(s);
    var r := TrimEnd(t);
    assert r != [] ==> r[0] == t[0];
    r
  }

  predicate AllNonAlphanumeric(s: string)
  {
    forall k :: 0 <= k < |s| ==> !IsAlphanumeric(s[k])
  }

  predicate AlphanumericEnds(s: string)
  {
    s == [] || (IsAlphanumeric(s[0]) && IsAlphanumeric(s[|s| - 1]))
  }

  lemma TrimStartPrefix(p: string, s: string)
    requires AllNonAlphanumeric(p)
    requires s == [] || IsAlphanumeric(s[0])
    ensures TrimStart(p + s) == s
  {
    var t := p + s;
    var n := LeadingJunk(t);
    assert s != [] ==> t[|p|] == s[0];
    assert t[|p|..] == s;
  }

  lemma TrimEndSuffix(s: string, q: string)
    requires AllNonAlphanumeric(q)
    requires s == [] || IsAlphanumeric(s[|s| - 1])
    ensures TrimEnd(s + q) == s
  {
    var t := s + q;
    var n := TrailingJunk(t);
    assert s != [] ==> t[|s| - 1] == s[|s| - 1];
    assert t[..|s|] == s;
  }

  /** Trimming removes exactly the non-alphanumeric characters around the
      text: a leading '#' or surrounding spaces and punctuation go, the
      rest stays as it is. */
  lemma TrimSurrounding(p: string, core: string, q: string)
    requires AllNonAlphanumeric(p) && AllNonAlphanumeric(q)
    requires AlphanumericEnds(core)
    ensures TrimNonAlphanumerics(p + core + q) == core
  {
    if core == [] {
      assert p + core + q == (p + q) + [];
      assert AllNonAlphanumeric(p + q) by {
        forall k | 0 <= k < |p + q| ensures !IsAlphanumeric((p + q)[k]) {
          if k >= |p| {
            assert (p + q)[k] == q[k - |p|];
          }
        }
      }
      TrimStartPrefix(p + q, []);
      TrimEndSuffix([], []);
    } else {
      assert p + core + q == p + (core + q);
      TrimStartPrefix(p, core + q);
      TrimEndSuffix(core, q);
    }
  }

  /** Trimming twice is trimming once. */
  lemma TrimIdempotent(s: string)
    ensures TrimNonAlphanumerics(TrimNonAlphanumerics(s)) == TrimNonAlphanumerics(s)
  {
    var t := TrimNonAlphanumerics(s);
    var u := TrimStart(s);
    if t != [] {
      assert t[0] == u[0];
    }
    TrimUntouched(t);
  }

  /** Text that starts and ends with a letter or digit is left as it is. */
  lemma TrimUntouched(s: string)
    requires AlphanumericEnds(s)
    ensures TrimNonAlphanumerics(s) == s
  {
    assert [] + s == s && s + [] == s;
    TrimStartPrefix([], s);
    TrimEndSuffix(s, []);
  }

  // ---------------------------------------------------------------------
  // Scanning
  // ---------------------------------------------------------------------

  predicate IsHexDigit(c: char)
  {
    '0' <= c <= '9' || 'a' <= c <= 'f' || 'A' <= c <= 'F'
  }

  predicate AllHexDigits(s: string)
  {
    forall k :: 0 <= k < |s| ==> IsHexDigit(s[k])
  }

  function HexDigitValue(c: char): (d: nat)
    requires IsHexDigit(c)
    ensures d < 16
  {
    if '0' <= c <= '9' then c as int - '0' as int
    else if 'a' <= c <= 'f' then c as int - 'a' as int + 10
    else c as int - 'A' as int + 10
  }

  function Pow16(n: nat): (p: nat)
    ensures p >= 1
  {
    if n == 0 then 1 else 16 * Pow16(n - 1)
  }

  /** The value of a string of hex digits, most significant first; it fits
      in as many hex places as there are digits. */
  function HexValue(s: string): (v: nat)
    requires AllHexDigits(s)
    ensures v < Pow16(|s|)
  {
    if |s| == 0 then 0 else 16 * HexValue(s[..|s| - 1]) + HexDigitValue(s[|s| - 1])
  }

  /** The length of the longest run of hex digits at the start of `s`. */
  function HexRunLength(s: string): (n: nat)
    ensures n <= |s|
    ensures AllHexDigits(s[..n])
    ensures n < |s| ==> !IsHexDigit(s[n])
  {
    if |s| == 0 || !IsHexDigit(s[0]) then 0
    else
      var n := 1 + HexRunLength(s[1..]);
      assert s[..n] == [s[0]] + s[1..][..n - 1];
      n
  }

  /** `Scanner(string: s).scanHexInt64(&int)` starting from `int = 0`: the
      value of the leading hex digits, 0 when there are none. */
  function ScanHex(s: string): (v: nat)
    ensures v < Pow16(|s|)
  {
    var n := HexRunLength(s);
    PowMonotonic(n, |s|);
    HexValue(s[..n])
  }

  lemma {:induction false} PowMonotonic(m: nat, n: nat)
    requires m <= n
    ensures Pow16(m) <= Pow16(n)
    decreases n
  {
    if m < n {
      PowMonotonic(m, n - 1);
    }
  }

  // ---------------------------------------------------------------------
  // Channels
  // ---------------------------------------------------------------------

  /** `Color.init(hex:)` up to the division by 255. Swift's `x >> k` on the
      unsigned scanned value is `x / 2^k` and `x & 0xF`, `x & 0xFF` are
      `x % 0x10`, `x % 0x100`. Every channel is a byte: the hex places of
      the trimmed text bound the scanned value. */
  function ColorFromHex(hex: string): (c: Argb)
    ensures c.a <= 255 && c.r <= 255 && c.g <= 255 && c.b <= 255
  {
    var t := TrimNonAlphanumerics(hex);
    var v := ScanHex(t);
    match |t|
    case 3 => Argb(255, (v / 0x100) * 17, (v / 0x10 % 0x10) * 17, (v % 0x10) * 17)
    case 6 => Argb(255, v / 0x1_0000, v / 0x100 % 0x100, v % 0x100)
    case 8 => Argb(v / 0x100_0000, v / 0x1_0000 % 0x100, v / 0x100 % 0x100, v % 0x100)
    case _ => Argb(255, 0, 0, 0)
  }

  lemma MulMonotonic(a: nat, b: nat, d: nat)
    requires a <= b
    ensures a * d <= b * d
  {
  }

  /** Euclidean division recovers quotient and remainder; this is what the
      shifts and masks below take apart. */
  lemma DivModUnique(q: nat, d: nat, r: nat)
    requires r < d
    ensures (q * d + r) / d == q && (q * d + r) % d == r
  {
    var n := q * d + r;
    var q', r' := n / d, n % d;
    assert n == q' * d + r';
    if q' > q {
      assert (q + 1) * d == q * d + d;
      MulMonotonic(q + 1, q', d);
    } else if q' < q {
      assert (q' + 1) * d == q' * d + d;
      MulMonotonic(q' + 1, q, d);
    }
  }

  /** Reading one more digit shifts the value by one hex place. */
  lemma HexValuePrefix(t: string, n: nat)
    requires 1 <= n <= |t| && AllHexDigits(t)
    ensures HexValue(t[..n]) == 16 * HexValue(t[..n - 1]) + HexDigitValue(t[n - 1])
  {
    assert t[..n][..n - 1] == t[..n - 1];
  }

  function Nibble(t: string, k: nat): (d: nat)
    requires k < |t| && AllHexDigits(t)
    ensures d < 16
  {
    HexDigitValue(t[k])
  }

  /** The byte written by the two hex digits at `k`. */
  function ByteAt(t: string, k: nat): (x: nat)
    requires k + 2 <= |t| && AllHexDigits(t)
    ensures x < 256
  {
    16 * Nibble(t, k) + Nibble(t, k + 1)
  }

  lemma HexValueOf3(t: string)
    requires |t| == 3 && AllHexDigits(t)
    ensures HexValue(t) == 0x100 * Nibble(t, 0) + 0x10 * Nibble(t, 1) + Nibble(t, 2)
  {
    assert t[..3] == t;
    HexValuePrefix(t, 3);
    HexValuePrefix(t, 2);
    HexValuePrefix(t, 1);
  }

  lemma HexValueOf6(t: string)
    requires |t| == 6 && AllHexDigits(t)
    ensures HexValue(t) == 0x1_0000 * ByteAt(t, 0) + 0x100 * ByteAt(t, 2) + ByteAt(t, 4)
  {
    assert t[..6] == t;
    HexValuePrefix(t, 6);
    HexValuePrefix(t, 5);
    HexValuePrefix(t, 4);
    HexValuePrefix(t, 3);
    HexValuePrefix(t, 2);
    HexValuePrefix(t, 1);
  }

  lemma HexValueOf8(t: string)
    requires |t| == 8 && AllHexDigits(t)
    ensures HexValue(t) == 0x100_0000 * ByteAt(t, 0) + 0x1_0000 * ByteAt(t, 2) + 0x100 * ByteAt(t, 4) + ByteAt(t, 6)
  {
    assert t[..8] == t;
    HexValuePrefix(t, 8);
    HexValuePrefix(t, 7);
    HexValueOf6(t[..6]);
    assert forall k :: 0 <= k < 6 ==> t[..6][k] == t[k];
  }

  /** A trimmed text of hex digits only is scanned whole. */
  lemma ScanAllHex(t: string)
    requires AllHexDigits(t)
    ensures ScanHex(t) == HexValue(t)
  {
    assert t[..|t|] == t;
  }

  /** Three hex digits: opaque, each channel a nibble times 17. */
  lemma ThreeDigitColor(hex: string)
    requires |TrimNonAlphanumerics(hex)| == 3 && AllHexDigits(TrimNonAlphanumerics(hex))
    ensures var t := TrimNonAlphanumerics(hex);
      ColorFromHex(hex) == Argb(255, Nibble(t, 0) * 17, Nibble(t, 1) * 17, Nibble(t, 2) * 17)
  {
    var t := TrimNonAlphanumerics(hex);
    ScanAllHex(t);
    HexValueOf3(t);
    var d0, d1, d2 := Nibble(t, 0), Nibble(t, 1), Nibble(t, 2);
    DivModUnique(d0, 0x100, 0x10 * d1 + d2);
    DivModUnique(0x10 * d0 + d1, 0x10, d2);
    DivModUnique(d0, 0x10, d1);
  }

  /** Six hex digits: opaque, red, green and blue are the three bytes. */
  lemma SixDigitColor(hex: string)
    requires |TrimNonAlphanumerics(hex)| == 6 && AllHexDigits(TrimNonAlphanumerics(hex))
    ensures var t := TrimNonAlphanumerics(hex);
      ColorFromHex(hex) == Argb(255, ByteAt(t, 0), ByteAt(t, 2), ByteAt(t, 4))
  {
    var t := TrimNonAlphanumerics(hex);
    ScanAllHex(t);
    HexValueOf6(t);
    var r, g, b := ByteAt(t, 0), ByteAt(t, 2), ByteAt(t, 4);
    DivModUnique(r, 0x1_0000, 0x100 * g + b);
    DivModUnique(0x100 * r + g, 0x100, b);
    DivModUnique(r, 0x100, g);
  }

  /** Eight hex digits: alpha, red, green and blue are the four bytes. */
  lemma EightDigitColor(hex: string)
    requires |TrimNonAlphanumerics(hex)| == 8 && AllHexDigits(TrimNonAlphanumerics(hex))
    ensures var t := TrimNonAlphanumerics(hex);
      ColorFromHex(hex) == Argb(ByteAt(t, 0), ByteAt(t, 2), ByteAt(t, 4), ByteAt(t, 6))
  {
    var t := TrimNonAlphanumerics(hex);
    ScanAllHex(t);
    HexValueOf8(t);
    UnpackFourBytes(ByteAt(t, 0), ByteAt(t, 2), ByteAt(t, 4), ByteAt(t, 6));
  }

  /** Shifting and masking four packed bytes gives each byte back. */
  lemma UnpackFourBytes(a: nat, r: nat, g: nat, b: nat)
    requires a < 256 && r < 256 && g < 256 && b < 256
    ensures var v := 0x100_0000 * a + 0x1_0000 * r + 0x100 * g + b;
      v / 0x100_0000 == a && v / 0x1_0000 % 0x100 == r && v / 0x100 % 0x100 == g && v % 0x100 == b
  {
    DivModUnique(a, 0x100_0000, 0x1_0000 * r + 0x100 * g + b);
    DivModUnique(0x100 * a + r, 0x1_0000, 0x100 * g + b);
    DivModUnique(a, 0x100, r);
    DivModUnique(0x1_0000 * a + 0x100 * r + g, 0x100, b);
    DivModUnique(0x100 * a + r, 0x100, g);
  }

  /** Any other trimmed length gives opaque black. */
  lemma OtherLengthColor(hex: string)
    requires |TrimNonAlphanumerics(hex)| !in {3, 6, 8}
    ensures ColorFromHex(hex) == Argb(255, 0, 0, 0)
  {
  }

  // ---------------------------------------------------------------------
  // Writing a colour back as hex
  // ---------------------------------------------------------------------

  function HexDigitChar(d: nat): (c: char)
    requires d < 16
    ensures IsHexDigit(c) && HexDigitValue(c) == d
  {
    "0123456789ABCDEF"[d]
  }

  /** The upper-case hex digits of a byte, high then low. */
  function HighDigit(x: nat): char
    requires x < 256
  {
    HexDigitChar(x / 16)
  }

  function LowDigit(x: nat): char
    requires x < 256
  {
    HexDigitChar(x % 16)
  }

  predicate IsByteColor(c: Argb)
  {
    c.a < 256 && c.r < 256 && c.g < 256 && c.b < 256
  }

  /** "#AARRGGBB", the eight-digit form the initialiser reads. */
  function ArgbHex(c: Argb): (s: string)
    requires IsByteColor(c)
  {
    ['#', HighDigit(c.a), LowDigit(c.a), HighDigit(c.r), LowDigit(c.r),
     HighDigit(c.g), LowDigit(c.g), HighDigit(c.b), LowDigit(c.b)]
  }

  /** "#RRGGBB", the six-digit form for an opaque colour. */
  function RgbHex(r: nat, g: nat, b: nat): (s: string)
    requires r < 256 && g < 256 && b < 256
  {
    ['#', HighDigit(r), LowDigit(r), HighDigit(g), LowDigit(g), HighDigit(b), LowDigit(b)]
  }

  /** A '#' followed by hex digits trims to the digits. */
  lemma TrimHash(s: string)
    requires |s| >= 2 && s[0] == '#' && AllHexDigits(s[1..])
    ensures TrimNonAlphanumerics(s) == s[1..]
  {
    var t := s[1..];
    assert s == "#" + t + [];
    assert AllNonAlphanumeric("#");
    assert IsAlphanumeric(t[0]) && IsAlphanumeric(t[|t| - 1]);
    TrimSurrounding("#", t, []);
  }

  /** Writing a colour as "#AARRGGBB" and reading it back gives the colour. */
  lemma ArgbHexRoundTrip(c: Argb)
    requires IsByteColor(c)
    ensures ColorFromHex(ArgbHex(c)) == c
  {
    var s := ArgbHex(c);
    TrimHash(s);
    EightDigitColor(s);
  }

  /** Writing an opaque colour as "#RRGGBB" and reading it back gives the
      colour with alpha 255. */
  lemma RgbHexRoundTrip(r: nat, g: nat, b: nat)
    requires r < 256 && g < 256 && b < 256
    ensures ColorFromHex(RgbHex(r, g, b)) == Argb(255, r, g, b)
  {
    var s := RgbHex(r, g, b);
    TrimHash(s);
    SixDigitColor(s);
  }

  // The palette: the hex text of each named colour, and what it decodes to.

  const DarkTextHex := "1F2B2E"
  const LightTextHex := "FFFFFF"
  const RatingTextHex := "50555C"
  const SubtitleHex := "999999"
  const BackgroundHex := "F8F8F8"
  const SelectedHex := "E2A364"
  const PositiveHex := "2ECC71"
  const NegativeHex := "C0392B"
  const StarHex := "F9CA24"
  const CardIconHex := "ff5252"
  const CardRatingHex := "50555c"

  lemma DarkTextColor()
    ensures ColorFromHex(DarkTextHex) == Argb(255, 0x1F, 0x2B, 0x2E)
  {
    PaletteColor(DarkTextHex);
  }

  lemma LightTextColor()
    ensures ColorFromHex(LightTextHex) == Argb(255, 0xFF, 0xFF, 0xFF)
  {
    PaletteColor(LightTextHex);
  }

  lemma RatingTextColor()
    ensures ColorFromHex(RatingTextHex) == Argb(255, 0x50, 0x55, 0x5C)
  {
    PaletteColor(RatingTextHex);
  }

  lemma SubtitleColor()
    ensures ColorFromHex(SubtitleHex) == Argb(255, 0x99, 0x99, 0x99)
  {
    PaletteColor(SubtitleHex);
  }

  lemma BackgroundColor()
    ensures ColorFromHex(BackgroundHex) == Argb(255, 0xF8, 0xF8, 0xF8)
  {
    PaletteColor(BackgroundHex);
  }

  lemma SelectedColor()
    ensures ColorFromHex(SelectedHex) == Argb(255, 0xE2, 0xA3, 0x64)
  {
    PaletteColor(SelectedHex);
  }

  lemma PositiveColor()
    ensures ColorFromHex(PositiveHex) == Argb(255, 0x2E, 0xCC, 0x71)
  {
    PaletteColor(PositiveHex);
  }

  lemma NegativeColor()
    ensures ColorFromHex(NegativeHex) == Argb(255, 0xC0, 0x39, 0x2B)
  {
    PaletteColor(NegativeHex);
  }

  lemma StarColor()
    ensures ColorFromHex(StarHex) == Argb(255, 0xF9, 0xCA, 0x24)
  {
    PaletteColor(StarHex);
  }

  lemma CardIconColor()
    ensures ColorFromHex(CardIconHex) == Argb(255, 0xFF, 0x52, 0x52)
  {
    PaletteColor(CardIconHex);
  }

  lemma CardRatingColor()
    ensures ColorFromHex(CardRatingHex) == Argb(255, 0x50, 0x55, 0x5C)
  {
    PaletteColor(CardRatingHex);
  }

  /** Six bare hex digits: nothing is trimmed and the bytes are read as written. */
  lemma PaletteColor(hex: string)
    requires |hex| == 6 && AllHexDigits(hex)
    ensures ColorFromHex(hex) == Argb(255, ByteAt(hex, 0), ByteAt(hex, 2), ByteAt(hex, 4))
  {
    assert forall k :: 0 <= k < |hex| ==> IsAlphanumeric(hex[k]);
    assert [] + hex + [] == hex;
    TrimSurrounding([], hex, []);
    SixDigitColor(hex);
  }
}
