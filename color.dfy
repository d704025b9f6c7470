/**
 * The colour disambiguator: `hex_to_rgb`, `color_dist` (Chebyshev distance),
 * the teal-versus-grey verdict, and the start-button check that locates the
 * button icon inside its fixed screen area and samples the pixel at its centre.
 */
module ButtonColor {

  import opened Wrappers
  import opened Matching
  import opened Detection

  /** The fixed screen area of the "start cooking" button, as two corners. */
  const BtnStartX1: int := 1236
  const BtnStartY1: int := 919
  const BtnStartX2: int := 1573
  const BtnStartY2: int := 1041

  /** Centre of the button area, used as the click position after an override. */
  const BtnCenterX: int := (BtnStartX1 + BtnStartX2) / 2
  const BtnCenterY: int := (BtnStartY1 + BtnStartY2) / 2

  /** Reference colours as written in the source. */
  const BtnColorCanCook: string := "#3ECDC3"
  const BtnColorCannotCook: string := "#BDC3C0"

  type Channel = x: int | 0 <= x < 256

  datatype Rgb = Rgb(r: Channel, g: Channel, b: Channel)

  /** The reference colours as triples. */
  const Teal := Rgb(62, 205, 195)
  const Grey := Rgb(189, 195, 192)

  // ---------------------------------------------------------------- hex_to_rgb

  /** Python's `s.lstrip('#')`: every leading '#' removed. */
  function StripHashes(s: string): (r: string)
    ensures |r| <= |s| && r == s[|s| - |r|..]
    ensures forall i :: 0 <= i < |s| - |r| ==> s[i] == '#'
    ensures |r| > 0 ==> r[0] != '#'
  {
    if |s| > 0 && s[0] == '#' then StripHashes(s[1..]) else s
  }

  /** Python's slice `h[i:j]` for `0 <= i <= j`: bounds beyond the end are clipped. */
  function Slice(h: string, i: nat, j: nat): (r: string)
    requires i <= j
    ensures |r| <= j - i
    ensures forall k :: 0 <= k < |r| ==> i + k < |h| && r[k] == h[i + k]
    ensures i + |r| == j || i + |r| >= |h|
  {
    var lo := if i < |h| then i else |h|;
    var hi := if j < |h| then j else |h|;
    h[lo..hi]
  }

  /** The value of one hexadecimal digit, either case. */
  function HexDigit(c: char): (r: Option<nat>)
    ensures r.Some? ==> r.value < 16
  {
    if '0' <= c <= '9' then Some(c as int - '0' as int)
    else if 'a' <= c <= 'f' then Some(c as int - 'a' as int + 10)
    else if 'A' <= c <= 'F' then Some(c as int - 'A' as int + 10)
    else None
  }

  /**
   * Each digit has the value of its place in the digit table of either case,
   * and every other character is refused.
   */
  lemma HexDigitTable(c: char)
    ensures HexDigit(c).Some? ==>
      c == "0123456789abcdef"[HexDigit(c).value] || c == "0123456789ABCDEF"[HexDigit(c).value]
    ensures HexDigit(c).None? <==> c !in "0123456789abcdefABCDEF"
  {
  }

  /** `int(t, 16)` for the one- or two-character slices `hex_to_rgb` produces; anything else fails. */
  function ParseField(t: string): (r: Option<Channel>)
    ensures r.Some? <==> (|t| == 1 || |t| == 2) && forall i :: 0 <= i < |t| ==> HexDigit(t[i]).Some?
    ensures r.Some? && |t| == 1 ==> r.value == HexDigit(t[0]).value
    ensures r.Some? && |t| == 2 ==> r.value == 16 * HexDigit(t[0]).value + HexDigit(t[1]).value
  {
    if |t| == 1 && HexDigit(t[0]).Some? then Some(HexDigit(t[0]).value)
    else if |t| == 2 && HexDigit(t[0]).Some? && HexDigit(t[1]).Some? then
      Some(16 * HexDigit(t[0]).value + HexDigit(t[1]).value)
    else None
  }

  /** `hex_to_rgb`: strip leading '#', then parse characters 0-1, 2-3 and 4-5; None where Python raises. */
  function HexToRgb(s: string): Option<Rgb>
  {
    var h := StripHashes(s);
    var r := ParseField(Slice(h, 0, 2));
    var g := ParseField(Slice(h, 2, 4));
    var b := ParseField(Slice(h, 4, 6));
    if r.Some? && g.Some? && b.Some? then Some(Rgb(r.value, g.value, b.value)) else None
  }

  /** Upper-case hexadecimal digit for `d < 16`. */
  function HexChar(d: nat): (c: char)
    requires d < 16
    ensures c != '#' && HexDigit(c) == Some(d)
  {
    if d < 10 then ('0' as int + d) as char else ('A' as int + d - 10) as char
  }

  /** The `#RRGGBB` spelling of a colour, the format of the source's colour constants. */
  function ToHex(c: Rgb): (s: string)
    ensures |s| == 7 && s[0] == '#'
  {
    "#" + [HexChar(c.r / 16), HexChar(c.r % 16), HexChar(c.g / 16), HexChar(c.g % 16),
           HexChar(c.b / 16), HexChar(c.b % 16)]
  }

  /** Two upper-case digits parse back to the channel they spell. */
  lemma ByteRoundTrip(v: Channel)
    ensures ParseField([HexChar(v / 16), HexChar(v % 16)]) == Some(v)
  {
    var t := [HexChar(v / 16), HexChar(v % 16)];
    assert HexDigit(t[0]) == Some(v / 16) && HexDigit(t[1]) == Some(v % 16);
  }

  /** Parsing inverts formatting: every colour survives `#RRGGBB` and back. */
  lemma HexRoundTrip(c: Rgb)
    ensures HexToRgb(ToHex(c)) == Some(c)
  {
    var s := ToHex(c);
    var h := s[1..];
    assert StripHashes(s) == h by {
      assert StripHashes(s) == StripHashes(s[1..]);
      assert h[0] != '#';
    }
    assert Slice(h, 0, 2) == [HexChar(c.r / 16), HexChar(c.r % 16)] == h[0..2];
    assert Slice(h, 2, 4) == [HexChar(c.g / 16), HexChar(c.g % 16)] == h[2..4];
    assert Slice(h, 4, 6) == [HexChar(c.b / 16), HexChar(c.b % 16)] == h[4..6];
    ByteRoundTrip(c.r);
    ByteRoundTrip(c.g);
    ByteRoundTrip(c.b);
  }

  /** The two reference strings parse to the teal and grey triples. */
  lemma ReferenceColoursParse()
    ensures HexToRgb(BtnColorCanCook) == Some(Teal)
    ensures HexToRgb(BtnColorCannotCook) == Some(Grey)
  {
    assert ToHex(Teal) == BtnColorCanCook;
    assert ToHex(Grey) == BtnColorCannotCook;
    HexRoundTrip(Teal);
    HexRoundTrip(Grey);
  }

  // ---------------------------------------------------------------- color_dist

  function Abs(x: int): nat { if x < 0 then -x else x }

  function Max(a: nat, b: nat): nat { if a < b then b else a }

  /** `color_dist`: the largest absolute per-channel difference (Chebyshev distance). */
  function ColorDist(c1: Rgb, c2: Rgb): (d: nat)
    ensures d >= Abs(c1.r - c2.r) && d >= Abs(c1.g - c2.g) && d >= Abs(c1.b - c2.b)
    ensures d == Abs(c1.r - c2.r) || d == Abs(c1.g - c2.g) || d == Abs(c1.b - c2.b)
  {
    Max(Abs(c1.r - c2.r), Max(Abs(c1.g - c2.g), Abs(c1.b - c2.b)))
  }

  /** The distance is a metric: zero exactly on equal colours, symmetric, and obeys the triangle inequality. */
  lemma ColorDistIsMetric(a: Rgb, b: Rgb, c: Rgb)
    ensures ColorDist(a, b) == 0 <==> a == b
    ensures ColorDist(a, b) == ColorDist(b, a)
    ensures ColorDist(a, c) <= ColorDist(a, b) + ColorDist(b, c)
  {
  }

  /** The reference colours are 127 apart, decided by the red channel. */
  lemma ReferenceColoursDistance()
    ensures ColorDist(Teal, Grey) == 127
    ensures ColorDist(Teal, Teal) == 0
  {
  }

  // ---------------------------------------------------------------- verdict

  /** The verdict for a sampled pixel: can-cook when strictly closer to teal, otherwise (ties included) cannot-cook. */
  function ColorVerdict(sample: Rgb): (v: GameState)
    ensures v == CanCook || v == CannotCook
    ensures v == CanCook <==> ColorDist(sample, Teal) < ColorDist(sample, Grey)
  {
    var distCan := ColorDist(sample, Teal);
    var distCannot := ColorDist(sample, Grey);
    if distCan < distCannot then CanCook else CannotCook
  }

  /**
   * A sample within 63 of a reference colour gets that colour's verdict: the
   * references are 127 apart, so the other one is at least 64 away.
   */
  lemma VerdictWithinMargin(sample: Rgb)
    ensures ColorDist(sample, Teal) <= 63 ==> ColorVerdict(sample) == CanCook
    ensures ColorDist(sample, Grey) <= 63 ==> ColorVerdict(sample) == CannotCook
  {
    ReferenceColoursDistance();
    ColorDistIsMetric(Teal, sample, Grey);
    ColorDistIsMetric(sample, Teal, sample);
    ColorDistIsMetric(Grey, sample, Teal);
    ColorDistIsMetric(sample, Grey, sample);
  }

  // ---------------------------------------------------------------- button check

  /** Peaks of the two button icons' templates against the capture of the button area. */
  datatype ButtonFrame = ButtonFrame(cancook: Peaks, cannotcook: Peaks)

  /** The icon found in the button area: the can-cook icon first, the cannot-cook icon only when that failed. */
  function ButtonIcon(ts: Templates, bf: ButtonFrame): Option<Match>
  {
    var can := MatchWith(ts.cancook, bf.cancook);
    if can.Some? then can else MatchWith(ts.cannotcook, bf.cannotcook)
  }

  /** A screen position. */
  datatype Point = Point(x: int, y: int)

  /** The screen pixel sampled for an icon matched in the button area's own coordinates. */
  function SamplePoint(m: Match): Point
  {
    Point(m.cx + BtnStartX1, m.cy + BtnStartY1)
  }

  /**
   * One button check: None (no verdict this poll) when anything before the
   * pixel read raised (`bf` is None), no icon is found, or the pixel cannot be
   * read; otherwise the colour verdict of the pixel at the icon's centre.
   */
  function ButtonCheck(ts: Templates, bf: Option<ButtonFrame>, pixelAt: Point -> Option<Rgb>): Option<GameState>
  {
    if bf.None? then None
    else
      var icon := ButtonIcon(ts, bf.value);
      if icon.None? then None
      else
        var px := pixelAt(SamplePoint(icon.value));
        if px.None? then None else Some(ColorVerdict(px.value))
  }

  /** What the button check decides, and from which pixel. */
  lemma ButtonCheckDecides(ts: Templates, bf: Option<ButtonFrame>, pixelAt: Point -> Option<Rgb>)
    ensures var v := ButtonCheck(ts, bf, pixelAt);
      && (v.Some? <==> bf.Some? && ButtonIcon(ts, bf.value).Some?
                       && pixelAt(SamplePoint(ButtonIcon(ts, bf.value).value)).Some?)
      && (v.Some? ==>
            var icon := ButtonIcon(ts, bf.value).value;
            var px := pixelAt(SamplePoint(icon)).value;
            && (v.value == CanCook <==> ColorDist(px, Teal) < ColorDist(px, Grey))
            && (v.value == CannotCook <==> ColorDist(px, Teal) >= ColorDist(px, Grey)))
  {
  }

  /** The can-cook icon is consulted first; the cannot-cook icon only when the can-cook icon is not found. */
  lemma ButtonIconOrder(ts: Templates, bf: ButtonFrame)
    ensures MatchWith(ts.cancook, bf.cancook).Some? ==> ButtonIcon(ts, bf) == MatchWith(ts.cancook, bf.cancook)
    ensures MatchWith(ts.cancook, bf.cancook).None? ==> ButtonIcon(ts, bf) == MatchWith(ts.cannotcook, bf.cannotcook)
    ensures ts.cancook.None? && ts.cannotcook.None? ==> ButtonIcon(ts, bf).None?
  {
  }

  /** The override position is the centre of the button area, (1404, 980). */
  lemma ButtonCentre()
    ensures BtnCenterX == 1404 && BtnCenterY == 980
    ensures BtnStartX1 < BtnCenterX < BtnStartX2 && BtnStartY1 < BtnCenterY < BtnStartY2
  {
  }
}
