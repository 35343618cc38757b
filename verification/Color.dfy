/** Colour arithmetic of the renderer.  A colour is four 8-bit channels. */
module Color {
  import opened Bytes

  datatype Color = Color(r: byte, g: byte, b: byte, a: byte)

  const CLEAR := Color(0, 0, 0, 0)

  /** The 0xRRGGBBAA word that holds a colour. */
  function Word(c: Color): nat {
    c.r * 0x100_0000 + c.g * 0x1_0000 + c.b * 0x100 + c.a
  }

  // ----- one colour over another

  /** Conversion to an 8-bit channel. */
  function Wrap(n: int): byte {
    n % 256
  }

  /** The alpha of one colour over another. */
  function Cover(f: byte, b: byte): nat
    ensures f <= Cover(f, b) <= 255 && b <= Cover(f, b)
    ensures 255 * Cover(f, b) >= 255 * (f + b) - b * f
  {
    ProductBounds(f, b);
    CoverBounds(b * f, f, b);
    b + f - b * f / 255
  }

  lemma ProductBounds(f: byte, b: byte)
    ensures 0 <= b * f <= 255 * b && b * f <= 255 * f
    ensures b * f >= 255 * (b + f - 255)
  {
    MulMono(f, 255, b);
    MulMono(b, 255, f);
    MulMono(0, 255 - b, 255 - f);
    assert (255 - b) * (255 - f) == 255 * 255 - 255 * b - 255 * f + b * f;
  }

  lemma CoverBounds(p: nat, f: byte, b: byte)
    requires p <= 255 * b && p <= 255 * f && p >= 255 * (b + f - 255)
    ensures f <= b + f - p / 255 <= 255 && b <= b + f - p / 255
    ensures 255 * (b + f - p / 255) >= 255 * (f + b) - p
  {
  }

  /** The weighted sum of one channel, before it is divided by the new alpha. */
  function Weighted(f: byte, fa: byte, b: byte, ba: byte): nat {
    MulMono(0, f, fa);
    MulMono(0, b, 255 - fa);
    MulMono(0, b * (255 - fa), ba);
    f * fa + b * (255 - fa) * ba / 255
  }

  function Channel(f: byte, fa: byte, b: byte, ba: byte): byte
    requires ba > 0
  {
    Wrap(Weighted(f, fa, b, ba) / Cover(fa, ba))
  }

  /** `fg` over `bg`; a backdrop of alpha zero leaves `fg` alone. */
  function Blend(fg: Color, bg: Color): Color {
    if bg.a == 0 then fg else
    Color(Channel(fg.r, fg.a, bg.r, bg.a),
          Channel(fg.g, fg.a, bg.g, bg.a),
          Channel(fg.b, fg.a, bg.b, bg.a),
          Wrap(Cover(fg.a, bg.a)))
  }

  function Max(x: int, y: int): int {
    if x < y then y else x
  }

  lemma MulMono(x: int, y: int, k: nat)
    requires x <= y
    ensures x * k <= y * k
  {
    assert (y - x) * k >= 0;
    assert (y - x) * k == y * k - x * k;
  }

  /** Weighing the larger channel both times bounds the weighted sum. */
  lemma WeightedAtMost(f: byte, fa: byte, b: byte, ba: byte, m: byte) returns (p: int)
    requires f <= m && b <= m
    ensures 255 * Weighted(f, fa, b, ba) <= p * m && p <= 255 * Cover(fa, ba)
  {
    var w := (255 - fa) * ba;
    MulMono(0, 255 - fa, ba);
    MulMono(f, m, fa);
    MulMono(b, m, w);
    assert b * (255 - fa) * ba == b * w;
    assert w == 255 * ba - ba * fa;
    assert (w + 255 * fa) * m == w * m + 255 * (m * fa);
    p := w + 255 * fa;
  }

  lemma QuotientAtMost(n: nat, p: int, a: nat, m: byte)
    requires 0 < a && 255 * n <= p * m && p <= 255 * a
    ensures Wrap(n / a) == n / a <= m
  {
    MulMono(p, 255 * a, m);
    assert n <= a * m by {
      assert 255 * a * m == 255 * (a * m);
    }
    if n / a > m {
      MulMono(m + 1, n / a, a);
    }
    assert 0 <= n / a <= m;
  }

  /** No blended channel exceeds the larger of the two it came from, so none
      wraps. */
  lemma ChannelAtMost(f: byte, fa: byte, b: byte, ba: byte)
    requires ba > 0
    ensures Channel(f, fa, b, ba) == Weighted(f, fa, b, ba) / Cover(fa, ba) <= Max(f, b)
  {
    var p := WeightedAtMost(f, fa, b, ba, Max(f, b));
    QuotientAtMost(Weighted(f, fa, b, ba), p, Cover(fa, ba), Max(f, b));
  }

  /** Blending never divides by zero and never wraps a channel: the alpha is the
      exact cover, at least either alpha, and no channel grows. */
  lemma BlendInRange(fg: Color, bg: Color)
    ensures var c := Blend(fg, bg);
            && (bg.a > 0 ==> c.a == Cover(fg.a, bg.a))
            && fg.a <= c.a && bg.a <= c.a
            && c.r <= Max(fg.r, bg.r) && c.g <= Max(fg.g, bg.g) && c.b <= Max(fg.b, bg.b)
  {
    if bg.a > 0 {
      ChannelAtMost(fg.r, fg.a, bg.r, bg.a);
      ChannelAtMost(fg.g, fg.a, bg.g, bg.a);
      ChannelAtMost(fg.b, fg.a, bg.b, bg.a);
    }
  }

  /** The whole of it in figures. */
  lemma {:induction false} BlendInFigures(fg: Color, bg: Color)
    ensures bg.a == 0 ==> Blend(fg, bg) == fg
    ensures bg.a > 0 ==>
              var c := Blend(fg, bg);
              && c.a == fg.a + bg.a - bg.a * fg.a / 255 && c.a > 0
              && c.r == (fg.r * fg.a + bg.r * (255 - fg.a) * bg.a / 255) / c.a
              && c.g == (fg.g * fg.a + bg.g * (255 - fg.a) * bg.a / 255) / c.a
              && c.b == (fg.b * fg.a + bg.b * (255 - fg.a) * bg.a / 255) / c.a
  {
    if bg.a > 0 {
      ChannelAtMost(fg.r, fg.a, bg.r, bg.a);
      ChannelAtMost(fg.g, fg.a, bg.g, bg.a);
      ChannelAtMost(fg.b, fg.a, bg.b, bg.a);
      BlendInRange(fg, bg);
    }
  }

  /** Over an opaque colour: a weighted mean of 255 parts. */
  lemma {:induction false} BlendOverOpaque(fg: Color, bg: Color)
    requires bg.a == 255
    ensures var c := Blend(fg, bg);
            && c.a == 255
            && c.r == (fg.r * fg.a + bg.r * (255 - fg.a)) / 255
            && c.g == (fg.g * fg.a + bg.g * (255 - fg.a)) / 255
            && c.b == (fg.b * fg.a + bg.b * (255 - fg.a)) / 255
  {
    BlendInFigures(fg, bg);
    BlendLaws(fg, bg);
    Whole(bg.r * (255 - fg.a));
    Whole(bg.g * (255 - fg.a));
    Whole(bg.b * (255 - fg.a));
  }

  lemma Whole(n: int)
    ensures n * 255 / 255 == n
  {
  }

  lemma OpaqueChannel(f: byte, b: byte, ba: byte)
    requires ba > 0
    ensures Channel(f, 255, b, ba) == f && Cover(255, ba) == 255
  {
    assert b * (255 - 255) * ba == 0;
  }

  lemma ClearChannel(f: byte, b: byte)
    ensures Channel(f, 0, b, 255) == b && Cover(0, 255) == 255
  {
    assert b * (255 - 0) * 255 / 255 == 255 * b;
  }

  /** An opaque colour hides any backdrop, a clear one shows an opaque backdrop
      unchanged, and anything over an opaque backdrop is opaque. */
  lemma BlendLaws(fg: Color, bg: Color)
    ensures fg.a == 255 ==> Blend(fg, bg) == fg
    ensures fg.a == 0 && bg.a == 255 ==> Blend(fg, bg) == bg
    ensures bg.a == 255 ==> Blend(fg, bg).a == 255
  {
    if bg.a > 0 {
      if fg.a == 255 {
        OpaqueChannel(fg.r, bg.r, bg.a);
        OpaqueChannel(fg.g, bg.g, bg.a);
        OpaqueChannel(fg.b, bg.b, bg.a);
      } else if fg.a == 0 && bg.a == 255 {
        ClearChannel(fg.r, bg.r);
        ClearChannel(fg.g, bg.g);
        ClearChannel(fg.b, bg.b);
      }
    }
  }

  // ----- mixing at half opacity

  /** source + (overlay - source) * 0.5, truncated: the doubles involved are
      exact, so this is the integer average. */
  function MixChannel(s: byte, o: byte): (m: byte)
    ensures (s <= m <= o || o <= m <= s) && 2 * m <= s + o <= 2 * m + 1
  {
    (s + o) / 2
  }

  function MixHalf(source: Color, overlay: Color): Color {
    Color(MixChannel(source.r, overlay.r), MixChannel(source.g, overlay.g), MixChannel(source.b, overlay.b), source.a)
  }

  // ----- brightness

  function Clamp(n: int): byte {
    if n < 0 then 0 else if n > 255 then 255 else n
  }

  /** All three channels moved by `amount` and clamped; alpha untouched. */
  function Brighten(c: Color, amount: int): Color {
    Color(Clamp(c.r + amount), Clamp(c.g + amount), Clamp(c.b + amount), c.a)
  }

  lemma {:induction false} BrightenInFigures(c: Color, amount: int)
    ensures var d := Brighten(c, amount);
            && d.a == c.a
            && (d.r == c.r + amount || (d.r == 0 && c.r + amount < 0) || (d.r == 255 && c.r + amount > 255))
            && (d.g == c.g + amount || (d.g == 0 && c.g + amount < 0) || (d.g == 255 && c.g + amount > 255))
            && (d.b == c.b + amount || (d.b == 0 && c.b + amount < 0) || (d.b == 255 && c.b + amount > 255))
  {
  }

  /** Half way to the overlay, rounded down; the alpha stays. */
  lemma {:induction false} MixInFigures(source: Color, overlay: Color)
    ensures var c := MixHalf(source, overlay);
            && c.a == source.a
            && 2 * c.r <= source.r + overlay.r <= 2 * c.r + 1
            && 2 * c.g <= source.g + overlay.g <= 2 * c.g + 1
            && 2 * c.b <= source.b + overlay.b <= 2 * c.b + 1
  {
  }

  method IncreaseBrightness(color: Color, amount: int) returns (res: Color)
    ensures res == Brighten(color, amount)
  {
    var c: array<byte> := new byte[] [color.r, color.g, color.b, color.a];
    if amount > 0 {
      for i := 0 to 3
        invariant c[3] == color.a
        invariant c[0] == (if 0 < i then Clamp(color.r + amount) else color.r)
        invariant c[1] == (if 1 < i then Clamp(color.g + amount) else color.g)
        invariant c[2] == (if 2 < i then Clamp(color.b + amount) else color.b)
      {
        c[i] := if c[i] + amount < 255 then c[i] + amount else 255;
      }
    } else {
      for i := 0 to 3
        invariant c[3] == color.a
        invariant c[0] == (if 0 < i then Clamp(color.r + amount) else color.r)
        invariant c[1] == (if 1 < i then Clamp(color.g + amount) else color.g)
        invariant c[2] == (if 2 < i then Clamp(color.b + amount) else color.b)
      {
        c[i] := if c[i] + amount > 0 then c[i] + amount else 0;
      }
    }
    res := Color(c[0], c[1], c[2], c[3]);
  }
}
