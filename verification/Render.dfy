/** The passes over a scanned chunk and the drawing of its tile. */
module Render {
  import opened Bytes
  import opened Color
  import opened PixelScan
  import opened Wrappers

  const WIDTH := 16

  type Chunk = (nat, nat) -> Column
  /** The light level stored with each pixel; whatever it is, it only brightens. */
  type Light = (nat, nat) -> byte
  type Image = array2<Color>

  // ----- biome tint

  function TintOf(biome: int): Option<Color> {
    if biome == 6 || biome == 134 then Some(Color(0x66, 0x59, 0x56, 0xff))
    else if biome == 21 || biome == 149 || biome == 23 || biome == 151 then Some(Color(0x83, 0xbd, 0x7e, 0xff))
    else if biome == 35 || biome == 163 then Some(Color(0xa8, 0xab, 0x33, 0xff))
    else None
  }

  /** The tint goes to the front colour, or to the background without one. */
  function Tinted(p: Pixel): Pixel {
    if !p.tint || TintOf(p.biome).None? then p
    else if p.fg != CLEAR then p.(fg := MixHalf(p.fg, TintOf(p.biome).value))
    else p.(bg := MixHalf(p.bg, TintOf(p.biome).value))
  }

  // ----- slopes

  function Sign(from: int, to: int): int {
    if from < to then 1 else if to < from then -1 else 0
  }

  function Lighter(p: Pixel, amount: int): Pixel {
    p.(bg := Brighten(p.bg, amount))
  }

  const X_TONE := 30
  const Z_TONE := 10

  function Toned(p: Pixel, slopeX: int, slopeZ: int): Pixel {
    Lighter(Lighter(p, X_TONE * slopeX), Z_TONE * slopeZ)
  }

  /** A slope lightens or darkens the cell on its far side; the first cell of a
      row or column takes the tone of the slope it starts. */
  function Far(i: nat): nat {
    if i == 0 then 1 else i
  }

  // ----- pixel to colour

  const LIGHT_TONE := 5
  const HEIGHT_TONE := 3

  /** The three colours of a pixel that are drawn over each other, front first. */
  function Shades(p: Pixel): (Color, Color, Color) {
    (p.fg,
     Brighten(p.middle, (p.mid - p.top) * HEIGHT_TONE),
     Brighten(p.bg, (p.opaque_ - p.top) * HEIGHT_TONE))
  }

  function Shown(p: Pixel): Color {
    Blend(Blend(Shades(p).0, Shades(p).1), Shades(p).2)
  }

  /** Every pixel with an opaque background is drawn opaque. */
  lemma ShownOpaque(p: Pixel)
    requires p.bg.a == 255
    ensures Shown(p).a == 255
  {
    BlendLaws(Blend(Shades(p).0, Shades(p).1), Shades(p).2);
  }

  // ----- from scanned to drawn

  /** A scanned pixel after the tint, both slopes and the light. */
  function Passed(p: Pixel, slopeX: int, slopeZ: int, light: nat): Pixel {
    Lighter(Toned(Tinted(p), slopeX, slopeZ), light * LIGHT_TONE)
  }

  /** What the slopes and the light make of a colour. */
  function Lit(c: Color, slopeX: int, slopeZ: int, light: nat): Color {
    Brighten(Brighten(Brighten(c, X_TONE * slopeX), Z_TONE * slopeZ), light * LIGHT_TONE)
  }

  /** The colour with which a list of layers is drawn. */
  function ShownOf(layers: seq<Layer>, slopeX: int, slopeZ: int, light: nat): Color {
    Shown(Passed(Finish(Pile(UNSET, layers)), slopeX, slopeZ, light))
  }

  const BLACK := Color(0, 0, 0, 255)

  /** The biome that the tint goes by. */
  function TopBiome(layers: seq<Layer>): int {
    if layers == [] then 0
    else if Solid(layers) != [] then Solid(layers)[0].biome
    else layers[|layers| - 1].biome
  }

  /** No all-zero layer brings in a tint that the solid ones do not ask for. */
  predicate SameTint(layers: seq<Layer>) {
    TintSeen(layers) == TintSeen(Solid(layers)) || TintOf(TopBiome(layers)).None?
  }

  /** The lowest layer of a list that has no solid one lies above height zero. */
  predicate Floating(layers: seq<Layer>) {
    layers != [] && Solid(layers) == [] && layers[|layers| - 1].y > 0
  }

  // ----- layers that are not solid

  /** The same layers, the topmost one tinted or not. */
  function WithTint(layers: seq<Layer>, tint: bool): seq<Layer> {
    if layers == [] then [] else [layers[0].(tint := tint)] + layers[1..]
  }

  /** With a solid layer the others are not seen, whatever the slopes and the light:
      all they can do is to have the topmost solid one tinted. */
  lemma {:induction false} SolidHidesClear(layers: seq<Layer>, y: nat, slopeX: int, slopeZ: int, light: nat)
    requires Descending(layers, y) && Solid(layers) != []
    ensures ShownOf(layers, slopeX, slopeZ, light)
         == ShownOf(WithTint(Solid(layers), TintSeen(layers)), slopeX, slopeZ, light)
    ensures SameTint(layers) ==>
              ShownOf(layers, slopeX, slopeZ, light) == ShownOf(Solid(layers), slopeX, slopeZ, light)
  {
    SolidShown(layers, TintSeen(layers), y, slopeX, slopeZ, light);
    if SameTint(layers) {
      OwnTint(Solid(layers));
      SolidShown(layers, TintSeen(Solid(layers)), y, slopeX, slopeZ, light);
    }
  }

  lemma {:induction false} OwnTint(layers: seq<Layer>)
    requires forall k | 0 <= k < |layers| :: layers[k].color != CLEAR
    ensures WithTint(layers, TintSeen(layers)) == layers
  {
  }

  lemma {:induction false} SolidShown(layers: seq<Layer>, tint: bool, y: nat, slopeX: int, slopeZ: int, light: nat)
    requires Descending(layers, y) && Solid(layers) != []
    requires tint == TintSeen(layers) || TintOf(TopBiome(layers)).None?
    ensures ShownOf(layers, slopeX, slopeZ, light)
         == ShownOf(WithTint(Solid(layers), tint), slopeX, slopeZ, light)
  {
    var solid := WithTint(Solid(layers), tint);
    var p, q := Pile(UNSET, layers), Pile(UNSET, solid);
    PileKeeps(UNSET, layers, y);
    SolidDescends(layers, y, y);
    PileKeeps(UNSET, solid, y);
    TintAlike(layers, tint);
    PileFlags(UNSET, layers);
    PileFlags(UNSET, solid);
    PileShows(layers);
    FinishAlike(p, q);
    SameShades(Finish(p), Finish(q), slopeX, slopeZ, light);
  }

  lemma {:induction false} TintAlike(layers: seq<Layer>, tint: bool)
    requires Solid(layers) != []
    ensures Alike(Pile(UNSET, layers), Pile(UNSET, WithTint(Solid(layers), tint)))
  {
    var solid := Solid(layers);
    var a, b := Place(UNSET, solid[0]), Place(UNSET, solid[0].(tint := tint));
    PileSolid(UNSET, UNSET, layers);
    SolidTwice(solid[1..]);
    PileSolid(a, b, solid[1..]);
    assert WithTint(solid, tint)[1..] == solid[1..];
  }

  lemma {:induction false} SameShades(f: Pixel, g: Pixel, slopeX: int, slopeZ: int, light: nat)
    requires AlmostSame(f, g) && f.mid <= f.top && g.mid <= g.top && (f.tint == g.tint || TintOf(f.biome).None?)
    ensures Shades(Passed(f, slopeX, slopeZ, light)) == Shades(Passed(g, slopeX, slopeZ, light))
  {
    PassedAlike(f, g, slopeX, slopeZ, light);
    PassedKeeps(f, slopeX, slopeZ, light);
    PassedKeeps(g, slopeX, slopeZ, light);
    MidShade(f, g);
  }

  /** The passes leave the middle colour and the heights alone. */
  lemma {:induction false} PassedKeeps(f: Pixel, slopeX: int, slopeZ: int, light: nat)
    ensures var p := Passed(f, slopeX, slopeZ, light); p == f.(fg := p.fg, bg := p.bg)
  {
  }

  /** Finished pixels that differ at most in flags and in the height that goes with
      no middle colour. */
  predicate AlmostSame(f: Pixel, g: Pixel) {
    g == f.(mid := g.mid, tint := g.tint, translucent := g.translucent) && (f.middle != CLEAR ==> f.mid == g.mid)
  }

  lemma {:induction false} FinishAlike(p: Pixel, q: Pixel)
    requires Alike(p, q) && Ordered(p) && Ordered(q) && p.fg != CLEAR
    ensures var f, g := Finish(p), Finish(q);
            && AlmostSame(f, g) && f.mid <= f.top && g.mid <= g.top
            && f.tint == p.tint && g.tint == q.tint && f.biome == p.biome
  {
  }

  lemma {:induction false} PassedAlike(f: Pixel, g: Pixel, slopeX: int, slopeZ: int, light: nat)
    requires AlmostSame(f, g) && (f.tint == g.tint || TintOf(f.biome).None?)
    ensures Passed(f, slopeX, slopeZ, light).fg == Passed(g, slopeX, slopeZ, light).fg
    ensures Passed(f, slopeX, slopeZ, light).bg == Passed(g, slopeX, slopeZ, light).bg
  {
    assert Tinted(f).bg == Tinted(g).bg && Tinted(f).fg == Tinted(g).fg;
  }

  /** The middle colour's height only matters when there is a middle colour. */
  lemma {:induction false} MidShade(f: Pixel, g: Pixel)
    requires AlmostSame(f, g) && f.mid <= f.top && g.mid <= g.top
    ensures Brighten(f.middle, (f.mid - f.top) * HEIGHT_TONE) == Brighten(g.middle, (g.mid - g.top) * HEIGHT_TONE)
  {
  }

  /** Without a solid layer, what is drawn is black as the tint, the slopes and the
      light leave it, darkened by the height of the lowest layer. */
  lemma {:induction false} NoSolidShown(layers: seq<Layer>, slopeX: int, slopeZ: int, light: nat)
    requires Solid(layers) == []
    ensures var h := if layers == [] then 0 else layers[|layers| - 1].y;
            var tint := if TintSeen(layers) then TintOf(TopBiome(layers)) else None;
            ShownOf(layers, slopeX, slopeZ, light)
            == Brighten(Lit(if tint.Some? then MixHalf(BLACK, tint.value) else BLACK, slopeX, slopeZ, light),
                        -h * HEIGHT_TONE)
  {
    var p := Pile(UNSET, layers);
    if layers != [] { PileClear(UNSET, layers); }
    var f := Passed(Finish(p), slopeX, slopeZ, light);
    assert Shades(f).0 == CLEAR && Shades(f).1 == CLEAR;
    BlendLaws(CLEAR, Shades(f).2);
  }

  /** A grey is darkened by a height above zero unless it is black. */
  lemma {:induction false} DarkerIff(c: Color, h: int)
    requires h >= 0
    ensures Brighten(c, -h * HEIGHT_TONE) == c <==> h == 0 || c == Color(0, 0, 0, c.a)
  {
  }

  /** When all-zero layers do not show: a list of layers is drawn as its solid ones
      are, except that a list without any whose lowest layer is above height zero
      darkens a background that slopes or light have brightened. */
  lemma {:induction false} ClearLayersShowIff(layers: seq<Layer>, y: nat, slopeX: int, slopeZ: int, light: nat)
    requires Descending(layers, y) && SameTint(layers)
    ensures ShownOf(layers, slopeX, slopeZ, light) == ShownOf(Solid(layers), slopeX, slopeZ, light)
            <==> !Floating(layers) || Lit(BLACK, slopeX, slopeZ, light) == BLACK
  {
    if Solid(layers) != [] {
      SolidHidesClear(layers, y, slopeX, slopeZ, light);
    } else {
      NoSolidShown(layers, slopeX, slopeZ, light);
      NoSolidShown([], slopeX, slopeZ, light);
      var lit := Lit(BLACK, slopeX, slopeZ, light);
      DarkerIff(lit, if layers == [] then 0 else layers[|layers| - 1].y);
      DarkerIff(lit, 0);
    }
  }

  ghost predicate DrawnAlike(a: seq<Layer>, b: seq<Layer>) {
    forall slopeX, slopeZ, light: byte | -1 <= slopeX <= 1 && -1 <= slopeZ <= 1 ::
      ShownOf(a, slopeX, slopeZ, light) == ShownOf(b, slopeX, slopeZ, light)
  }

  /** So over all slopes and levels of light: */
  lemma {:induction false} ClearLayersHiddenIff(layers: seq<Layer>, y: nat)
    requires Descending(layers, y) && SameTint(layers)
    ensures DrawnAlike(layers, Solid(layers)) <==> !Floating(layers)
  {
    forall slopeX, slopeZ, light: byte | -1 <= slopeX <= 1 && -1 <= slopeZ <= 1 && !Floating(layers)
      ensures ShownOf(layers, slopeX, slopeZ, light) == ShownOf(Solid(layers), slopeX, slopeZ, light)
    {
      ClearLayersShowIff(layers, y, slopeX, slopeZ, light);
    }
    ClearLayersShowIff(layers, y, 1, 0, 0);
  }

  /** A column whose topmost layer, all-zero ones aside, is opaque is drawn in that
      layer's colour, tinted if need be and lit, without darkening by height. */
  lemma {:induction false} OpaqueTopShowsItself(layers: seq<Layer>, slopeX: int, slopeZ: int, light: nat)
    requires Solid(layers) != [] && Solid(layers)[0].color.a == 255
    ensures var top := Solid(layers)[0];
            var tint := if TintSeen(layers) then TintOf(top.biome) else None;
            ShownOf(layers, slopeX, slopeZ, light)
            == Lit(if tint.Some? then MixHalf(top.color, tint.value) else top.color, slopeX, slopeZ, light)
  {
    PileShows(layers);
    var f := Passed(Finish(Pile(UNSET, layers)), slopeX, slopeZ, light);
    assert Shades(f).0 == CLEAR && Shades(f).1 == CLEAR;
    BlendLaws(CLEAR, Shades(f).2);
  }

  // ----- the drawn colour of every list of layers

  /** The tint of the topmost solid layer, if it gets one. */
  function TopTint(layers: seq<Layer>): Option<Color> {
    if TintSeen(layers) then TintOf(TopBiome(layers)) else None
  }

  function Mixed(c: Color, tint: Option<Color>): Color {
    if tint.Some? then MixHalf(c, tint.value) else c
  }

  /** Under a translucent front layer: the second layer if it is opaque, else the third
      and those below blended down to the first that makes them opaque; black where
      there is nothing. */
  function Behind(solid: seq<Layer>): Color {
    if |solid| < 2 then BLACK
    else if solid[1].color.a == 255 then solid[1].color
    else Under(CLEAR, solid[2..]).(a := 255)
  }

  /** Its height: that of the layer which makes it opaque, or zero. */
  function BehindHeight(solid: seq<Layer>): nat {
    if |solid| < 2 then 0
    else if solid[1].color.a == 255 then solid[1].y
    else UnderHeight(CLEAR, solid[2..])
  }

  /** The colour between front and background: a translucent second layer, unless it
      lies at the height taken for the background's. */
  function Between(solid: seq<Layer>): Color {
    if |solid| < 2 || solid[1].color.a == 255 || solid[1].y == BehindHeight(solid) then CLEAR else solid[1].color
  }

  /** What is drawn when the topmost solid layer is translucent and above height zero:
      it lies, tinted if need be, over the second layer, darkened by three for each
      block of depth, and both over the background, toned and lit and then darkened in
      the same way. */
  lemma {:induction false} TranslucentTop(layers: seq<Layer>, y: nat, slopeX: int, slopeZ: int, light: nat)
    requires Descending(layers, y) && Solid(layers) != []
    requires Solid(layers)[0].color.a < 255 && Solid(layers)[0].y > 0
    ensures var solid := Solid(layers);
            var top := solid[0].y;
            var front := Mixed(solid[0].color, TopTint(layers));
            var middle := if Between(solid) == CLEAR then CLEAR
                          else Brighten(Between(solid), 3 * (solid[1].y - top));
            var back := Brighten(Lit(Behind(solid), slopeX, slopeZ, light), 3 * (BehindHeight(solid) - top));
            ShownOf(layers, slopeX, slopeZ, light) == Blend(Blend(front, middle), back)
  {
    TranslucentShades(layers, y, slopeX, slopeZ, light);
  }

  /** The three colours that are drawn over each other. */
  lemma {:induction false} TranslucentShades(layers: seq<Layer>, y: nat, slopeX: int, slopeZ: int, light: nat)
    requires Descending(layers, y) && Solid(layers) != []
    requires Solid(layers)[0].color.a < 255 && Solid(layers)[0].y > 0
    ensures var solid := Solid(layers);
            var top := solid[0].y;
            Shades(Passed(Finish(Pile(UNSET, layers)), slopeX, slopeZ, light))
            == (Mixed(solid[0].color, TopTint(layers)),
                if Between(solid) == CLEAR then CLEAR else Brighten(Between(solid), 3 * (solid[1].y - top)),
                Brighten(Lit(Behind(solid), slopeX, slopeZ, light), 3 * (BehindHeight(solid) - top)))
  {
    var solid := Solid(layers);
    TopFinished(layers, y);
    FinishedShades(Finish(Pile(UNSET, layers)), TopTint(layers), Between(solid),
                  if |solid| > 1 then solid[1].y else 0, slopeX, slopeZ, light);
  }

  /** A finished pixel with its front colour set. */
  lemma {:induction false} FinishedShades(f: Pixel, tint: Option<Color>, m: Color, mid: nat, slopeX: int, slopeZ: int,
                                         light: nat)
    requires f.fg != CLEAR && f.mid <= f.top && tint == if f.tint then TintOf(f.biome) else None
    requires f.middle == m && (m != CLEAR ==> f.mid == mid)
    ensures Shades(Passed(f, slopeX, slopeZ, light))
         == (Mixed(f.fg, tint),
             if m == CLEAR then CLEAR else Brighten(m, 3 * (mid - f.top)),
             Brighten(Lit(f.bg, slopeX, slopeZ, light), 3 * (f.opaque_ - f.top)))
  {
    PassedKeeps(f, slopeX, slopeZ, light);
    PassedFront(f, tint, slopeX, slopeZ, light);
  }

  lemma {:induction false} PassedFront(f: Pixel, tint: Option<Color>, slopeX: int, slopeZ: int, light: nat)
    requires f.fg != CLEAR && tint == if f.tint then TintOf(f.biome) else None
    ensures Passed(f, slopeX, slopeZ, light).fg == Mixed(f.fg, tint)
    ensures Passed(f, slopeX, slopeZ, light).bg == Lit(f.bg, slopeX, slopeZ, light)
  {
  }

  lemma {:induction false} TopFinished(layers: seq<Layer>, y: nat)
    requires Descending(layers, y) && Solid(layers) != []
    requires Solid(layers)[0].color.a < 255 && Solid(layers)[0].y > 0
    ensures var f, solid := Finish(Pile(UNSET, layers)), Solid(layers);
            && f.fg == solid[0].color && f.top == solid[0].y
            && f.bg == Behind(solid) && f.opaque_ == BehindHeight(solid)
            && f.middle == Between(solid) && (f.middle != CLEAR ==> f.mid == solid[1].y)
            && TopTint(layers) == (if f.tint then TintOf(f.biome) else None) && f.mid <= f.top
  {
    PileShows(layers);
    TopAbove(layers, y);
    PileKeeps(UNSET, layers, y);
    FinishedTop(Pile(UNSET, layers), Solid(layers));
  }

  /** Nothing solid lies as high as the topmost solid layer. */
  lemma {:induction false} TopAbove(layers: seq<Layer>, y: nat)
    requires Descending(layers, y) && Solid(layers) != []
    requires Solid(layers)[0].y > 0
    ensures Pile(UNSET, layers).opaque_ < Solid(layers)[0].y || Solid(layers)[0].color.a == 255
    ensures |Solid(layers)| > 1 ==> Solid(layers)[1].y < Solid(layers)[0].y
  {
    var solid := Solid(layers);
    PileSolid(UNSET, UNSET, layers);
    SolidDescends(layers, y, y);
    var q := Place(UNSET, solid[0]);
    if !Closed(q) {
      PileBelowFront(q, solid[1..], solid[0].y);
      PileFront(q, solid[1..]);
    }
  }

  lemma {:induction false} FinishedTop(p: Pixel, solid: seq<Layer>)
    requires solid != [] && solid[0].color != CLEAR && p.fg == solid[0].color && p.top == solid[0].y
    requires Ordered(p) && p.opaque_ < p.top
    requires |solid| < 2 ==> p.middle == p.bg == CLEAR && p.opaque_ == 0
    requires |solid| >= 2 ==>
               && p.middle == solid[1].color != CLEAR && p.mid == solid[1].y && p.opaque_ == BehindHeight(solid)
               && p.bg == (if solid[1].color.a == 255 then solid[1].color else Under(CLEAR, solid[2..]))
    ensures var f := Finish(p);
            && f.fg == solid[0].color && f.top == solid[0].y
            && f.bg == Behind(solid) && f.opaque_ == BehindHeight(solid)
            && f.middle == Between(solid) && (f.middle != CLEAR ==> f.mid == solid[1].y)
            && f.tint == p.tint && f.biome == p.biome && f.mid <= f.top
  {
  }

  /** At height zero it is taken for the background: the pixel is black, tinted if need
      be, toned and lit. */
  lemma {:induction false} TranslucentBottom(layers: seq<Layer>, y: nat, slopeX: int, slopeZ: int, light: nat)
    requires Descending(layers, y) && Solid(layers) != []
    requires Solid(layers)[0].color.a < 255 && Solid(layers)[0].y == 0
    ensures ShownOf(layers, slopeX, slopeZ, light) == Lit(Mixed(BLACK, TopTint(layers)), slopeX, slopeZ, light)
  {
    BottomFinished(layers, y);
    BareShown(Finish(Pile(UNSET, layers)), TopTint(layers), slopeX, slopeZ, light);
  }

  lemma {:induction false} BottomFinished(layers: seq<Layer>, y: nat)
    requires Descending(layers, y) && Solid(layers) != []
    requires Solid(layers)[0].color.a < 255 && Solid(layers)[0].y == 0
    ensures var f := Finish(Pile(UNSET, layers));
            && f.fg == f.middle == CLEAR && f.bg == BLACK && f.opaque_ == f.mid == f.top == 0
            && TopTint(layers) == (if f.tint then TintOf(f.biome) else None)
  {
    SolidDescends(layers, y, y);
    assert |Solid(layers)| == 1;
    PileKeeps(UNSET, layers, y);
    PileShows(layers);
  }

  /** A finished pixel that has nothing but a background. */
  lemma {:induction false} BareShown(f: Pixel, tint: Option<Color>, slopeX: int, slopeZ: int, light: nat)
    requires f.fg == f.middle == CLEAR && f.bg.a == 255 && f.opaque_ == f.mid == f.top
    requires tint == if f.tint then TintOf(f.biome) else None
    ensures Shown(Passed(f, slopeX, slopeZ, light)) == Lit(Mixed(f.bg, tint), slopeX, slopeZ, light)
  {
    BarePassed(f, tint, slopeX, slopeZ, light);
    PassedKeeps(f, slopeX, slopeZ, light);
    BackgroundShown(Passed(f, slopeX, slopeZ, light));
  }

  lemma {:induction false} BarePassed(f: Pixel, tint: Option<Color>, slopeX: int, slopeZ: int, light: nat)
    requires f.fg == CLEAR && tint == if f.tint then TintOf(f.biome) else None
    ensures Passed(f, slopeX, slopeZ, light).fg == CLEAR
    ensures Passed(f, slopeX, slopeZ, light).bg == Lit(Mixed(f.bg, tint), slopeX, slopeZ, light)
    ensures Passed(f, slopeX, slopeZ, light).bg.a == f.bg.a
  {
  }

  lemma {:induction false} BackgroundShown(p: Pixel)
    requires p.fg == p.middle == CLEAR && p.opaque_ == p.mid == p.top && p.bg.a == 255
    ensures Shown(p) == p.bg
  {
    assert Shades(p) == (CLEAR, CLEAR, p.bg);
    BlendLaws(CLEAR, p.bg);
  }

  /** Water over sand, in figures: each channel is the mean of the front colour and the
      colour under it, weighed by the front's alpha in 255 parts. */
  lemma {:induction false} TranslucentOverOpaque(layers: seq<Layer>, y: nat, slopeX: int, slopeZ: int, light: nat)
    requires Descending(layers, y) && |Solid(layers)| > 1
    requires Solid(layers)[0].color.a < 255 && Solid(layers)[1].color.a == 255
    ensures var solid := Solid(layers);
            var f := Mixed(solid[0].color, TopTint(layers));
            var u := Brighten(Lit(solid[1].color, slopeX, slopeZ, light), 3 * (solid[1].y - solid[0].y));
            var c := ShownOf(layers, slopeX, slopeZ, light);
            && c.a == 255
            && c.r == (f.r * f.a + u.r * (255 - f.a)) / 255
            && c.g == (f.g * f.a + u.g * (255 - f.a)) / 255
            && c.b == (f.b * f.a + u.b * (255 - f.a)) / 255
  {
    var solid := Solid(layers);
    SolidDescends(layers, y, y);
    TranslucentTop(layers, y, slopeX, slopeZ, light);
    BlendOverOpaque(Mixed(solid[0].color, TopTint(layers)),
                    Brighten(Lit(solid[1].color, slopeX, slopeZ, light), 3 * (solid[1].y - solid[0].y)));
  }

  /** The tones in figures: 30 for a slope along x, 10 along z, 5 for a level of light,
      each step kept between 0 and 255. */
  lemma {:induction false} LitInFigures(c: Color, slopeX: int, slopeZ: int, light: nat)
    ensures Lit(c, slopeX, slopeZ, light) == Brighten(Brighten(Brighten(c, 30 * slopeX), 10 * slopeZ), 5 * light)
  {
  }

  /** The tinting biomes, in figures: swamp, jungle and savanna with their variants. */
  lemma {:induction false} TintInFigures(biome: int)
    ensures match TintOf(biome)
            case None => biome !in {6, 134, 21, 149, 23, 151, 35, 163}
            case Some(c) =>
              && c.a == 255
              && (c == Color(0x66, 0x59, 0x56, 255) <==> biome in {6, 134})
              && (c == Color(0x83, 0xbd, 0x7e, 255) <==> biome in {21, 149, 23, 151})
              && (c == Color(0xa8, 0xab, 0x33, 255) <==> biome in {35, 163})
  {
  }

  class Tile {
    /** Indexed by z, then x; only the first WIDTH of each are used. */
    const states: array2<Pixel>

    ghost predicate Valid() {
      states.Length0 >= WIDTH && states.Length1 >= WIDTH
    }

    constructor ()
      ensures Valid() && fresh(states)
    {
      states := new Pixel[WIDTH * 32, WIDTH * 32]((z, x) => UNSET);
    }

    method ScanChunk(chunk: Chunk, pal: Palette, nether: bool)
      requires Valid() && WellFormedChunk(chunk)
      modifies states
      ensures forall z, x | 0 <= z < WIDTH && 0 <= x < WIDTH ::
                states[z, x] == Scanned(chunk, pal, nether, z, x)
    {
      for z := 0 to WIDTH
        invariant forall z', x' | 0 <= z' < z && 0 <= x' < WIDTH ::
                    states[z', x'] == Scanned(chunk, pal, nether, z', x')
      {
        for x := 0 to WIDTH
          invariant forall z', x' | 0 <= z' < WIDTH && 0 <= x' < WIDTH && (z' < z || (z' == z && x' < x)) ::
                      states[z', x'] == Scanned(chunk, pal, nether, z', x')
        {
          states[z, x] := ScanColumn(chunk(x, z), pal, nether);
        }
      }
    }

    method HandleBiomes()
      requires Valid()
      modifies states
      ensures forall z, x | 0 <= z < WIDTH && 0 <= x < WIDTH :: states[z, x] == Tinted(old(states[z, x]))
      ensures forall z, x | 0 <= z < WIDTH && 0 <= x < WIDTH :: states[z, x].opaque_ == old(states[z, x].opaque_)
    {
      for z := 0 to WIDTH
        invariant forall z', x' | 0 <= z' < WIDTH && 0 <= x' < WIDTH ::
                    states[z', x'] == if z' < z then Tinted(old(states[z', x'])) else old(states[z', x'])
      {
        for x := 0 to WIDTH
          invariant forall z', x' | 0 <= z' < WIDTH && 0 <= x' < WIDTH ::
                      states[z', x'] == if z' < z || (z' == z && x' < x) then Tinted(old(states[z', x']))
                                        else old(states[z', x'])
        {
          var p := states[z, x];
          if p.tint {
            var src := if p.fg != CLEAR then p.fg else p.bg;
            if TintOf(p.biome).Some? {
              src := MixHalf(src, TintOf(p.biome).value);
            }
            states[z, x] := if p.fg != CLEAR then p.(fg := src) else p.(bg := src);
          }
        }
      }
    }

    /** Lightens or darkens one cell; nothing else changes. */
    method Tone(z: nat, x: nat, amount: int)
      requires Valid() && z < WIDTH && x < WIDTH
      modifies states
      ensures states[z, x] == Lighter(old(states[z, x]), amount)
      ensures forall z', x' | 0 <= z' < WIDTH && 0 <= x' < WIDTH && (z', x') != (z, x) ::
                states[z', x'] == old(states[z', x'])
    {
      var bg := IncreaseBrightness(states[z, x].bg, amount);
      states[z, x] := states[z, x].(bg := bg);
    }

    /** The slope along x that tones a cell. */
    ghost function SlopeX(z: nat, x: nat): int
      requires Valid() && z < WIDTH && x < WIDTH
      reads states
    {
      Sign(states[z, Far(x) - 1].opaque_, states[z, Far(x)].opaque_)
    }

    ghost function SlopeZ(z: nat, x: nat): int
      requires Valid() && z < WIDTH && x < WIDTH
      reads states
    {
      Sign(states[Far(z) - 1, x].opaque_, states[Far(z), x].opaque_)
    }

    /** One comparison of the first pass. */
    method SlopeAt(z: nat, x: nat)
      requires Valid() && z < WIDTH && 1 <= x < WIDTH
      modifies states
      ensures states[z, x] == Lighter(old(states[z, x]), X_TONE * old(SlopeX(z, x)))
      ensures x == 1 ==> states[z, 0] == Lighter(old(states[z, 0]), X_TONE * old(SlopeX(z, 0)))
      ensures forall z', x' | 0 <= z' < WIDTH && 0 <= x' < WIDTH && !(z' == z && (x' == x || (x == 1 && x' == 0))) ::
                states[z', x'] == old(states[z', x'])
    {
      if states[z, x - 1].opaque_ < states[z, x].opaque_ {
        Tone(z, x, X_TONE);
        if x == 1 {
          Tone(z, 0, X_TONE);
        }
      } else if states[z, x].opaque_ < states[z, x - 1].opaque_ {
        Tone(z, x, -X_TONE);
        if x == 1 {
          Tone(z, 0, -X_TONE);
        }
      }
    }

    /** One row of the first pass. */
    method SlopeAlong(z: nat)
      requires Valid() && z < WIDTH
      modifies states
      ensures forall x | 0 <= x < WIDTH :: states[z, x] == Lighter(old(states[z, x]), X_TONE * old(SlopeX(z, x)))
      ensures forall z', x | 0 <= z' < WIDTH && 0 <= x < WIDTH && z' != z :: states[z', x] == old(states[z', x])
    {
      for x := 1 to WIDTH
        invariant forall z', x' | 0 <= z' < WIDTH && 0 <= x' < WIDTH && (z' != z || x == 1 || x <= x') ::
                    states[z', x'] == old(states[z', x'])
        invariant x > 1 ==> forall x' | 0 <= x' < x ::
                    states[z, x'] == Lighter(old(states[z, x']), X_TONE * old(SlopeX(z, x')))
      {
        SlopeAt(z, x);
      }
    }

    /** One row of the second pass: the row is compared with the one before, and
        the very first row takes the tone of the second. */
    method SlopeAcross(z: nat)
      requires Valid() && 1 <= z < WIDTH
      modifies states
      ensures forall z', x | 0 <= z' < WIDTH && 0 <= x < WIDTH ::
                states[z', x] == if z' == z || (z == 1 && z' == 0)
                                 then Lighter(old(states[z', x]), Z_TONE * old(SlopeZ(z, x)))
                                 else old(states[z', x])
    {
      for x := 0 to WIDTH
        invariant forall z', x' | 0 <= z' < WIDTH && 0 <= x' < WIDTH ::
                    states[z', x'] == if x' < x && (z' == z || (z == 1 && z' == 0))
                                      then Lighter(old(states[z', x']), Z_TONE * old(SlopeZ(z, x')))
                                      else old(states[z', x'])
      {
        if states[z - 1, x].opaque_ < states[z, x].opaque_ {
          Tone(z, x, Z_TONE);
          if z == 1 {
            Tone(0, x, Z_TONE);
          }
        } else if states[z, x].opaque_ < states[z - 1, x].opaque_ {
          Tone(z, x, -Z_TONE);
          if z == 1 {
            Tone(0, x, -Z_TONE);
          }
        }
      }
    }

    method SlopesAlong()
      requires Valid()
      modifies states
      ensures forall z, x | 0 <= z < WIDTH && 0 <= x < WIDTH ::
                states[z, x] == Lighter(old(states[z, x]), X_TONE * old(SlopeX(z, x)))
    {
      for z := 0 to WIDTH
        invariant forall z', x | 0 <= z' < WIDTH && 0 <= x < WIDTH ::
                    states[z', x] == if z' < z then Lighter(old(states[z', x]), X_TONE * old(SlopeX(z', x)))
                                     else old(states[z', x])
      {
        SlopeAlong(z);
      }
    }

    method SlopesAcross()
      requires Valid()
      modifies states
      ensures forall z, x | 0 <= z < WIDTH && 0 <= x < WIDTH ::
                states[z, x] == Lighter(old(states[z, x]), Z_TONE * old(SlopeZ(z, x)))
    {
      for z := 1 to WIDTH
        invariant forall z', x | 0 <= z' < WIDTH && 0 <= x < WIDTH ::
                    states[z', x] == if z' < z && z > 1 then Lighter(old(states[z', x]), Z_TONE * old(SlopeZ(z', x)))
                                     else old(states[z', x])
      {
        SlopeAcross(z);
      }
    }

    /** The two in-place passes amount to one toning per direction, taken from
        the heights as they were scanned, whatever order the cells go in. */
    method HandleInclination()
      requires Valid()
      modifies states
      ensures forall z, x | 0 <= z < WIDTH && 0 <= x < WIDTH ::
                states[z, x] == Toned(old(states[z, x]), old(SlopeX(z, x)), old(SlopeZ(z, x)))
    {
      SlopesAlong();
      SlopesAcross();
    }

    method HandleBlockLight(light: Light)
      requires Valid()
      modifies states
      ensures forall z, x | 0 <= z < WIDTH && 0 <= x < WIDTH ::
                states[z, x] == Lighter(old(states[z, x]), light(x, z) * LIGHT_TONE)
    {
      for x := 0 to WIDTH
        invariant forall z', x' | 0 <= z' < WIDTH && 0 <= x' < WIDTH ::
                    states[z', x'] == if x' < x then Lighter(old(states[z', x']), light(x', z') * LIGHT_TONE)
                                      else old(states[z', x'])
      {
        for z := 0 to WIDTH
          invariant forall z', x' | 0 <= z' < WIDTH && 0 <= x' < WIDTH ::
                      states[z', x'] == if x' < x || (x' == x && z' < z)
                                        then Lighter(old(states[z', x']), light(x', z') * LIGHT_TONE)
                                        else old(states[z', x'])
        {
          Tone(z, x, light(x, z) * LIGHT_TONE);
        }
      }
    }

    method ProcessPipeline(light: Light)
      requires Valid()
      modifies states
      ensures forall z, x | 0 <= z < WIDTH && 0 <= x < WIDTH ::
                states[z, x] == Passed(old(states[z, x]), old(SlopeX(z, x)), old(SlopeZ(z, x)), light(x, z))
    {
      HandleBiomes();
      forall z, x | 0 <= z < WIDTH && 0 <= x < WIDTH
        ensures SlopeX(z, x) == old(SlopeX(z, x)) && SlopeZ(z, x) == old(SlopeZ(z, x))
      {
      }
      HandleInclination();
      HandleBlockLight(light);
    }

    /** The scan and the passes over it. */
    method Prepare(chunk: Chunk, light: Light, pal: Palette, nether: bool)
      requires Valid() && WellFormedChunk(chunk)
      modifies states
      ensures forall z, x | 0 <= z < WIDTH && 0 <= x < WIDTH ::
                states[z, x] == Processed(chunk, light, pal, nether, z, x)
    {
      ScanChunk(chunk, pal, nether);
      ProcessPipeline(light);
    }

    /** One row of the tile. */
    method DrawRow(chunkX: nat, chunkZ: nat, z: nat, image: Image)
      requires Valid() && (chunkZ + 1) * WIDTH <= image.Length0 && (chunkX + 1) * WIDTH <= image.Length1
      requires z < WIDTH
      modifies image
      ensures forall v, u | 0 <= v < image.Length0 && 0 <= u < image.Length1 ::
                image[v, u] == if InTile(v, u, chunkX, chunkZ) && v - chunkZ * WIDTH == z
                               then Shown(states[v - chunkZ * WIDTH, u - chunkX * WIDTH])
                               else old(image[v, u])
    {
      for x := 0 to WIDTH
        invariant forall v, u | 0 <= v < image.Length0 && 0 <= u < image.Length1 ::
                    image[v, u] == if InTile(v, u, chunkX, chunkZ) && v - chunkZ * WIDTH == z && u - chunkX * WIDTH < x
                                   then Shown(states[v - chunkZ * WIDTH, u - chunkX * WIDTH])
                                   else old(image[v, u])
      {
        var p := states[z, x];
        var bg := IncreaseBrightness(p.middle, (p.mid - p.top) * HEIGHT_TONE);
        var color := Blend(p.fg, bg);
        bg := IncreaseBrightness(p.bg, (p.opaque_ - p.top) * HEIGHT_TONE);
        image[chunkZ * WIDTH + z, chunkX * WIDTH + x] := Blend(color, bg);
      }
    }

    method GenerateImage(chunkX: nat, chunkZ: nat, image: Image)
      requires Valid() && (chunkZ + 1) * WIDTH <= image.Length0 && (chunkX + 1) * WIDTH <= image.Length1
      modifies image
      ensures forall v, u | 0 <= v < image.Length0 && 0 <= u < image.Length1 ::
                image[v, u] == if InTile(v, u, chunkX, chunkZ)
                               then Shown(states[v - chunkZ * WIDTH, u - chunkX * WIDTH])
                               else old(image[v, u])
    {
      for z := 0 to WIDTH
        invariant forall v, u | 0 <= v < image.Length0 && 0 <= u < image.Length1 ::
                    image[v, u] == if InTile(v, u, chunkX, chunkZ) && v - chunkZ * WIDTH < z
                                   then Shown(states[v - chunkZ * WIDTH, u - chunkX * WIDTH])
                                   else old(image[v, u])
      {
        DrawRow(chunkX, chunkZ, z, image);
      }
    }
  }

  // ----- a whole chunk

  function Scanned(chunk: Chunk, pal: Palette, nether: bool, z: nat, x: nat): Pixel
    requires WellFormed(chunk(x, z))
  {
    Finish(RawPixel(chunk(x, z), pal, nether))
  }

  ghost predicate WellFormedChunk(chunk: Chunk) {
    forall z: nat, x: nat :: WellFormed(chunk(x, z))
  }

  /** The slope along x that tones a cell of a chunk. */
  ghost function ChunkSlopeX(chunk: Chunk, pal: Palette, nether: bool, z: nat, x: nat): int
    requires WellFormedChunk(chunk)
  {
    Sign(Scanned(chunk, pal, nether, z, Far(x) - 1).opaque_, Scanned(chunk, pal, nether, z, Far(x)).opaque_)
  }

  ghost function ChunkSlopeZ(chunk: Chunk, pal: Palette, nether: bool, z: nat, x: nat): int
    requires WellFormedChunk(chunk)
  {
    Sign(Scanned(chunk, pal, nether, Far(z) - 1, x).opaque_, Scanned(chunk, pal, nether, Far(z), x).opaque_)
  }

  /** The slopes in figures: one for a rise towards larger coordinates, minus one for a
      fall, taken from the cell before, at the edge from the cell after it. */
  lemma {:induction false} SlopesInFigures(chunk: Chunk, pal: Palette, nether: bool, z: nat, x: nat)
    requires WellFormedChunk(chunk)
    ensures var x1, z1 := if x == 0 then 1 else x, if z == 0 then 1 else z;
            var west := Scanned(chunk, pal, nether, z, x1 - 1).opaque_;
            var east := Scanned(chunk, pal, nether, z, x1).opaque_;
            var back := Scanned(chunk, pal, nether, z1 - 1, x).opaque_;
            var front := Scanned(chunk, pal, nether, z1, x).opaque_;
            && ChunkSlopeX(chunk, pal, nether, z, x) == (if west < east then 1 else if west > east then -1 else 0)
            && ChunkSlopeZ(chunk, pal, nether, z, x) == (if back < front then 1 else if back > front then -1 else 0)
  {
  }

  /** One scanned pixel of a chunk after all passes. */
  ghost function Processed(chunk: Chunk, light: Light, pal: Palette, nether: bool, z: nat, x: nat): Pixel
    requires WellFormedChunk(chunk)
  {
    Passed(Scanned(chunk, pal, nether, z, x),
           ChunkSlopeX(chunk, pal, nether, z, x), ChunkSlopeZ(chunk, pal, nether, z, x), light(x, z))
  }

  lemma BackgroundStaysOpaque(chunk: Chunk, light: Light, pal: Palette, nether: bool, z: nat, x: nat)
    requires WellFormedChunk(chunk)
    ensures Processed(chunk, light, pal, nether, z, x).bg.a == 255
  {
  }

  /** The colour of one pixel of a drawn tile; it is always opaque. */
  ghost function Drawn(chunk: Chunk, light: Light, pal: Palette, nether: bool, z: nat, x: nat): (c: Color)
    requires WellFormedChunk(chunk)
    ensures c.a == 255
  {
    BackgroundStaysOpaque(chunk, light, pal, nether, z, x);
    ShownOpaque(Processed(chunk, light, pal, nether, z, x));
    Shown(Processed(chunk, light, pal, nether, z, x))
  }

  // ----- all-zero entries of the palette

  lemma {:induction false} BareScanned(chunk: Chunk, pal: Palette, nether: bool, z: nat, x: nat)
    requires WellFormedChunk(chunk)
    ensures LayersOf(chunk(x, z), Bare(pal), nether) == Solid(LayersOf(chunk(x, z), pal, nether))
    ensures Scanned(chunk, Bare(pal), nether, z, x).opaque_ == Scanned(chunk, pal, nether, z, x).opaque_
  {
    var cut := Cut(chunk(x, z), nether);
    BareLayers(cut, pal, nether, |cut.blocks|);
    PileSolid(UNSET, UNSET, LayersOf(chunk(x, z), pal, nether));
  }

  lemma {:induction false} BareSlopes(chunk: Chunk, pal: Palette, nether: bool, z: nat, x: nat)
    requires WellFormedChunk(chunk)
    ensures ChunkSlopeX(chunk, Bare(pal), nether, z, x) == ChunkSlopeX(chunk, pal, nether, z, x)
    ensures ChunkSlopeZ(chunk, Bare(pal), nether, z, x) == ChunkSlopeZ(chunk, pal, nether, z, x)
  {
    BareScanned(chunk, pal, nether, z, Far(x) - 1);
    BareScanned(chunk, pal, nether, z, Far(x));
    BareScanned(chunk, pal, nether, Far(z) - 1, x);
    BareScanned(chunk, pal, nether, Far(z), x);
  }

  /** When the all-zero entries of the palette make a difference to a drawn pixel:
      exactly where a column has such layers alone, the lowest above height zero, and
      slopes or light have brightened the background. */
  lemma {:induction false} ClearEntriesDrawnIff(chunk: Chunk, light: Light, pal: Palette, nether: bool, z: nat, x: nat)
    requires WellFormedChunk(chunk) && SameTint(LayersOf(chunk(x, z), pal, nether))
    ensures Drawn(chunk, light, pal, nether, z, x) == Drawn(chunk, light, Bare(pal), nether, z, x)
            <==> !Floating(LayersOf(chunk(x, z), pal, nether))
                 || Lit(BLACK, ChunkSlopeX(chunk, pal, nether, z, x), ChunkSlopeZ(chunk, pal, nether, z, x),
                        light(x, z)) == BLACK
  {
    var cut := Cut(chunk(x, z), nether);
    LayersDescend(cut, pal, nether, |cut.blocks|, |cut.blocks|);
    BareScanned(chunk, pal, nether, z, x);
    BareSlopes(chunk, pal, nether, z, x);
    ClearLayersShowIff(LayersOf(chunk(x, z), pal, nether), |cut.blocks|, ChunkSlopeX(chunk, pal, nether, z, x),
                       ChunkSlopeZ(chunk, pal, nether, z, x), light(x, z));
  }

  /** Where no all-zero entry is tinted, the tint is that of the solid layers. */
  lemma {:induction false} UntintedSameTint(col: Column, pal: Palette, nether: bool)
    requires WellFormed(col) && forall name | name in pal.colors && pal.colors[name] == CLEAR :: name !in pal.tinted
    ensures SameTint(LayersOf(col, pal, nether))
  {
    var cut := Cut(col, nether);
    UntintedLayers(cut, pal, nether, |cut.blocks|);
    UntintedSeen(LayersOf(col, pal, nether));
  }

  predicate Untinted(layers: seq<Layer>) {
    forall k | 0 <= k < |layers| :: layers[k].color == CLEAR ==> !layers[k].tint
  }

  lemma {:induction false} UntintedSeen(layers: seq<Layer>)
    requires Untinted(layers)
    ensures TintSeen(layers) == TintSeen(Solid(layers))
    decreases |layers|
  {
    if layers != [] { UntintedSeen(layers[1..]); }
  }

  lemma {:induction false} UntintedLayers(col: Column, pal: Palette, nether: bool, n: nat)
    requires WellFormed(col) && n <= |col.blocks|
    requires forall name | name in pal.colors && pal.colors[name] == CLEAR :: name !in pal.tinted
    ensures Untinted(Layers(col, pal, nether, n))
  {
    if n > 0 { UntintedLayers(col, pal, nether, n - 1); }
  }

  const STONE := "minecraft:stone"
  const AIR := "minecraft:air"

  const PALE := Palette(map[STONE := Color(0x7f, 0x7f, 0x7f, 0xff), "minecraft:barrier" := CLEAR], {})

  /** Stone at height one over air, but for another block where x is zero. */
  function Edge(name: string): Chunk {
    (x: nat, z: nat) => Column([Some(AIR), Some(if x == 0 then name else STONE)], [0, 0])
  }

  lemma {:induction false} EdgeLayers(name: string, x: nat, z: nat)
    requires name != ""
    ensures WellFormed(Edge(name)(x, z))
    ensures var block := if x == 0 then name else STONE;
            LayersOf(Edge(name)(x, z), PALE, false)
            == if IsAir(block) || block !in PALE.colors then [] else [Layer(1, PALE.colors[block], 0, false)]
  {
    var col := Edge(name)(x, z);
    assert Cut(col, false) == col;
    assert Layers(col, PALE, false, 0) == [];
    assert Layers(col, PALE, false, 1) == [];
  }

  /** A witness that an all-zero block does show: a barrier at the foot of a slope is
      drawn darker than air, at light zero. */
  lemma {:induction false} BarrierShows()
    ensures WellFormedChunk(Edge("minecraft:barrier")) && WellFormedChunk(Edge(AIR))
    ensures Drawn(Edge("minecraft:barrier"), (x, z) => 0, PALE, false, 0, 0) == Color(27, 27, 27, 255)
    ensures Drawn(Edge(AIR), (x, z) => 0, PALE, false, 0, 0) == Color(30, 30, 30, 255)
  {
    EdgeDrawn("minecraft:barrier");
    EdgeDrawn(AIR);
  }

  lemma {:induction false} EdgeDrawn(name: string)
    requires name == "minecraft:barrier" || name == AIR
    ensures WellFormedChunk(Edge(name))
    ensures Drawn(Edge(name), (x, z) => 0, PALE, false, 0, 0)
         == Brighten(Color(30, 30, 30, 255), if name == AIR then 0 else -3)
  {
    EdgeScanned(name, 0, 0);
    EdgeScanned(name, 1, 0);
    EdgeScanned(name, 0, 1);
    EdgeShown(name);
  }

  lemma {:induction false} EdgeShown(name: string)
    requires name == "minecraft:barrier" || name == AIR
    ensures ShownOf(LayersOf(Edge(name)(0, 0), PALE, false), 1, 0, 0)
         == Brighten(Color(30, 30, 30, 255), if name == AIR then 0 else -3)
  {
    EdgeLayers(name, 0, 0);
    NoSolidShown(LayersOf(Edge(name)(0, 0), PALE, false), 1, 0, 0);
    assert Lit(BLACK, 1, 0, 0) == Color(30, 30, 30, 255);
  }

  lemma {:induction false} EdgeScanned(name: string, x: nat, z: nat)
    requires name == "minecraft:barrier" || name == AIR
    ensures WellFormed(Edge(name)(x, z))
    ensures Scanned(Edge(name), PALE, false, z, x).opaque_ == if x == 0 then 0 else 1
  {
    EdgeLayers(name, x, z);
    var layers := LayersOf(Edge(name)(x, z), PALE, false);
    if x > 0 { assert Pile(UNSET, layers) == Place(UNSET, layers[0]); }
    else if name != AIR { PileClear(UNSET, layers); }
  }

  /** A drawn pixel whose topmost solid layer is opaque. */
  lemma {:induction false} OpaqueTopDrawn(chunk: Chunk, light: Light, pal: Palette, nether: bool, z: nat, x: nat)
    requires WellFormedChunk(chunk)
    requires var solid := Solid(LayersOf(chunk(x, z), pal, nether)); solid != [] && solid[0].color.a == 255
    ensures var layers := LayersOf(chunk(x, z), pal, nether);
            var top := Solid(layers)[0];
            var tint := if TintSeen(layers) then TintOf(top.biome) else None;
            Drawn(chunk, light, pal, nether, z, x)
            == Lit(if tint.Some? then MixHalf(top.color, tint.value) else top.color,
                   ChunkSlopeX(chunk, pal, nether, z, x), ChunkSlopeZ(chunk, pal, nether, z, x), light(x, z))
  {
    OpaqueTopShowsItself(LayersOf(chunk(x, z), pal, nether), ChunkSlopeX(chunk, pal, nether, z, x),
                         ChunkSlopeZ(chunk, pal, nether, z, x), light(x, z));
  }

  /** Scanning, tinting, toning and drawing one chunk: its tile and nothing else
      is drawn, all of it opaque. */
  method GenerateChunk(chunk: Chunk, light: Light, pal: Palette, nether: bool, chunkX: nat, chunkZ: nat, image: Image)
    requires WellFormedChunk(chunk)
    requires (chunkZ + 1) * WIDTH <= image.Length0 && (chunkX + 1) * WIDTH <= image.Length1
    modifies image
    ensures forall v, u | 0 <= v < image.Length0 && 0 <= u < image.Length1 ::
              image[v, u] == if InTile(v, u, chunkX, chunkZ)
                             then Drawn(chunk, light, pal, nether, v - chunkZ * WIDTH, u - chunkX * WIDTH)
                             else old(image[v, u])
    ensures forall v, u | 0 <= v < image.Length0 && 0 <= u < image.Length1 && InTile(v, u, chunkX, chunkZ) ::
              image[v, u].a == 255
  {
    var tile := new Tile();
    tile.Prepare(chunk, light, pal, nether);
    tile.GenerateImage(chunkX, chunkZ, image);
  }

  /** The tile of a chunk is sixteen pixels wide and high. */
  lemma {:induction false} TileInFigures(v: nat, u: nat, chunkX: nat, chunkZ: nat)
    ensures InTile(v, u, chunkX, chunkZ) <==> v / 16 == chunkZ && u / 16 == chunkX
    ensures InTile(v, u, chunkX, chunkZ) ==> v - chunkZ * WIDTH == v % 16 && u - chunkX * WIDTH == u % 16
  {
  }

  predicate InTile(v: int, u: int, chunkX: nat, chunkZ: nat) {
    0 <= v - chunkZ * WIDTH < WIDTH && 0 <= u - chunkX * WIDTH < WIDTH
  }
}
