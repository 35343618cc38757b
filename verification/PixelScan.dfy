/** How one column of blocks becomes one pixel: the downward scan of a chunk. */
module PixelScan {
  import opened Color
  import opened Wrappers

  /** Blocks and biome numbers of one column, bottom up; None is a block that
      could not be decoded. */
  datatype Column = Column(blocks: seq<Option<string>>, biomes: seq<int>)

  /** The colour table and the names tinted by their biome. */
  datatype Palette = Palette(colors: map<string, Color>, tinted: set<string>)

  datatype Pixel = Pixel(
    top: nat, mid: nat, opaque_: nat,
    fg: Color, middle: Color, bg: Color,
    biome: int, tint: bool, translucent: bool)

  const UNSET := Pixel(0, 0, 0, CLEAR, CLEAR, CLEAR, 0, false, false)

  const NETHER_TOP := 127

  predicate WellFormed(col: Column) {
    |col.blocks| == |col.biomes| <= 256
  }

  predicate IsAir(name: string) {
    name == "minecraft:air" || name == "minecraft:cave_air" || name == "minecraft:void_air"
  }

  // ----- which blocks are layers

  predicate AirAt(blocks: seq<Option<string>>, y: nat)
    requires y < |blocks|
  {
    blocks[y].Some? && IsAir(blocks[y].value)
  }

  predicate AirAbove(blocks: seq<Option<string>>, y: nat) {
    exists k | y < k < |blocks| :: AirAt(blocks, k)
  }

  /** The scan takes notice of a block unless it cannot be read or belongs to
      the roof of the nether. */
  predicate Noticed(blocks: seq<Option<string>>, nether: bool, y: nat)
    requires y < |blocks|
  {
    blocks[y].Some? && (nether && !IsAir(blocks[y].value) ==> AirAbove(blocks, y))
  }

  /** The name of the nearest noticed block at or above `y`. */
  function NameAt(blocks: seq<Option<string>>, nether: bool, y: nat): string
    decreases |blocks| - y
  {
    if y >= |blocks| then "" else
    if Noticed(blocks, nether, y) then blocks[y].value else NameAt(blocks, nether, y + 1)
  }

  /** A layer is a noticed, coloured block that is not air and not the
      continuation of the noticed block above it. */
  predicate IsLayer(blocks: seq<Option<string>>, pal: Palette, nether: bool, y: nat)
    requires y < |blocks|
  {
    && Noticed(blocks, nether, y)
    && !IsAir(blocks[y].value)
    && blocks[y].value != NameAt(blocks, nether, y + 1)
    && blocks[y].value in pal.colors
  }

  datatype Layer = Layer(y: nat, color: Color, biome: int, tint: bool)

  /** The layers below height `n`, topmost first. */
  function Layers(col: Column, pal: Palette, nether: bool, n: nat): seq<Layer>
    requires WellFormed(col) && n <= |col.blocks|
  {
    if n == 0 then [] else
    var y := n - 1;
    var rest := Layers(col, pal, nether, y);
    if IsLayer(col.blocks, pal, nether, y) then [LayerAt(col, pal, y)] + rest else rest
  }

  function LayerAt(col: Column, pal: Palette, y: nat): Layer
    requires WellFormed(col) && y < |col.blocks| && col.blocks[y].Some? && col.blocks[y].value in pal.colors
  {
    Layer(y, pal.colors[col.blocks[y].value], col.biomes[y], col.blocks[y].value in pal.tinted)
  }

  /** A block of one of the three kinds of air. */
  ghost predicate AirBlock(block: Option<string>) {
    block in {Some("minecraft:air"), Some("minecraft:cave_air"), Some("minecraft:void_air")}
  }

  /** What the scan takes notice of, from the blocks alone: readable ones, and in the
      nether, of those that are not air, the ones with air somewhere above. */
  ghost predicate Seen(blocks: seq<Option<string>>, nether: bool, y: nat)
    requires y < |blocks|
  {
    && blocks[y].Some?
    && (AirBlock(blocks[y]) || !nether || exists k | y < k < |blocks| :: AirBlock(blocks[k]))
  }

  /** The nearest such block above `y` is the same. */
  ghost predicate Continues(blocks: seq<Option<string>>, nether: bool, y: nat)
    requires y < |blocks|
  {
    exists k | y < k < |blocks| ::
      && Seen(blocks, nether, k) && blocks[k] == blocks[y]
      && forall j | y < j < k :: !Seen(blocks, nether, j)
  }

  lemma {:induction false} SeenIsNoticed(blocks: seq<Option<string>>, nether: bool, y: nat)
    requires y < |blocks|
    ensures Seen(blocks, nether, y) <==> Noticed(blocks, nether, y)
  {
    assert forall k | y < k < |blocks| :: AirBlock(blocks[k]) == AirAt(blocks, k);
  }

  lemma {:induction false} NameIsNearest(blocks: seq<Option<string>>, nether: bool, y: nat, name: string)
    ensures NameAt(blocks, nether, y) == name <==>
              || (name == "" && forall j | y <= j < |blocks| :: !Seen(blocks, nether, j))
              || exists k | y <= k < |blocks| ::
                   && Seen(blocks, nether, k) && blocks[k] == Some(name)
                   && forall j | y <= j < k :: !Seen(blocks, nether, j)
    decreases |blocks| - y
  {
    if y < |blocks| {
      SeenIsNoticed(blocks, nether, y);
      if !Seen(blocks, nether, y) { NameIsNearest(blocks, nether, y + 1, name); }
    }
  }

  /** Which blocks are layers: noticed, not air, in the palette, and not the continuation
      of the same block above; a block without a name continues the empty top, too. */
  lemma {:induction false} LayerInFigures(blocks: seq<Option<string>>, pal: Palette, nether: bool, y: nat)
    requires y < |blocks|
    ensures IsLayer(blocks, pal, nether, y) <==>
              && Seen(blocks, nether, y) && !AirBlock(blocks[y]) && blocks[y].value in pal.colors
              && !Continues(blocks, nether, y)
              && (blocks[y].value == "" ==> exists k | y < k < |blocks| :: Seen(blocks, nether, k))
  {
    SeenIsNoticed(blocks, nether, y);
    if blocks[y].Some? { NameIsNearest(blocks, nether, y + 1, blocks[y].value); }
  }

  /** The layers are those of the blocks that are layers, each with its height, the colour
      of its name, the biome at its height and its tint, from the top down. */
  lemma {:induction false} LayersInFigures(col: Column, pal: Palette, nether: bool, n: nat)
    requires WellFormed(col) && n <= |col.blocks|
    ensures forall l | l in Layers(col, pal, nether, n) ::
              && l.y < n && IsLayer(col.blocks, pal, nether, l.y)
              && var name := col.blocks[l.y].value;
                 l == Layer(l.y, pal.colors[name], col.biomes[l.y], name in pal.tinted)
    ensures forall y: nat | y < n && IsLayer(col.blocks, pal, nether, y) ::
              exists l :: l in Layers(col, pal, nether, n) && l.y == y
    ensures Descending(Layers(col, pal, nether, n), n)
  {
    LayersDescend(col, pal, nether, n, n);
    if n > 0 {
      LayersInFigures(col, pal, nether, n - 1);
      var layers, rest := Layers(col, pal, nether, n), Layers(col, pal, nether, n - 1);
      if IsLayer(col.blocks, pal, nether, n - 1) { assert LayerAt(col, pal, n - 1) in layers; }
      assert forall l | l in rest :: l in layers;
    }
  }

  // ----- what a stack of layers makes of a pixel

  /** One more layer under those already seen. */
  function Place(p: Pixel, l: Layer): Pixel {
    if p.fg == CLEAR then
      var q := p.(fg := l.color, top := l.y, biome := l.biome, tint := p.tint || l.tint);
      if l.color.a == 255 then q.(middle := l.color, mid := l.y, bg := l.color, opaque_ := l.y)
      else q.(translucent := true)
    else if p.middle == CLEAR then
      var q := p.(middle := l.color, mid := l.y);
      if l.color.a == 255 then q.(bg := l.color, opaque_ := l.y) else q
    else
      var q := p.(bg := Blend(p.bg, l.color));
      if q.bg.a == 255 then q.(opaque_ := l.y) else q
  }

  predicate Closed(p: Pixel) {
    p.bg.a == 255
  }

  /** The scan stops at the first layer that closes the pixel. */
  function Pile(p: Pixel, layers: seq<Layer>): Pixel
    decreases |layers|
  {
    if layers == [] || Closed(p) then p else Pile(Place(p, layers[0]), layers[1..])
  }

  /** The last touch: an opaque background and no colours that would be drawn
      twice. */
  function Finish(p: Pixel): Pixel {
    var q := p.(bg := p.bg.(a := 255));
    if q.top == q.opaque_ then q.(fg := CLEAR, middle := CLEAR)
    else if q.mid == q.opaque_ then q.(middle := CLEAR)
    else q
  }

  function Limit(col: Column, nether: bool): nat {
    if nether && |col.blocks| > NETHER_TOP + 1 then NETHER_TOP + 1 else |col.blocks|
  }

  /** Only the blocks up to the height limit take part. */
  function Cut(col: Column, nether: bool): Column
    requires WellFormed(col)
  {
    Column(col.blocks[..Limit(col, nether)], col.biomes[..Limit(col, nether)])
  }

  /** The layers of a column that the scan may come to. */
  function LayersOf(col: Column, pal: Palette, nether: bool): seq<Layer>
    requires WellFormed(col)
  {
    var cut := Cut(col, nether);
    Layers(cut, pal, nether, |cut.blocks|)
  }

  /** In the nether the scan starts at height 127. */
  lemma {:induction false} NetherLimit(col: Column, nether: bool)
    requires WellFormed(col)
    ensures var n := |Cut(col, nether).blocks|;
            && Cut(col, nether) == Column(col.blocks[..n], col.biomes[..n])
            && n == (if nether && |col.blocks| > 128 then 128 else |col.blocks|)
  {
  }

  function RawPixel(col: Column, pal: Palette, nether: bool): Pixel
    requires WellFormed(col)
  {
    Pile(UNSET, LayersOf(col, pal, nether))
  }

  // ----- the scan

  /** The colour part of one step of the scan; `stop` when the pixel is closed. */
  method AddLayer(was: Pixel, l: Layer) returns (pixel: Pixel, stop: bool)
    requires !Closed(was)
    ensures pixel == Place(was, l) && stop == Closed(pixel)
  {
    pixel, stop := was, false;
    if pixel.fg == CLEAR {
      pixel := pixel.(fg := l.color, top := l.y, biome := l.biome, tint := pixel.tint || l.tint);
      if l.color.a == 255 {
        pixel := pixel.(middle := l.color, mid := l.y, bg := l.color, opaque_ := l.y);
        return pixel, true;
      }
      pixel := pixel.(translucent := true);
    } else if pixel.middle == CLEAR {
      pixel := pixel.(middle := l.color, mid := l.y);
      if l.color.a == 255 {
        pixel := pixel.(bg := l.color, opaque_ := l.y);
        return pixel, true;
      }
    } else {
      pixel := pixel.(bg := Blend(pixel.bg, l.color));
      if pixel.bg.a == 255 {
        pixel := pixel.(opaque_ := l.y);
        return pixel, true;
      }
    }
  }

  method ScanColumn(col: Column, pal: Palette, nether: bool) returns (pixel: Pixel)
    requires WellFormed(col)
    ensures pixel == Finish(RawPixel(col, pal, nether))
  {
    ghost var cut := Cut(col, nether);
    var airFound, prev := false, "";
    pixel := UNSET;
    var n: nat := Limit(col, nether);
    while n > 0
      invariant n <= Limit(col, nether) && !Closed(pixel)
      invariant Pile(pixel, Layers(cut, pal, nether, n)) == RawPixel(col, pal, nether)
      invariant n > 0 ==> airFound == AirAbove(cut.blocks, n - 1)
      invariant prev == NameAt(cut.blocks, nether, n)
    {
      n := n - 1;
      var read := col.blocks[n];
      AirStep(cut.blocks, n);
      assert cut.blocks[n] == read && cut.biomes[n] == col.biomes[n];
      if read.None? {
        continue;
      }
      var block := read.value;
      if IsAir(block) {
        airFound, prev := true, block;
        continue;
      }
      if (nether && !airFound) || block == prev {
        continue;
      }
      prev := block;
      if block in pal.colors {
        var stop;
        pixel, stop := AddLayer(pixel, Layer(n, pal.colors[block], col.biomes[n], block in pal.tinted));
        if stop {
          break;
        }
      }
    }
    pixel := pixel.(bg := pixel.bg.(a := 255));
    if pixel.top == pixel.opaque_ {
      pixel := pixel.(fg := CLEAR, middle := CLEAR);
    } else if pixel.mid == pixel.opaque_ {
      pixel := pixel.(middle := CLEAR);
    }
  }

  lemma AirStep(blocks: seq<Option<string>>, y: nat)
    requires y < |blocks|
    ensures y > 0 ==> (AirAbove(blocks, y - 1) <==> AirAt(blocks, y) || AirAbove(blocks, y))
  {
  }

  // ----- what every pixel satisfies

  /** Heights descend from the front layer to the opaque one, and a height not
      assigned yet is zero. */
  predicate Ordered(p: Pixel) {
    && p.opaque_ <= p.mid <= p.top
    && (p.fg == CLEAR ==> p.middle == CLEAR && p.mid == 0)
    && (!Closed(p) ==> p.opaque_ == 0)
    && (p.middle == CLEAR ==> p.bg == CLEAR)
  }

  /** Layers below `y` are below every layer the pixel has. */
  predicate Room(p: Pixel, y: nat) {
    (p.fg != CLEAR ==> y <= p.top) && (p.middle != CLEAR ==> y <= p.mid)
  }

  predicate Descending(layers: seq<Layer>, y: nat) {
    layers == [] || (layers[0].y < y && Descending(layers[1..], layers[0].y))
  }

  lemma {:induction false} LayersDescend(col: Column, pal: Palette, nether: bool, n: nat, y: nat)
    requires WellFormed(col) && n <= |col.blocks| && n <= y
    ensures Descending(Layers(col, pal, nether, n), y)
  {
    if n > 0 {
      LayersDescend(col, pal, nether, n - 1, n - 1);
      LayersDescend(col, pal, nether, n - 1, y);
    }
  }

  /** Placing a layer under an open pixel keeps the order and lowers no alpha. */
  lemma PlaceKeeps(p: Pixel, l: Layer, y: nat)
    requires Ordered(p) && !Closed(p) && Room(p, y) && l.y < y
    ensures Ordered(Place(p, l)) && Room(Place(p, l), l.y) && p.bg.a <= Place(p, l).bg.a
  {
    if p.middle != CLEAR {
      BlendInRange(p.bg, l.color);
    }
  }

  lemma {:induction false} PileKeeps(p: Pixel, layers: seq<Layer>, y: nat)
    requires Ordered(p) && Room(p, y) && Descending(layers, y)
    ensures Ordered(Pile(p, layers)) && p.bg.a <= Pile(p, layers).bg.a
    decreases |layers|
  {
    if layers != [] && !Closed(p) {
      PlaceKeeps(p, layers[0], y);
      PileKeeps(Place(p, layers[0]), layers[1..], layers[0].y);
    }
  }

  /** Every scanned column: opaque height <= middle height <= top height. */
  lemma HeightsOrdered(col: Column, pal: Palette, nether: bool)
    requires WellFormed(col)
    ensures Ordered(RawPixel(col, pal, nether))
    ensures var p := Finish(RawPixel(col, pal, nether)); p.opaque_ <= p.mid <= p.top && p.bg.a == 255
  {
    var cut := Cut(col, nether);
    LayersDescend(cut, pal, nether, |cut.blocks|, |cut.blocks|);
    PileKeeps(UNSET, Layers(cut, pal, nether, |cut.blocks|), |cut.blocks|);
  }

  // ----- the front layer

  lemma {:induction false} PileFront(p: Pixel, layers: seq<Layer>)
    requires p.fg != CLEAR
    ensures Pile(p, layers).fg == p.fg && Pile(p, layers).top == p.top
    decreases |layers|
  {
    if layers != [] && !Closed(p) {
      PileFront(Place(p, layers[0]), layers[1..]);
    }
  }

  /** An opaque layer lies strictly below a translucent front layer, unless no
      layer closed the pixel and the opaque height is still zero. */
  lemma {:induction false} PileBelowFront(p: Pixel, layers: seq<Layer>, y: nat)
    requires p.fg != CLEAR && !Closed(p) && p.opaque_ == 0 && y <= p.top && Descending(layers, y)
    ensures Pile(p, layers).opaque_ == 0 || Pile(p, layers).opaque_ < p.top
    decreases |layers|
  {
    if layers != [] {
      var q := Place(p, layers[0]);
      if !Closed(q) {
        PileBelowFront(q, layers[1..], layers[0].y);
      }
    }
  }

  // ----- layers of the all-zero colour

  /** The layers whose colour is not all zero; the scan reads that colour as none
      set yet. */
  function Solid(layers: seq<Layer>): (r: seq<Layer>)
    ensures forall k | 0 <= k < |r| :: r[k].color != CLEAR
    decreases |layers|
  {
    if layers == [] then [] else
    (if layers[0].color == CLEAR then [] else [layers[0]]) + Solid(layers[1..])
  }

  /** Pixels that differ at most in their flags and in heights and biomes that go
      with a colour not set yet. */
  predicate Alike(p: Pixel, q: Pixel) {
    && p.fg == q.fg && p.middle == q.middle && p.bg == q.bg && p.opaque_ == q.opaque_
    && (p.fg != CLEAR ==> p.top == q.top && p.biome == q.biome)
    && (p.middle != CLEAR ==> p.mid == q.mid)
  }

  /** All-zero layers leave no trace but in the flags, and in a height or biome
      that goes with a colour never set. */
  lemma {:induction false} PileSolid(p: Pixel, q: Pixel, layers: seq<Layer>)
    requires Alike(p, q)
    ensures Alike(Pile(p, layers), Pile(q, Solid(layers)))
    decreases |layers|
  {
    if layers != [] && !Closed(p) {
      if layers[0].color == CLEAR {
        PileSolid(Place(p, layers[0]), q, layers[1..]);
        assert Solid(layers) == Solid(layers[1..]);
      } else {
        PileSolid(Place(p, layers[0]), Place(q, layers[0]), layers[1..]);
        assert Solid(layers)[1..] == Solid(layers[1..]);
      }
    }
  }

  lemma {:induction false} SolidTwice(layers: seq<Layer>)
    requires forall k | 0 <= k < |layers| :: layers[k].color != CLEAR
    ensures Solid(layers) == layers
    decreases |layers|
  {
    if layers != [] { SolidTwice(layers[1..]); }
  }

  lemma {:induction false} SolidDescends(layers: seq<Layer>, y: nat, z: nat)
    requires Descending(layers, y) && y <= z
    ensures Descending(Solid(layers), z)
    decreases |layers|
  {
    if layers != [] {
      SolidDescends(layers[1..], layers[0].y, if layers[0].color == CLEAR then z else layers[0].y);
      if layers[0].color == CLEAR {
        assert Solid(layers) == Solid(layers[1..]);
      } else {
        assert Solid(layers)[1..] == Solid(layers[1..]);
      }
    }
  }

  /** The palette without its all-zero entries. */
  function Bare(pal: Palette): Palette {
    pal.(colors := map name | name in pal.colors && pal.colors[name] != CLEAR :: pal.colors[name])
  }

  /** Leaving them out leaves out exactly the all-zero layers. */
  lemma {:induction false} BareLayers(col: Column, pal: Palette, nether: bool, n: nat)
    requires WellFormed(col) && n <= |col.blocks|
    ensures Layers(col, Bare(pal), nether, n) == Solid(Layers(col, pal, nether, n))
  {
    if n > 0 {
      BareLayers(col, pal, nether, n - 1);
      var layers := Layers(col, pal, nether, n);
      if layers != [] && IsLayer(col.blocks, pal, nether, n - 1) {
        assert layers[1..] == Layers(col, pal, nether, n - 1);
      }
    }
  }

  /** The biome flag of the pixel: that of the first solid layer or of any all-zero
      one above it. */
  function TintSeen(layers: seq<Layer>): bool
    decreases |layers|
  {
    layers != [] && (layers[0].tint || (layers[0].color == CLEAR && TintSeen(layers[1..])))
  }

  lemma {:induction false} PileFlags(p: Pixel, layers: seq<Layer>)
    requires !Closed(p)
    ensures p.fg != CLEAR ==> Pile(p, layers).tint == p.tint && Pile(p, layers).translucent == p.translucent
    ensures p.fg == CLEAR ==> Pile(p, layers).tint == (p.tint || TintSeen(layers))
    ensures p.fg == CLEAR ==>
              Pile(p, layers).translucent == (p.translucent || (layers != [] && layers[0].color.a < 255))
    decreases |layers|
  {
    if layers != [] && !Closed(Place(p, layers[0])) {
      PileFlags(Place(p, layers[0]), layers[1..]);
    }
  }

  /** With all-zero layers alone, the lowest of them leaves its height and biome. */
  lemma {:induction false} PileClear(p: Pixel, layers: seq<Layer>)
    requires p.fg == CLEAR && !Closed(p) && layers != [] && Solid(layers) == []
    ensures var lowest := layers[|layers| - 1];
            Pile(p, layers)
            == p.(top := lowest.y, biome := lowest.biome, tint := p.tint || TintSeen(layers), translucent := true)
    decreases |layers|
  {
    assert layers[0].color == CLEAR;
    if |layers| > 1 {
      PileClear(Place(p, layers[0]), layers[1..]);
    }
  }

  // ----- the front layer, for every list of layers

  lemma SolidFront(layers: seq<Layer>, y: nat)
    requires layers != [] && Descending(layers, y) && layers[0].color != CLEAR
    ensures var p := Finish(Pile(UNSET, layers));
            && p.top == layers[0].y
            && (p.fg == layers[0].color <==> layers[0].color.a < 255 && layers[0].y > 0)
            && (p.fg == CLEAR <==> layers[0].color.a == 255 || layers[0].y == 0)
  {
    var q := Place(UNSET, layers[0]);
    PileFront(q, layers[1..]);
    if !Closed(q) {
      PileBelowFront(q, layers[1..], layers[0].y);
    }
  }

  /** The topmost solid layer survives as the front colour exactly when it is
      translucent and above height zero.  At height zero the code mistakes it for
      the opaque layer and drops it. */
  lemma FrontLayerIff(layers: seq<Layer>, y: nat)
    requires Descending(layers, y)
    ensures var p, solid := Finish(Pile(UNSET, layers)), Solid(layers);
            if solid == [] then p.fg == CLEAR
            else
              && p.top == solid[0].y
              && (p.fg == solid[0].color <==> solid[0].color.a < 255 && solid[0].y > 0)
              && (p.fg == CLEAR <==> solid[0].color.a == 255 || solid[0].y == 0)
  {
    PileSolid(UNSET, UNSET, layers);
    SolidDescends(layers, y, y);
    if Solid(layers) != [] {
      SolidFront(Solid(layers), y);
      PileFront(Place(UNSET, Solid(layers)[0]), Solid(layers)[1..]);
    }
  }

  // ----- what a pile shows

  /** Layers blended downwards until they are opaque. */
  function Under(bg: Color, layers: seq<Layer>): Color
    decreases |layers|
  {
    if layers == [] || bg.a == 255 then bg else Under(Blend(bg, layers[0].color), layers[1..])
  }

  /** The height of the layer that makes them opaque, or zero. */
  function UnderHeight(bg: Color, layers: seq<Layer>): nat
    decreases |layers|
  {
    if layers == [] then 0
    else if Blend(bg, layers[0].color).a == 255 then layers[0].y
    else UnderHeight(Blend(bg, layers[0].color), layers[1..])
  }

  lemma {:induction false} PileUnder(p: Pixel, layers: seq<Layer>)
    requires p.fg != CLEAR && p.middle != CLEAR
    ensures var q := Pile(p, layers); q == p.(bg := Under(p.bg, layers), opaque_ := q.opaque_)
    ensures !Closed(p) && p.opaque_ == 0 ==> Pile(p, layers).opaque_ == UnderHeight(p.bg, layers)
    decreases |layers|
  {
    if layers != [] && !Closed(p) {
      PileUnder(Place(p, layers[0]), layers[1..]);
    }
  }

  lemma SolidShows(layers: seq<Layer>)
    requires layers != [] && forall k | 0 <= k < |layers| :: layers[k].color != CLEAR
    ensures var p := Pile(UNSET, layers);
            p.fg == layers[0].color && p.top == layers[0].y && p.biome == layers[0].biome
    ensures |layers| == 1 && layers[0].color.a < 255 ==>
              var p := Pile(UNSET, layers);
              p.middle == p.bg == CLEAR && p.opaque_ == 0
    ensures layers[0].color.a == 255 ==>
              var p := Pile(UNSET, layers);
              p.middle == p.bg == layers[0].color && p.mid == p.opaque_ == layers[0].y
    ensures layers[0].color.a < 255 && |layers| > 1 ==>
              var p := Pile(UNSET, layers);
              && p.middle == layers[1].color && p.mid == layers[1].y
              && (layers[1].color.a == 255 ==> p.bg == layers[1].color && p.opaque_ == layers[1].y)
              && (layers[1].color.a < 255 ==>
                    p.bg == Under(CLEAR, layers[2..]) && p.opaque_ == UnderHeight(CLEAR, layers[2..]))
  {
    var q := Place(UNSET, layers[0]);
    if |layers| > 1 && !Closed(q) {
      assert Pile(UNSET, layers) == Pile(q, layers[1..]);
      assert layers[1..][1..] == layers[2..];
      PileUnder(Place(q, layers[1]), layers[2..]);
    }
  }

  /** What any list of layers makes: of its solid layers the first is the front
      colour and decides biome and top height, the second is the middle colour, and
      the background is the first opaque one of these or the blend of all the
      others down to the one that makes it opaque.  Without a solid layer the lowest
      one decides biome and top height. */
  lemma PileShows(layers: seq<Layer>)
    ensures var p, solid := Pile(UNSET, layers), Solid(layers);
            if solid == [] then
              && p.fg == p.middle == p.bg == CLEAR && p.opaque_ == 0
              && (layers != [] ==> p.top == layers[|layers| - 1].y && p.biome == layers[|layers| - 1].biome)
              && (layers == [] ==> p.top == p.mid == p.biome == 0)
            else p.fg == solid[0].color && p.top == solid[0].y && p.biome == solid[0].biome
    ensures var p := Pile(UNSET, layers);
            p.tint == TintSeen(layers) && p.translucent == (layers != [] && layers[0].color.a < 255)
    ensures var p, solid := Pile(UNSET, layers), Solid(layers);
            |solid| == 1 && solid[0].color.a < 255 ==> p.middle == p.bg == CLEAR && p.opaque_ == 0
    ensures var p, solid := Pile(UNSET, layers), Solid(layers);
            solid != [] && solid[0].color.a == 255 ==>
              p.middle == p.bg == solid[0].color && p.mid == p.opaque_ == solid[0].y
    ensures var p, solid := Pile(UNSET, layers), Solid(layers);
            |solid| > 1 && solid[0].color.a < 255 ==>
              && p.middle == solid[1].color && p.mid == solid[1].y
              && (solid[1].color.a == 255 ==> p.bg == solid[1].color && p.opaque_ == solid[1].y)
              && (solid[1].color.a < 255 ==>
                    p.bg == Under(CLEAR, solid[2..]) && p.opaque_ == UnderHeight(CLEAR, solid[2..]))
  {
    PileSolid(UNSET, UNSET, layers);
    PileFlags(UNSET, layers);
    if Solid(layers) != [] {
      SolidShows(Solid(layers));
    } else if layers != [] {
      PileClear(UNSET, layers);
    }
  }

  // ----- hidden blocks

  ghost predicate AgreeFrom(a: Column, b: Column, k: nat)
    requires WellFormed(a) && WellFormed(b) && |a.blocks| == |b.blocks|
  {
    forall i | k <= i < |a.blocks| :: a.blocks[i] == b.blocks[i] && a.biomes[i] == b.biomes[i]
  }

  lemma {:induction false} NamesAgree(a: Column, b: Column, nether: bool, k: nat, y: nat)
    requires WellFormed(a) && WellFormed(b) && |a.blocks| == |b.blocks|
    requires AgreeFrom(a, b, k) && k <= y
    ensures NameAt(a.blocks, nether, y) == NameAt(b.blocks, nether, y)
    ensures y < |a.blocks| ==> Noticed(a.blocks, nether, y) == Noticed(b.blocks, nether, y)
    decreases |a.blocks| - y
  {
    if y < |a.blocks| {
      assert forall i | y <= i < |a.blocks| :: AirAt(a.blocks, i) == AirAt(b.blocks, i);
      assert AirAbove(a.blocks, y) == AirAbove(b.blocks, y);
      NamesAgree(a, b, nether, k, y + 1);
    }
  }

  lemma {:induction false} ClosesBelow(p: Pixel, layers: seq<Layer>, y: nat)
    requires !Closed(p) && Closed(Pile(p, layers)) && Descending(layers, y)
    ensures Pile(p, layers).opaque_ < y
    decreases |layers|
  {
    if layers != [] && !Closed(Place(p, layers[0])) {
      ClosesBelow(Place(p, layers[0]), layers[1..], layers[0].y);
    }
  }

  lemma {:induction false} PilesAgree(a: Column, b: Column, pal: Palette, nether: bool, k: nat, n: nat, p: Pixel)
    requires WellFormed(a) && WellFormed(b) && |a.blocks| == |b.blocks| && n <= |a.blocks| && !Closed(p)
    requires AgreeFrom(a, b, k)
    requires var r := Pile(p, Layers(a, pal, nether, n)); Closed(r) && k <= r.opaque_
    ensures Pile(p, Layers(a, pal, nether, n)) == Pile(p, Layers(b, pal, nether, n))
  {
    LayersDescend(a, pal, nether, n, n);
    ClosesBelow(p, Layers(a, pal, nether, n), n);
    var y := n - 1;
    NamesAgree(a, b, nether, k, y);
    NamesAgree(a, b, nether, k, n);
    assert IsLayer(a.blocks, pal, nether, y) == IsLayer(b.blocks, pal, nether, y);
    if !IsLayer(a.blocks, pal, nether, y) {
      PilesAgree(a, b, pal, nether, k, y, p);
    } else if !Closed(Place(p, LayerAt(a, pal, y))) {
      PilesAgree(a, b, pal, nether, k, y, Place(p, LayerAt(a, pal, y)));
    }
  }

  /** Nothing below the block that closed the pixel can change it. */
  lemma HiddenBlocksDoNotMatter(a: Column, b: Column, pal: Palette, nether: bool)
    requires WellFormed(a) && WellFormed(b) && |a.blocks| == |b.blocks|
    requires var r := RawPixel(a, pal, nether); Closed(r) && AgreeFrom(a, b, r.opaque_)
    ensures RawPixel(a, pal, nether) == RawPixel(b, pal, nether)
  {
    var c, d := Cut(a, nether), Cut(b, nether);
    PilesAgree(c, d, pal, nether, RawPixel(a, pal, nether).opaque_, |c.blocks|, UNSET);
  }
}
