/**
 * The text sample's renderer: a cache of glyph textures keyed by character and stroke mode, and the
 * left-to-right layout that draws one textured quad per glyph and moves the pen by each glyph's
 * advance. CoreText's glyph lookup and metrics and CoreGraphics' rasterisation are inputs (a `Font`);
 * floating-point arithmetic is modelled over the reals.
 */
module TextRenderer {
  import opened Common
  import Encoder

  /** `CharacterKey`: stroked and filled renderings of a character are cached apart. */
  datatype CharacterKey = CharacterKey(character: char, isStroked: bool)

  /** `vector_float2` */
  datatype Vec2 = Vec2(x: real, y: real)

  function Add(a: Vec2, b: Vec2): Vec2 {
    Vec2(a.x + b.x, a.y + b.y)
  }

  /** A side of a standardised `CGRect`. */
  type Extent = r: real | r >= 0.0

  /**
   * What CoreText reports for a character at `FONT_SIZE`: the glyph code of its first UTF-16 unit
   * (0 when the font has none), the glyph's bounding rectangle and its horizontal advance.
   */
  datatype Outline = Outline(glyphCode: nat, minX: real, minY: real, width: Extent, height: Extent, advance: real)

  /**
   * The foreign part of `loadGlyphs`: the outline of a character, and the texture made from the
   * bitmap into which its path is filled or stroked.
   */
  datatype Font = Font(outline: char -> Outline, texture: CharacterKey -> Encoder.TextureId)

  /** The single-channel texture a glyph is drawn from: its size, its row pitch and whether it has mipmaps. */
  datatype GlyphTexture = GlyphTexture(id: Encoder.TextureId, width: nat, height: nat, bytesPerRow: nat, mipmapped: bool)

  /** `Glyph` */
  datatype Glyph = Glyph(texture: GlyphTexture, size: Vec2, bearing: Vec2, advance: real, glyphCode: nat, fontSize: real)

  /** `FONT_SIZE` */
  const FontSize: real := 100.0

  /**
   * `Int(side + 1)`: Swift's conversion truncates toward zero, which for a non-negative side is the
   * floor; the bitmap side covers the glyph with less than one pixel to spare.
   */
  function BitmapSide(side: Extent): (r: nat)
    ensures 1 <= r
    ensures (r - 1) as real <= side < r as real
  {
    (side + 1.0).Floor
  }

  /**
   * The glyph `loadGlyphs` builds on a cache miss: a one-byte-per-pixel texture whose sides cover
   * the bounding rectangle, the rectangle's size, its left and top edges as the bearing, the
   * advance and glyph code CoreText reports, and the requested font size.
   */
  function BuildGlyph(font: Font, key: CharacterKey, fontSize: real): (g: Glyph)
    ensures var o := font.outline(key.character);
            && g.texture.id == font.texture(key) && !g.texture.mipmapped
            && g.texture.bytesPerRow == g.texture.width
            && (g.texture.width - 1) as real <= g.size.x < g.texture.width as real
            && (g.texture.height - 1) as real <= g.size.y < g.texture.height as real
            && g.size == Vec2(o.width, o.height)
            && g.bearing == Vec2(o.minX, o.minY + o.height)
            && g.advance == o.advance && g.glyphCode == o.glyphCode && g.fontSize == fontSize
  {
    var o := font.outline(key.character);
    var width := BitmapSide(o.width);
    var height := BitmapSide(o.height);
    Glyph(GlyphTexture(font.texture(key), width, height, width, false),
          Vec2(o.width, o.height), Vec2(o.minX, o.minY + o.height), o.advance, o.glyphCode, fontSize)
  }

  /** A cached glyph is reused only when it was made at least as large as requested. */
  predicate CacheHit(glyphs: map<CharacterKey, Glyph>, key: CharacterKey, fontSize: real) {
    key in glyphs && glyphs[key].fontSize >= fontSize
  }

  /** The glyph `loadGlyphs` returns and the cache it leaves. */
  datatype Loaded = Loaded(glyph: Glyph, glyphs: map<CharacterKey, Glyph>)

  /**
   * `loadGlyphs`: a hit returns the cached glyph and changes nothing; a miss builds the glyph and
   * stores it under the key, replacing any smaller one. Either way the key then holds the returned
   * glyph, which is at least as large as requested, and every other key is untouched.
   */
  function LoadGlyph(glyphs: map<CharacterKey, Glyph>, key: CharacterKey, fontSize: real, font: Font): (r: Loaded)
    ensures CacheHit(glyphs, key, fontSize) ==> r == Loaded(glyphs[key], glyphs)
    ensures !CacheHit(glyphs, key, fontSize) ==> r.glyph == BuildGlyph(font, key, fontSize)
    ensures key in r.glyphs && r.glyphs[key] == r.glyph && r.glyph.fontSize >= fontSize
    ensures forall k :: k != key ==> (k in r.glyphs <==> k in glyphs)
    ensures forall k :: k != key && k in glyphs ==> r.glyphs[k] == glyphs[k]
  {
    if CacheHit(glyphs, key, fontSize) then Loaded(glyphs[key], glyphs)
    else
      var g := BuildGlyph(font, key, fontSize);
      Loaded(g, glyphs[key := g])
  }

  /** Loading the same key again, at the same or a smaller size, is a hit that returns the same glyph. */
  lemma ReloadHits(glyphs: map<CharacterKey, Glyph>, key: CharacterKey, fontSize: real, smaller: real, font: Font)
    requires smaller <= fontSize
    ensures var first := LoadGlyph(glyphs, key, fontSize, font);
            LoadGlyph(first.glyphs, key, smaller, font) == first
  {
    var first := LoadGlyph(glyphs, key, fontSize, font);
    assert CacheHit(first.glyphs, key, smaller);
  }

  /** The shader's `Vertex`: a position and a texture coordinate. */
  datatype Vertex = Vertex(position: Vec2, texCoords: Vec2)

  /** The four floats of one vertex, in memory order. */
  function VertexFloats(v: Vertex): seq<real> {
    [v.position.x, v.position.y, v.texCoords.x, v.texCoords.y]
  }

  /** The bytes `setVertexBytes` passes, as floats: four per vertex, vertex after vertex. */
  function VertexData(vs: seq<Vertex>): (r: seq<real>)
    ensures |r| == 4 * |vs|
    ensures forall i :: 0 <= i < |vs| ==> r[4 * i..4 * i + 4] == VertexFloats(vs[i])
  {
    if vs == [] then []
    else
      var rest := VertexData(vs[1..]);
      assert forall i :: 1 <= i < |vs| ==> (VertexFloats(vs[0]) + rest)[4 * i..4 * i + 4] == rest[4 * (i - 1)..4 * (i - 1) + 4];
      VertexFloats(vs[0]) + rest
  }

  /** The top-left corner of a glyph drawn with its baseline origin at `pen`. */
  function TopLeft(g: Glyph, pen: Vec2): Vec2 {
    Vec2(pen.x + g.bearing.x, pen.y - g.bearing.y)
  }

  /**
   * A glyph's quad as a triangle strip: the corners left-top, right-top, left-bottom, right-bottom
   * of the glyph's rectangle, each at the texture coordinate of the same texture corner, so that
   * every position is the top-left corner plus the glyph's size scaled by the texture coordinate.
   */
  function Quad(g: Glyph, pen: Vec2): (r: seq<Vertex>)
    ensures |r| == 4
    ensures [r[0].texCoords, r[1].texCoords, r[2].texCoords, r[3].texCoords]
         == [Vec2(0.0, 0.0), Vec2(1.0, 0.0), Vec2(0.0, 1.0), Vec2(1.0, 1.0)]
    ensures forall i :: 0 <= i < 4 ==>
      r[i].position == Add(TopLeft(g, pen), Vec2(g.size.x * r[i].texCoords.x, g.size.y * r[i].texCoords.y))
  {
    var lt := TopLeft(g, pen);
    [Vertex(lt, Vec2(0.0, 0.0)),
     Vertex(Add(lt, Vec2(g.size.x, 0.0)), Vec2(1.0, 0.0)),
     Vertex(Add(lt, Vec2(0.0, g.size.y)), Vec2(0.0, 1.0)),
     Vertex(Add(lt, Vec2(g.size.x, g.size.y)), Vec2(1.0, 1.0))]
  }

  /**
   * The calls that draw one glyph: none for glyph code 0; otherwise its quad at vertex index 0, its
   * texture at fragment index 0, and one four-vertex triangle strip.
   */
  function GlyphCommands(g: Glyph, pen: Vec2): (r: seq<Encoder.Command>)
    ensures r == [] <==> g.glyphCode == 0
    ensures g.glyphCode != 0 ==>
      && |r| == 3
      && r[0] == Encoder.SetVertexBytes(VertexData(Quad(g, pen)), 0)
      && r[1] == Encoder.SetFragmentTexture(g.texture.id, 0)
      && r[2] == Encoder.DrawPrimitives(Encoder.TriangleStrip, 0, |Quad(g, pen)|, None)
  {
    if g.glyphCode == 0 then []
    else
      [Encoder.SetVertexBytes(VertexData(Quad(g, pen)), 0),
       Encoder.SetFragmentTexture(g.texture.id, 0),
       Encoder.DrawPrimitives(Encoder.TriangleStrip, 0, 4, None)]
  }

  /** The sum of the glyphs' advances. */
  function Advances(gs: seq<Glyph>): real {
    if gs == [] then 0.0 else Advances(gs[..|gs| - 1]) + gs[|gs| - 1].advance
  }

  /** The pen after `gs` were laid out from `pen`: moved right by their advances, at the same height. */
  function PenAfter(pen: Vec2, gs: seq<Glyph>): Vec2 {
    Vec2(pen.x + Advances(gs), pen.y)
  }

  /** Laying out `a` and then `b` moves the pen as far as laying out `a + b`. */
  lemma {:induction false} PenAfterAppend(pen: Vec2, a: seq<Glyph>, b: seq<Glyph>)
    ensures PenAfter(PenAfter(pen, a), b) == PenAfter(pen, a + b)
    decreases |b|
  {
    if b == [] {
      assert a + b == a;
    } else {
      var init := b[..|b| - 1];
      assert (a + b)[..|a + b| - 1] == a + init;
      PenAfterAppend(pen, a, init);
    }
  }

  /** What drawing a run of glyphs from `pen` emits: each glyph's calls at the pen its predecessors left. */
  function Drawn(gs: seq<Glyph>, pen: Vec2): seq<Encoder.Command> {
    if gs == [] then []
    else
      var init := gs[..|gs| - 1];
      Drawn(init, pen) + GlyphCommands(gs[|gs| - 1], PenAfter(pen, init))
  }

  /** Drawing `a + b` is drawing `a`, then drawing `b` from where `a` left the pen. */
  lemma {:induction false} DrawnAppend(a: seq<Glyph>, b: seq<Glyph>, pen: Vec2)
    ensures Drawn(a + b, pen) == Drawn(a, pen) + Drawn(b, PenAfter(pen, a))
    decreases |b|
  {
    if b == [] {
      assert a + b == a && Drawn(a, pen) + [] == Drawn(a, pen);
    } else {
      var init, last := b[..|b| - 1], b[|b| - 1];
      DrawnAppend(a, init, pen);
      PenAfterAppend(pen, a, init);
      var c := GlyphCommands(last, PenAfter(pen, a + init));
      assert Drawn(a + b, pen) == Drawn(a + init, pen) + c by {
        assert (a + b)[..|a + b| - 1] == a + init && (a + b)[|a + b| - 1] == last;
      }
      AppendAssoc(Drawn(a, pen), Drawn(init, PenAfter(pen, a)), c);
    }
  }

  /**
   * Glyph i of a run is drawn at the pen moved by the advances of the glyphs before it, after the
   * calls of those glyphs and before the calls of the ones after it.
   */
  lemma DrawnAt(gs: seq<Glyph>, pen: Vec2, i: nat)
    requires i < |gs|
    ensures Drawn(gs, pen)
         == Drawn(gs[..i], pen) + GlyphCommands(gs[i], PenAfter(pen, gs[..i])) + Drawn(gs[i + 1..], PenAfter(pen, gs[..i + 1]))
  {
    assert gs == gs[..i + 1] + gs[i + 1..];
    DrawnAppend(gs[..i + 1], gs[i + 1..], pen);
    assert gs[..i + 1][..i] == gs[..i];
    assert Drawn(gs[..i + 1], pen) == Drawn(gs[..i], pen) + GlyphCommands(gs[i], PenAfter(pen, gs[..i]));
  }

  /** The glyphs a run of text used, in text order, and the cache it leaves. */
  datatype Run = Run(glyphs: map<CharacterKey, Glyph>, used: seq<Glyph>)

  /**
   * The glyphs `renderText` loads: one per character, in text order, each at `FONT_SIZE`, the
   * cache each load leaves being the one the next load sees.
   */
  function TextGlyphs(glyphs: map<CharacterKey, Glyph>, text: string, isStroke: bool, font: Font): (r: Run)
    ensures |r.used| == |text|
    decreases |text|
  {
    if text == [] then Run(glyphs, [])
    else
      var l := LoadGlyph(glyphs, CharacterKey(text[0], isStroke), FontSize, font);
      var rest := TextGlyphs(l.glyphs, text[1..], isStroke, font);
      Run(rest.glyphs, [l.glyph] + rest.used)
  }

  /**
   * Loading the glyphs of two strings one after the other, the second with the cache the first
   * left, is loading those of their concatenation; with `DrawnAppend` and `PenAfterAppend`, this is
   * what passing `origin` `inout` through successive `renderText` calls gives.
   */
  lemma {:induction false} TextGlyphsAppend(glyphs: map<CharacterKey, Glyph>, a: string, b: string, isStroke: bool, font: Font)
    ensures var r1 := TextGlyphs(glyphs, a, isStroke, font);
            var r2 := TextGlyphs(r1.glyphs, b, isStroke, font);
            TextGlyphs(glyphs, a + b, isStroke, font) == Run(r2.glyphs, r1.used + r2.used)
    decreases |a|
  {
    if a == [] {
      assert a + b == b;
    } else {
      var l := LoadGlyph(glyphs, CharacterKey(a[0], isStroke), FontSize, font);
      assert (a + b)[0] == a[0] && (a + b)[1..] == a[1..] + b;
      TextGlyphsAppend(l.glyphs, a[1..], b, isStroke, font);
      var t1 := TextGlyphs(l.glyphs, a[1..], isStroke, font);
      var t2 := TextGlyphs(t1.glyphs, b, isStroke, font);
      AppendAssoc([l.glyph], t1.used, t2.used);
    }
  }

  /** A key already cached at least at `FONT_SIZE` keeps its glyph through a run, and every use of it is that glyph. */
  lemma {:induction false} TextGlyphsKeepHit(glyphs: map<CharacterKey, Glyph>, text: string, isStroke: bool, font: Font, key: CharacterKey)
    requires key in glyphs && glyphs[key].fontSize >= FontSize
    ensures var r := TextGlyphs(glyphs, text, isStroke, font);
            && key in r.glyphs && r.glyphs[key] == glyphs[key]
            && forall i :: 0 <= i < |text| && CharacterKey(text[i], isStroke) == key ==> r.used[i] == glyphs[key]
    decreases |text|
  {
    if text != [] {
      var l := LoadGlyph(glyphs, CharacterKey(text[0], isStroke), FontSize, font);
      var rest := TextGlyphs(l.glyphs, text[1..], isStroke, font);
      var r := TextGlyphs(glyphs, text, isStroke, font);
      assert l.glyphs[key] == glyphs[key];
      TextGlyphsKeepHit(l.glyphs, text[1..], isStroke, font, key);
      forall i | 0 <= i < |text| && CharacterKey(text[i], isStroke) == key
        ensures r.used[i] == glyphs[key]
      {
        if i > 0 {
          assert text[i] == text[1..][i - 1] && r.used[i] == rest.used[i - 1];
        }
      }
    }
  }

  /**
   * The cache after a run: every character of the text is cached, at least at `FONT_SIZE`, with the
   * very glyph it was drawn with, and every key no character of the text maps to is untouched.
   */
  lemma {:induction false} TextGlyphsCached(glyphs: map<CharacterKey, Glyph>, text: string, isStroke: bool, font: Font)
    ensures var r := TextGlyphs(glyphs, text, isStroke, font);
            && (forall i :: 0 <= i < |text| ==>
                  var key := CharacterKey(text[i], isStroke);
                  key in r.glyphs && r.glyphs[key] == r.used[i] && r.used[i].fontSize >= FontSize)
            && (forall k: CharacterKey :: k.isStroked != isStroke || k.character !in text ==>
                  (k in r.glyphs <==> k in glyphs) && (k in glyphs ==> r.glyphs[k] == glyphs[k]))
    decreases |text|
  {
    if text != [] {
      var key := CharacterKey(text[0], isStroke);
      var l := LoadGlyph(glyphs, key, FontSize, font);
      var rest := TextGlyphs(l.glyphs, text[1..], isStroke, font);
      var r := TextGlyphs(glyphs, text, isStroke, font);
      TextGlyphsCached(l.glyphs, text[1..], isStroke, font);
      TextGlyphsKeepHit(l.glyphs, text[1..], isStroke, font, key);
      forall i | 0 <= i < |text|
        ensures CharacterKey(text[i], isStroke) in r.glyphs && r.glyphs[CharacterKey(text[i], isStroke)] == r.used[i]
        ensures r.used[i].fontSize >= FontSize
      {
        if i > 0 {
          assert text[i] == text[1..][i - 1] && r.used[i] == rest.used[i - 1];
        }
      }
      forall k: CharacterKey | k.isStroked != isStroke || k.character !in text
        ensures (k in r.glyphs <==> k in glyphs) && (k in glyphs ==> r.glyphs[k] == glyphs[k])
      {
        assert k.character !in text ==> k.character != text[0] && k.character !in text[1..];
      }
    }
  }

  /**
   * A character met again in the text is not rasterised again: the cache the j-th load sees holds
   * the character's key at `FONT_SIZE` or more, so that load is a hit that returns the glyph the
   * earlier occurrence left and changes nothing.
   */
  lemma RepeatIsHit(glyphs: map<CharacterKey, Glyph>, text: string, isStroke: bool, font: Font, i: nat, j: nat)
    requires i < j < |text| && text[i] == text[j]
    ensures var before := TextGlyphs(glyphs, text[..j], isStroke, font);
            var key := CharacterKey(text[j], isStroke);
            && CacheHit(before.glyphs, key, FontSize)
            && LoadGlyph(before.glyphs, key, FontSize, font) == Loaded(before.glyphs[key], before.glyphs)
  {
    TextGlyphsCached(glyphs, text[..j], isStroke, font);
    assert text[..j][i] == text[i];
  }

  /**
   * Part way through `renderText`: the glyphs still to load leave the cache the whole run leaves and
   * follow those used so far, the calls so far draw those, and the pen is where they leave it.
   */
  ghost predicate Progress(whole: Run, log0: seq<Encoder.Command>, origin: Vec2, rest: Run,
                           log: seq<Encoder.Command>, used: seq<Glyph>, pen: Vec2) {
    && rest.glyphs == whole.glyphs
    && whole.used == used + rest.used
    && log == log0 + Drawn(used, origin)
    && pen == PenAfter(origin, used)
  }

  /** The text sample's renderer, reduced to its glyph cache. */
  class Renderer {
    var glyphs: map<CharacterKey, Glyph>

    /** `init(mtkView:)`: the cache starts empty. */
    constructor ()
      ensures glyphs == map[]
    {
      glyphs := map[];
    }

    /** `loadGlyphs(_:isStroke:fontSize:)` */
    method LoadGlyphs(c: char, isStroke: bool, fontSize: real, font: Font) returns (g: Glyph)
      modifies this
      ensures var l := LoadGlyph(old(glyphs), CharacterKey(c, isStroke), fontSize, font);
              g == l.glyph && glyphs == l.glyphs
    {
      var charKey := CharacterKey(c, isStroke);
      if charKey in glyphs && glyphs[charKey].fontSize >= fontSize {
        return glyphs[charKey];
      }
      var o := font.outline(c);
      var width := (o.width + 1.0).Floor;
      var height := (o.height + 1.0).Floor;
      var texture := GlyphTexture(font.texture(charKey), width, height, width, false);
      g := Glyph(texture, Vec2(o.width, o.height), Vec2(o.minX, o.minY + o.height), o.advance, o.glyphCode, fontSize);
      glyphs := glyphs[charKey := g];
    }

    /**
     * `renderText(_:renderEncoder:origin:isStrok:)`: the glyphs of the text are loaded in order
     * through the cache, they are drawn one after the other from `origin`, and the pen is returned
     * through `origin` moved by all their advances.
     */
    method RenderText(text: string, renderEncoder: Encoder.RenderCommandEncoder, origin: Vec2, isStroke: bool, font: Font)
      returns (newOrigin: Vec2)
      modifies this, renderEncoder
      ensures var r := TextGlyphs(old(glyphs), text, isStroke, font);
              && glyphs == r.glyphs
              && renderEncoder.log == old(renderEncoder.log) + Drawn(r.used, origin)
              && newOrigin == PenAfter(origin, r.used)
    {
      var pen := origin;
      ghost var whole := TextGlyphs(glyphs, text, isStroke, font);
      ghost var log0 := renderEncoder.log;
      ghost var used: seq<Glyph> := [];
      assert text[0..] == text;
      for k := 0 to |text|
        invariant Progress(whole, log0, origin, TextGlyphs(glyphs, text[k..], isStroke, font), renderEncoder.log, used, pen)
      {
        pen, used := RenderCharacter(text, k, renderEncoder, pen, isStroke, font, whole, log0, origin, used);
      }
      assert text[|text|..] == [];
      assert TextGlyphs(glyphs, text[|text|..], isStroke, font) == Run(glyphs, []);
      assert used + [] == used;
      newOrigin := pen;
    }

    /** One turn of `renderText`'s loop: load character k's glyph, draw it at the pen, advance the pen. */
    method RenderCharacter(text: string, k: nat, renderEncoder: Encoder.RenderCommandEncoder, pen: Vec2, isStroke: bool, font: Font,
                           ghost whole: Run, ghost log0: seq<Encoder.Command>, ghost origin: Vec2, ghost used: seq<Glyph>)
      returns (newPen: Vec2, ghost newUsed: seq<Glyph>)
      requires k < |text|
      requires Progress(whole, log0, origin, TextGlyphs(glyphs, text[k..], isStroke, font), renderEncoder.log, used, pen)
      modifies this, renderEncoder
      ensures Progress(whole, log0, origin, TextGlyphs(glyphs, text[k + 1..], isStroke, font), renderEncoder.log, newUsed, newPen)
    {
      ghost var rest := TextGlyphs(glyphs, text[k..], isStroke, font);
      ghost var l := LoadGlyph(glyphs, CharacterKey(text[k], isStroke), FontSize, font);
      ghost var next := TextGlyphs(l.glyphs, text[k + 1..], isStroke, font);
      assert rest == Run(next.glyphs, [l.glyph] + next.used) by {
        TextGlyphsStep(glyphs, text, k, isStroke, font);
      }
      var glyph := LoadGlyphs(text[k], isStroke, FontSize, font);
      ghost var logBefore := renderEncoder.log;
      DrawGlyph(renderEncoder, glyph, pen);
      LayoutStep(log0, logBefore, used, glyph, origin);
      AppendAssoc(used, [glyph], next.used);
      newUsed := used + [glyph];
      newPen := Vec2(pen.x + glyph.advance, pen.y);
    }
  }

  /** The glyphs of `text[k..]`: character k's, loaded through `glyphs`, then those of the rest. */
  lemma TextGlyphsStep(glyphs: map<CharacterKey, Glyph>, text: string, k: nat, isStroke: bool, font: Font)
    requires k < |text|
    ensures var l := LoadGlyph(glyphs, CharacterKey(text[k], isStroke), FontSize, font);
            var next := TextGlyphs(l.glyphs, text[k + 1..], isStroke, font);
            TextGlyphs(glyphs, text[k..], isStroke, font) == Run(next.glyphs, [l.glyph] + next.used)
  {
    assert text[k..][0] == text[k] && text[k..][1..] == text[k + 1..];
  }

  /** One more glyph: its calls follow the earlier ones, at the pen they left, and it moves the pen by its advance. */
  lemma LayoutStep(log0: seq<Encoder.Command>, log: seq<Encoder.Command>, gs: seq<Glyph>, g: Glyph, pen: Vec2)
    requires log == log0 + Drawn(gs, pen)
    ensures log + GlyphCommands(g, PenAfter(pen, gs)) == log0 + Drawn(gs + [g], pen)
    ensures PenAfter(pen, gs + [g]) == Vec2(PenAfter(pen, gs).x + g.advance, pen.y)
  {
    var c := GlyphCommands(g, PenAfter(pen, gs));
    assert Drawn(gs + [g], pen) == Drawn(gs, pen) + c by {
      assert (gs + [g])[..|gs|] == gs && (gs + [g])[|gs|] == g;
    }
    assert PenAfter(pen, gs + [g]) == Vec2(PenAfter(pen, gs).x + g.advance, pen.y) by {
      assert (gs + [g])[..|gs|] == gs && (gs + [g])[|gs|] == g;
    }
    AppendAssoc(log0, Drawn(gs, pen), c);
  }

  /** One turn of `renderText`'s loop after the glyph is loaded: nothing for glyph code 0, otherwise its quad. */
  method DrawGlyph(renderEncoder: Encoder.RenderCommandEncoder, glyph: Glyph, pen: Vec2)
    modifies renderEncoder
    ensures renderEncoder.log == old(renderEncoder.log) + GlyphCommands(glyph, pen)
  {
    if glyph.glyphCode == 0 {
      return;
    }
    var lt := Vec2(pen.x + glyph.bearing.x, pen.y - glyph.bearing.y);
    var rt := Add(lt, Vec2(glyph.size.x, 0.0));
    var lb := Add(lt, Vec2(0.0, glyph.size.y));
    var rb := Add(lt, Vec2(glyph.size.x, glyph.size.y));
    var vertices := [
      Vertex(lt, Vec2(0.0, 0.0)),
      Vertex(rt, Vec2(1.0, 0.0)),
      Vertex(lb, Vec2(0.0, 1.0)),
      Vertex(rb, Vec2(1.0, 1.0))
    ];
    assert vertices == Quad(glyph, pen);
    renderEncoder.Emit(Encoder.SetVertexBytes(VertexData(vertices), 0));
    renderEncoder.Emit(Encoder.SetFragmentTexture(glyph.texture.id, 0));
    renderEncoder.Emit(Encoder.DrawPrimitives(Encoder.TriangleStrip, 0, 4, None));
  }
}
