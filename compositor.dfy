/** The compositor as a draw plan: instead of pixels, the ordered draw
    commands `add_watermark_to_image` issues (watermark_cli_v2.py:100-166,
    watermark_gui.py:469-523), the layer they are drawn on, and the image
    mode that comes out. Text measurement and font loading are inputs. */
module Compositor {
  import opened Values
  import opened PyStr
  import opened Position

  /** A fill as passed to `draw.text`: an RGBA tuple, a colour name, or the
      colour setting passed through untouched. */
  datatype Fill = Rgba(r: int, g: int, b: int, a: int) | Named(name: string) | AsGiven(color: Value)

  datatype DrawCommand = DrawCommand(x: int, y: int, fill: Fill)

  /** What an image contributes: its size and its PIL mode. */
  datatype Image = Image(width: int, height: int, mode: string)

  /** The outcome of composing: the input returned as it is, or a copy with
      `commands` drawn in order, on a transparent overlay when `overlay`,
      ending in mode `mode`. */
  datatype Composition =
    | Unchanged
    | Drawn(text: string, overlay: bool, commands: seq<DrawCommand>, mode: string)

  /** The style decided before anything is drawn. */
  datatype Style = Style(text: string, x: int, y: int, overlay: bool, fill: Fill,
                         outline: Option<Fill>, shadow: Option<Fill>)

  // ------------------------------------------------------------- colour

  /** `int(n / d)` for a positive `d`: true division, then truncation
      toward zero (Dafny's `/` alone would floor a negative `n`). */
  function TruncDiv(n: int, d: int): (q: int)
    requires d > 0
    ensures n >= 0 ==> q * d <= n < (q + 1) * d
    ensures n < 0 ==> (q - 1) * d < n <= q * d
  {
    if n >= 0 then n / d else -((-n) / d)
  }

  /** `int(255 * opacity / 100)`. */
  function Alpha(opacity: int): (a: int)
    ensures 0 <= opacity <= 100 ==> 0 <= a <= 255
  {
    TruncDiv(255 * opacity, 100)
  }

  /** `tuple(int(color[i:i+2], 16) for i in (1, 3, 5))`: the first field
      that does not parse raises. */
  function ParseHexColor(color: string): Option<(int, int, int)> {
    var r := ParseHexField(Slice(color, 1, 3));
    var g := ParseHexField(Slice(color, 3, 5));
    var b := ParseHexField(Slice(color, 5, 7));
    if r.Some? && g.Some? && b.Some? then Some((r.value, g.value, b.value)) else None
  }

  /** The fill colour: below full opacity a `#` colour becomes its three
      channels plus alpha, and any other colour value raises (a string has
      to be concatenated with a tuple, anything else has no `startswith`);
      at full opacity the setting is passed on as it is. */
  function FillColor(color: Value, opacity: int): (r: Result<Fill>)
    ensures opacity >= 100 ==> r == Ok(AsGiven(color))
    ensures opacity < 100 && r.Ok? ==> r.value.Rgba? && r.value.a == Alpha(opacity)
  {
    if opacity < 100 then
      if !color.VStr? then Err(WrongType("color"))
      else if StartsWith(color.s, "#") then
        match ParseHexColor(color.s)
        case Some((red, green, blue)) => Ok(Rgba(red, green, blue, Alpha(opacity)))
        case None => Err(BadHexColor(color.s))
      else Err(ColorNotTuple(color.s))
    else Ok(AsGiven(color))
  }

  /** The mode after composing: an overlay is composited in RGBA and then
      converted back unless the input was RGBA already. */
  function ResultMode(mode: string, overlay: bool): string {
    if overlay then (if mode != "RGBA" then mode else "RGBA") else mode
  }

  // --------------------------------------------------------- draw order

  /** The outline: one copy per (dx, dy) of [-1, 0, 1] x [-1, 0, 1] except
      (0, 0), dx the outer loop. */
  function OutlineRing(x: int, y: int, f: Fill): seq<DrawCommand> {
    [DrawCommand(x - 1, y - 1, f), DrawCommand(x - 1, y, f), DrawCommand(x - 1, y + 1, f),
     DrawCommand(x, y - 1, f),                                DrawCommand(x, y + 1, f),
     DrawCommand(x + 1, y - 1, f), DrawCommand(x + 1, y, f), DrawCommand(x + 1, y + 1, f)]
  }

  /** Outline (if any), then shadow at (+2, +2) (if any), then the fill. */
  function Plan(s: Style): seq<DrawCommand> {
    (if s.outline.Some? then OutlineRing(s.x, s.y, s.outline.value) else [])
    + (if s.shadow.Some? then [DrawCommand(s.x + 2, s.y + 2, s.shadow.value)] else [])
    + [DrawCommand(s.x, s.y, s.fill)]
  }

  // ------------------------------------------------ the command-line tool

  /** Everything `WatermarkProcessor.add_watermark_to_image` decides before
      drawing, reading the settings in the order the code does; `None` is
      the early return for an empty text. `textSize` is what `textbbox`
      measures. */
  function CliStyle(ws: Settings, image: Image, text: Option<Value>, textSize: (int, int)): Result<Option<Style>> {
    var t :- if text.Some? then Ok(text.value) else Get(ws, "text");
    if !Truthy(t) then Ok(None)
    else
      var opacity :- GetInt(ws, "opacity");
      var _ :- Get(ws, "font_size");
      if !t.VStr? then Err(TextNotString)
      else
        var (x, y) :- CliPosition(ws, image.width, image.height, textSize.0, textSize.1);
        var color :- Get(ws, "color");
        var fill :- FillColor(color, opacity);
        var outline :- Get(ws, "outline");
        var shadow :- Get(ws, "shadow");
        var alpha := Alpha(opacity);
        Ok(Some(Style(t.s, x, y, opacity < 100, fill,
          if Truthy(outline) then Some(if opacity < 100 then Rgba(0, 0, 0, alpha) else Named("black")) else None,
          if Truthy(shadow) then Some(if opacity < 100 then Rgba(0, 0, 0, Half(alpha)) else Named("gray")) else None)))
  }

  /** `WatermarkProcessor.add_watermark_to_image` as a draw plan. */
  function CliCompose(ws: Settings, image: Image, text: Option<Value>, textSize: (int, int)): Result<Composition> {
    var style :- CliStyle(ws, image, text, textSize);
    if style.None? then Ok(Unchanged)
    else Ok(Drawn(style.value.text, style.value.overlay, Plan(style.value), ResultMode(image.mode, style.value.overlay)))
  }

  /** The position of the k-th outline copy in loop order, computed from
      the loop counters instead of listed. */
  function RingOffset(k: int): (int, int)
    requires 0 <= k < 8
  {
    var n := if k < 4 then k else k + 1;
    (n / 3 - 1, n % 3 - 1)
  }

  /** The draw plan, stated per command: with outline on, the first eight
      commands are the offset copies in loop order; then the shadow at
      (+2, +2); the fill at (x, y) is always last. */
  lemma {:induction false} PlanShape(s: Style)
    ensures |Plan(s)| == (if s.outline.Some? then 8 else 0) + (if s.shadow.Some? then 1 else 0) + 1
    ensures Plan(s)[|Plan(s)| - 1] == DrawCommand(s.x, s.y, s.fill)
    ensures s.outline.Some? ==> forall k :: 0 <= k < 8 ==>
              Plan(s)[k] == DrawCommand(s.x + RingOffset(k).0, s.y + RingOffset(k).1, s.outline.value)
    ensures s.shadow.Some? ==> Plan(s)[|Plan(s)| - 2] == DrawCommand(s.x + 2, s.y + 2, s.shadow.value)
  {
    var ring := if s.outline.Some? then OutlineRing(s.x, s.y, s.outline.value) else [];
    var shadow := if s.shadow.Some? then [DrawCommand(s.x + 2, s.y + 2, s.shadow.value)] else [];
    assert Plan(s) == ring + shadow + [DrawCommand(s.x, s.y, s.fill)];
    if s.outline.Some? {
      forall k | 0 <= k < 8
        ensures Plan(s)[k] == DrawCommand(s.x + RingOffset(k).0, s.y + RingOffset(k).1, s.outline.value)
      {
        assert Plan(s)[k] == ring[k];
        assert k == 0 || k == 1 || k == 2 || k == 3 || k == 4 || k == 5 || k == 6 || k == 7;
      }
    }
  }

  /** The settings each composing step needs, each of a type that works. */
  predicate WellTyped(ws: Settings) {
    && "text" in ws && "font_size" in ws && "color" in ws && "outline" in ws && "shadow" in ws
    && "opacity" in ws && ws["opacity"].VInt?
    && "x_offset" in ws && ws["x_offset"].VInt?
    && "y_offset" in ws && ws["y_offset"].VInt?
    && "position" in ws && ws["position"].VStr?
  }

  /** The command-line compositor's decisions, for well-typed settings:
      an empty text changes nothing; otherwise the text is placed by the
      anchor formula with the configured margins; at full opacity the
      colour is passed through and outline/shadow are black/gray; below it
      a `#` colour gets the alpha `int(255*opacity/100)`, the outline the
      same alpha and the shadow half of it, on an overlay, and a colour
      without `#` raises. The image mode always comes out unchanged. */
  lemma {:induction false} CliComposeDecides(ws: Settings, image: Image, text: Option<string>, textSize: (int, int))
    requires WellTyped(ws)
    ensures var t := if text.Some? then VStr(text.value) else ws["text"];
      var r := CliCompose(ws, image, if text.Some? then Some(VStr(text.value)) else None, textSize);
      var opacity := ws["opacity"].i;
      var color := ws["color"];
      var xy := Place(SelectedAnchor(ws["position"].s), image.width, image.height, textSize.0, textSize.1,
                      ws["x_offset"].i, ws["y_offset"].i);
      && (!Truthy(t) ==> r == Ok(Unchanged))
      && (Truthy(t) && !t.VStr? ==> r == Err(TextNotString))
      && (Truthy(t) && t.VStr? && opacity >= 100 ==>
            r == Ok(Drawn(t.s, false, Plan(Style(t.s, xy.0, xy.1, false, AsGiven(color),
                       if Truthy(ws["outline"]) then Some(Named("black")) else None,
                       if Truthy(ws["shadow"]) then Some(Named("gray")) else None)), image.mode)))
      && (Truthy(t) && t.VStr? && opacity < 100 && color.VStr? && !StartsWith(color.s, "#") ==>
            r == Err(ColorNotTuple(color.s)))
      && (Truthy(t) && t.VStr? && opacity < 100 && color.VStr? && StartsWith(color.s, "#")
          && ParseHexColor(color.s).Some? ==>
            var (red, green, blue) := ParseHexColor(color.s).value;
            var a := Alpha(opacity);
            r == Ok(Drawn(t.s, true, Plan(Style(t.s, xy.0, xy.1, true, Rgba(red, green, blue, a),
                       if Truthy(ws["outline"]) then Some(Rgba(0, 0, 0, a)) else None,
                       if Truthy(ws["shadow"]) then Some(Rgba(0, 0, 0, Half(a))) else None)), image.mode)))
  {
    SelectedAnchorSelects(ws["position"].s);
    CliPositionPlaces(ws, image.width, image.height, textSize.0, textSize.1, SelectedAnchor(ws["position"].s));
  }

  /** `text=None` falls back to the `text` setting; an explicit text wins. */
  lemma {:induction false} CliTextFallback(ws: Settings, image: Image, textSize: (int, int))
    requires "text" in ws
    ensures CliCompose(ws, image, None, textSize) == CliCompose(ws, image, Some(ws["text"]), textSize)
  {
  }

  /** The outline loop of watermark_cli_v2.py:147-150 appends the offset
      copies one by one. */
  method DrawOutline(x: int, y: int, f: Fill) returns (cmds: seq<DrawCommand>)
    ensures cmds == OutlineRing(x, y, f)
  {
    var deltas := [-1, 0, 1];
    cmds := [];
    for i := 0 to 3
      invariant cmds == OutlineRing(x, y, f)[..CopiesBefore(i, 0)]
    {
      for j := 0 to 3
        invariant cmds == OutlineRing(x, y, f)[..CopiesBefore(i, j)]
      {
        var dx, dy := deltas[i], deltas[j];
        if dx != 0 || dy != 0 {
          RingAt(x, y, f, i, j);
          cmds := cmds + [DrawCommand(x + dx, y + dy, f)];
        }
      }
    }
  }

  /** The number of outline copies drawn before counters (i, j). */
  function CopiesBefore(i: int, j: int): int
    requires 0 <= i <= 3 && 0 <= j <= 3
  {
    var n := 3 * i + j;
    if n > 4 then n - 1 else n
  }

  lemma {:induction false} RingAt(x: int, y: int, f: Fill, i: int, j: int)
    requires 0 <= i < 3 && 0 <= j < 3 && (i, j) != (1, 1)
    ensures CopiesBefore(i, j) < 8 && CopiesBefore(i, j + 1) == CopiesBefore(i, j) + 1
    ensures OutlineRing(x, y, f)[CopiesBefore(i, j)] == DrawCommand(x + i - 1, y + j - 1, f)
  {
  }

  /** `add_watermark_to_image` of the command-line tool, drawing step by
      step; it issues exactly the plan `CliCompose` describes. */
  method AddWatermarkToImage(ws: Settings, image: Image, text: Option<Value>, textSize: (int, int))
    returns (r: Result<Composition>)
    ensures r == CliCompose(ws, image, text, textSize)
  {
    var style := CliStyle(ws, image, text, textSize);
    if style.Err? {
      return Err(style.error);
    }
    if style.value.None? {
      return Ok(Unchanged);
    }
    var s := style.value.value;
    var cmds: seq<DrawCommand> := [];
    if s.outline.Some? {
      cmds := DrawOutline(s.x, s.y, s.outline.value);
    }
    if s.shadow.Some? {
      cmds := cmds + [DrawCommand(s.x + 2, s.y + 2, s.shadow.value)];
    }
    cmds := cmds + [DrawCommand(s.x, s.y, s.fill)];
    assert cmds == Plan(s);
    r := Ok(Drawn(s.text, s.overlay, cmds, ResultMode(image.mode, s.overlay)));
  }

  // ---------------------------------------------------------------- GUI

  /** `WatermarkGUI.add_watermark_to_image`: no empty-text return, no
      outline or shadow, a fixed margin of 10, and a font size that may be
      missing (its lookup sits inside the font fallback's `try`). */
  function GuiCompose(ws: Settings, image: Image, textSize: (int, int)): Result<Composition> {
    var opacity :- GetInt(ws, "opacity");
    var t :- Get(ws, "text");
    if !t.VStr? then Err(TextNotString)
    else
      var (x, y) :- GuiPosition(ws, image.width, image.height, textSize.0, textSize.1);
      var color :- Get(ws, "color");
      var fill :- FillColor(color, opacity);
      Ok(Drawn(t.s, opacity < 100, [DrawCommand(x, y, fill)], ResultMode(image.mode, opacity < 100)))
  }

  /** The GUI compositor issues exactly one command, at the margin-10
      placement, filled with the colour the opacity rule gives, and keeps
      the image mode; `x_offset`, `y_offset`, `outline`, `shadow` and
      `font_size` play no part. */
  lemma {:induction false} GuiComposeDecides(ws: Settings, image: Image, textSize: (int, int))
    requires "text" in ws && ws["text"].VStr? && "color" in ws
    requires "opacity" in ws && ws["opacity"].VInt?
    requires "position" in ws && ws["position"].VStr?
    ensures var r := GuiCompose(ws, image, textSize);
      var xy := Place(SelectedAnchor(ws["position"].s), image.width, image.height, textSize.0, textSize.1, 10, 10);
      var fill := FillColor(ws["color"], ws["opacity"].i);
      && (fill.Err? ==> r == Err(fill.error))
      && (fill.Ok? ==> r == Ok(Drawn(ws["text"].s, ws["opacity"].i < 100,
                                     [DrawCommand(xy.0, xy.1, fill.value)], image.mode)))
  {
    SelectedAnchorSelects(ws["position"].s);
    GuiPositionPlaces(ws, image.width, image.height, textSize.0, textSize.1, SelectedAnchor(ws["position"].s));
  }

  // ----------------------------------------------------- colour properties

  /** Alpha is `int(255*opacity/100)`: truncated toward zero, so for
      opacity 0..99 it is the floor of 255*opacity/100, and for a negative
      opacity it rounds up. */
  lemma {:induction false} AlphaValues(opacity: int)
    ensures 0 <= opacity ==> Alpha(opacity) == (255 * opacity) / 100
    ensures opacity < 0 ==> Alpha(opacity) == -Alpha(-opacity)
    ensures Alpha(50) == 127 && Alpha(99) == 252 && Alpha(0) == 0 && Alpha(-5) == -12
  {
  }

  /** A `#RRGGBB` colour parses to its three channels, each in 0..255;
      anything after the seventh character is ignored. */
  lemma {:induction false} HexColorChannels(color: string)
    requires |color| >= 7 && color[0] == '#'
    requires forall k :: 1 <= k < 7 ==> HexDigit(color[k]).Some?
    ensures ParseHexColor(color) == Some((
      16 * HexDigit(color[1]).value + HexDigit(color[2]).value,
      16 * HexDigit(color[3]).value + HexDigit(color[4]).value,
      16 * HexDigit(color[5]).value + HexDigit(color[6]).value))
  {
    assert HexDigit(color[1]).Some? && HexDigit(color[2]).Some?;
    assert HexDigit(color[3]).Some? && HexDigit(color[4]).Some?;
    assert HexDigit(color[5]).Some? && HexDigit(color[6]).Some?;
    HexFieldAt(color, 1);
    HexFieldAt(color, 3);
    HexFieldAt(color, 5);
    var r, g, b := ParseHexField(Slice(color, 1, 3)), ParseHexField(Slice(color, 3, 5)), ParseHexField(Slice(color, 5, 7));
    assert ParseHexColor(color) == Some((r.value, g.value, b.value));
  }

  /** The two-character field of a colour starting at `i`, when both are
      hexadecimal digits, parses to their value. */
  lemma {:induction false} HexFieldAt(color: string, i: nat)
    requires i + 2 <= |color| && HexDigit(color[i]).Some? && HexDigit(color[i + 1]).Some?
    ensures ParseHexField(Slice(color, i, i + 2)) == Some(16 * HexDigit(color[i]).value + HexDigit(color[i + 1]).value)
  {
    assert Slice(color, i, i + 2) == [color[i], color[i + 1]];
    HexPairValue(color[i], color[i + 1]);
  }

  /** Upper-case hexadecimal digits. */
  function HexChar(n: nat): (c: char)
    requires n < 16
    ensures HexDigit(c) == Some(n)
  {
    if n < 10 then ('0' as int + n) as char else ('A' as int + n - 10) as char
  }

  /** `'#%02X%02X%02X' % (r, g, b)`, the inverse of colour parsing. */
  function HexColor(r: nat, g: nat, b: nat): string
    requires r < 256 && g < 256 && b < 256
  {
    ['#', HexChar(r / 16), HexChar(r % 16), HexChar(g / 16), HexChar(g % 16), HexChar(b / 16), HexChar(b % 16)]
  }

  /** Formatting three channels and parsing them back gives the channels. */
  lemma {:induction false} HexColorRoundTrip(r: nat, g: nat, b: nat)
    requires r < 256 && g < 256 && b < 256
    ensures ParseHexColor(HexColor(r, g, b)) == Some((r, g, b))
  {
    var c := HexColor(r, g, b);
    assert HexDigit(c[1]) == Some(r / 16) && HexDigit(c[2]) == Some(r % 16);
    assert HexDigit(c[3]) == Some(g / 16) && HexDigit(c[4]) == Some(g % 16);
    assert HexDigit(c[5]) == Some(b / 16) && HexDigit(c[6]) == Some(b % 16);
    HexColorChannels(c);
    assert 16 * (r / 16) + r % 16 == r && 16 * (g / 16) + g % 16 == g && 16 * (b / 16) + b % 16 == b;
  }

  /** Colour errors below full opacity, in the order the code meets them. */
  lemma {:induction false} FillColorErrors(color: Value, opacity: int)
    requires opacity < 100
    ensures !color.VStr? ==> FillColor(color, opacity) == Err(WrongType("color"))
    ensures color.VStr? && !StartsWith(color.s, "#") ==> FillColor(color, opacity) == Err(ColorNotTuple(color.s))
    ensures color.VStr? && StartsWith(color.s, "#") && ParseHexColor(color.s).None? ==>
              FillColor(color, opacity) == Err(BadHexColor(color.s))
    ensures color == VStr("#FFF") ==> FillColor(color, opacity).Err?
  {
    if color == VStr("#FFF") {
      assert Slice("#FFF", 3, 5) == ['F'];
      assert Slice("#FFF", 5, 7) == [];
      assert Strip([]) == [];
    }
  }
}
