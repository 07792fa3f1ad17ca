/** The position calculator: the anchor table both classes build
    (watermark_cli_v2.py:80-98 with configurable margins,
    watermark_gui.py:525-542 with a fixed margin of 10), proved equal to a
    reference definition that places each axis on its own. */
module Position {
  import opened Values

  datatype Anchor =
    | TopLeft | TopCenter | TopRight
    | MiddleLeft | Center | MiddleRight
    | BottomLeft | BottomCenter | BottomRight

  function AnchorName(a: Anchor): string {
    match a
    case TopLeft => "top_left"
    case TopCenter => "top_center"
    case TopRight => "top_right"
    case MiddleLeft => "middle_left"
    case Center => "center"
    case MiddleRight => "middle_right"
    case BottomLeft => "bottom_left"
    case BottomCenter => "bottom_center"
    case BottomRight => "bottom_right"
  }

  /** Python's `a // 2`: the floor of the half. */
  function Half(a: int): (q: int)
    ensures 2 * q <= a < 2 * q + 2
  {
    a / 2
  }

  /** The dictionary literal of `calculate_watermark_position`: every entry
      is computed, whichever one is then looked up. */
  function PositionMap(w: int, h: int, tw: int, th: int, mx: int, my: int): map<string, (int, int)> {
    map[
      "top_left" := (mx, my),
      "top_center" := (Half(w - tw), my),
      "top_right" := (w - tw - mx, my),
      "middle_left" := (mx, Half(h - th)),
      "center" := (Half(w - tw), Half(h - th)),
      "middle_right" := (w - tw - mx, Half(h - th)),
      "bottom_left" := (mx, h - th - my),
      "bottom_center" := (Half(w - tw), h - th - my),
      "bottom_right" := (w - tw - mx, h - th - my)
    ]
  }

  /** `position_map.get(position, position_map['bottom_right'])`: a list or
      dict key is unhashable and raises; any other key that is not an
      anchor name falls back to the bottom-right entry. */
  function Lookup(m: map<string, (int, int)>, position: Value): Result<(int, int)>
    requires "bottom_right" in m
  {
    match position
    case VArr(_) => Err(Unhashable)
    case VObj(_) => Err(Unhashable)
    case VStr(s) => Ok(if s in m then m[s] else m["bottom_right"])
    case _ => Ok(m["bottom_right"])
  }

  /** `WatermarkProcessor.calculate_watermark_position`: margins are the
      `x_offset`/`y_offset` settings, read before `position`. */
  function CliPosition(ws: Settings, w: int, h: int, tw: int, th: int): Result<(int, int)> {
    var mxv :- Get(ws, "x_offset");
    var myv :- Get(ws, "y_offset");
    var position :- Get(ws, "position");
    var mx :- AsInt("x_offset", mxv);
    var my :- AsInt("y_offset", myv);
    Lookup(PositionMap(w, h, tw, th, mx, my), position)
  }

  /** `WatermarkGUI.calculate_watermark_position`: the margin is always 10. */
  function GuiPosition(ws: Settings, w: int, h: int, tw: int, th: int): Result<(int, int)> {
    var position :- Get(ws, "position");
    Lookup(PositionMap(w, h, tw, th, 10, 10), position)
  }

  // ------------------------------------------------ the reference definition

  datatype Column = Left | Middle | Right
  datatype Row = Top | Centre | Bottom

  function ColumnOf(a: Anchor): Column {
    match a
    case TopLeft | MiddleLeft | BottomLeft => Left
    case TopCenter | Center | BottomCenter => Middle
    case TopRight | MiddleRight | BottomRight => Right
  }

  function RowOf(a: Anchor): Row {
    match a
    case TopLeft | TopCenter | TopRight => Top
    case MiddleLeft | Center | MiddleRight => Centre
    case BottomLeft | BottomCenter | BottomRight => Bottom
  }

  /** One axis: the margin from the near edge, the floored centre, or the
      margin from the far edge. */
  function AxisAt(near: bool, centred: bool, size: int, textSize: int, margin: int): int {
    if centred then Half(size - textSize)
    else if near then margin
    else size - textSize - margin
  }

  function Place(a: Anchor, w: int, h: int, tw: int, th: int, mx: int, my: int): (int, int) {
    (AxisAt(ColumnOf(a) == Left, ColumnOf(a) == Middle, w, tw, mx),
     AxisAt(RowOf(a) == Top, RowOf(a) == Centre, h, th, my))
  }

  /** The anchor a position value selects: its own anchor when it names
      one, bottom-right otherwise. */
  predicate Selects(position: Value, a: Anchor) {
    if position.VStr? && exists b :: AnchorName(b) == position.s
    then AnchorName(a) == position.s
    else a == BottomRight
  }

  /** The anchor a `position` string selects. */
  function SelectedAnchor(position: string): Anchor {
    if position == "top_left" then TopLeft
    else if position == "top_center" then TopCenter
    else if position == "top_right" then TopRight
    else if position == "middle_left" then MiddleLeft
    else if position == "center" then Center
    else if position == "middle_right" then MiddleRight
    else if position == "bottom_left" then BottomLeft
    else if position == "bottom_center" then BottomCenter
    else BottomRight
  }

  // ------------------------------------------------------------ properties

  /** `SelectedAnchor` picks the anchor `Selects` describes: the named one,
      or bottom-right for any other string. */
  lemma {:induction false} SelectedAnchorSelects(position: string)
    ensures Selects(VStr(position), SelectedAnchor(position))
  {
    var a := SelectedAnchor(position);
    if a != BottomRight || position == "bottom_right" {
      assert AnchorName(a) == position;
    } else {
      forall b ensures AnchorName(b) != position {
        match b
        case TopLeft =>
        case TopCenter =>
        case TopRight =>
        case MiddleLeft =>
        case Center =>
        case MiddleRight =>
        case BottomLeft =>
        case BottomCenter =>
        case BottomRight =>
      }
    }
  }

  /** The table entry of every anchor is the reference placement. */
  lemma {:induction false} TableMatchesPlace(a: Anchor, w: int, h: int, tw: int, th: int, mx: int, my: int)
    ensures AnchorName(a) in PositionMap(w, h, tw, th, mx, my)
    ensures PositionMap(w, h, tw, th, mx, my)[AnchorName(a)] == Place(a, w, h, tw, th, mx, my)
  {
    match a
    case TopLeft =>
    case TopCenter =>
    case TopRight =>
    case MiddleLeft =>
    case Center =>
    case MiddleRight =>
    case BottomLeft =>
    case BottomCenter =>
    case BottomRight =>
  }

  /** The keys of the table are exactly the nine anchor names. */
  lemma {:induction false} TableKeys(w: int, h: int, tw: int, th: int, mx: int, my: int, s: string)
    ensures s in PositionMap(w, h, tw, th, mx, my) <==> exists a :: AnchorName(a) == s
  {
    if s in PositionMap(w, h, tw, th, mx, my) {
      if s == "top_left" { assert AnchorName(TopLeft) == s; }
      else if s == "top_center" { assert AnchorName(TopCenter) == s; }
      else if s == "top_right" { assert AnchorName(TopRight) == s; }
      else if s == "middle_left" { assert AnchorName(MiddleLeft) == s; }
      else if s == "center" { assert AnchorName(Center) == s; }
      else if s == "middle_right" { assert AnchorName(MiddleRight) == s; }
      else if s == "bottom_left" { assert AnchorName(BottomLeft) == s; }
      else if s == "bottom_center" { assert AnchorName(BottomCenter) == s; }
      else { assert AnchorName(BottomRight) == s; }
    } else {
      forall a ensures AnchorName(a) != s {
        TableMatchesPlace(a, w, h, tw, th, mx, my);
      }
    }
  }

  /** Looking up any hashable position yields the placement of the anchor
      it selects. */
  lemma {:induction false} LookupPlaces(w: int, h: int, tw: int, th: int, mx: int, my: int, position: Value, a: Anchor)
    requires !position.VArr? && !position.VObj?
    requires Selects(position, a)
    ensures Lookup(PositionMap(w, h, tw, th, mx, my), position) == Ok(Place(a, w, h, tw, th, mx, my))
  {
    var m := PositionMap(w, h, tw, th, mx, my);
    TableMatchesPlace(a, w, h, tw, th, mx, my);
    TableMatchesPlace(BottomRight, w, h, tw, th, mx, my);
    if position.VStr? {
      TableKeys(w, h, tw, th, mx, my, position.s);
    }
  }

  /** The command-line calculator, for integer margins: each anchor gets
      its formula, edge axes use `x_offset`/`y_offset`, centred axes the
      floored half, and any other position string gets bottom-right. */
  lemma {:induction false} CliPositionPlaces(ws: Settings, w: int, h: int, tw: int, th: int, a: Anchor)
    requires "x_offset" in ws && ws["x_offset"].VInt?
    requires "y_offset" in ws && ws["y_offset"].VInt?
    requires "position" in ws && !ws["position"].VArr? && !ws["position"].VObj?
    requires Selects(ws["position"], a)
    ensures CliPosition(ws, w, h, tw, th) == Ok(Place(a, w, h, tw, th, ws["x_offset"].i, ws["y_offset"].i))
  {
    LookupPlaces(w, h, tw, th, ws["x_offset"].i, ws["y_offset"].i, ws["position"], a);
  }

  /** The GUI calculator is the reference placement with both margins 10,
      whatever `x_offset` and `y_offset` hold. */
  lemma {:induction false} GuiPositionPlaces(ws: Settings, w: int, h: int, tw: int, th: int, a: Anchor)
    requires "position" in ws && !ws["position"].VArr? && !ws["position"].VObj?
    requires Selects(ws["position"], a)
    ensures GuiPosition(ws, w, h, tw, th) == Ok(Place(a, w, h, tw, th, 10, 10))
  {
    LookupPlaces(w, h, tw, th, 10, 10, ws["position"], a);
  }

  /** Errors: a missing key raises KeyError in the order the keys are read,
      a non-numeric margin raises even for anchors that do not use it, and
      an unhashable position raises. */
  lemma {:induction false} CliPositionErrors(ws: Settings, w: int, h: int, tw: int, th: int)
    ensures "x_offset" !in ws ==> CliPosition(ws, w, h, tw, th) == Err(KeyMissing("x_offset"))
    ensures "x_offset" in ws && "y_offset" in ws && "position" in ws
            && !(ws["x_offset"].VInt? || ws["x_offset"].VBool?)
            ==> CliPosition(ws, w, h, tw, th) == Err(WrongType("x_offset"))
    ensures "x_offset" in ws && "y_offset" in ws && "position" in ws
            && ws["x_offset"].VInt? && ws["y_offset"].VInt? && ws["position"].VArr?
            ==> CliPosition(ws, w, h, tw, th) == Err(Unhashable)
  {
  }

  /** A centred axis ignores its margin; an edge axis moves with it. */
  lemma {:induction false} CentredAxisIgnoresMargin(a: Anchor, w: int, h: int, tw: int, th: int, mx: int, my: int, mx': int, my': int)
    ensures ColumnOf(a) == Middle ==> Place(a, w, h, tw, th, mx, my).0 == Place(a, w, h, tw, th, mx', my').0
    ensures RowOf(a) == Centre ==> Place(a, w, h, tw, th, mx, my).1 == Place(a, w, h, tw, th, mx', my').1
    ensures ColumnOf(a) == Left ==> Place(a, w, h, tw, th, mx, my).0 == mx
    ensures ColumnOf(a) == Right ==> Place(a, w, h, tw, th, mx, my).0 + mx == w - tw
  {
  }

  /** Nothing is clamped: text wider than the image minus the margin gets a
      negative x on the right-hand anchors, and a centred x below zero. */
  lemma {:induction false} NoClamping(a: Anchor, w: int, h: int, tw: int, th: int, mx: int, my: int)
    requires tw > w && mx >= 0
    ensures ColumnOf(a) == Right ==> Place(a, w, h, tw, th, mx, my).0 < 0
    ensures ColumnOf(a) == Middle ==> Place(a, w, h, tw, th, mx, my).0 < 0
  {
  }

  /** The centre of an 800x600 image for a 100x20 text with margins 10. */
  lemma CentreFixture()
    ensures Place(Center, 800, 600, 100, 20, 10, 10) == (350, 290)
  {
  }
}
