/** The render pipeline: `_drawTouches` repaints the whole canvas from the
    tracker on every event. A canvas is modelled as the list of drawing
    commands issued on it, which only ever grows; geometry of arcs and text
    metrics are not modelled. */
module Render {

  import opened Tracker
  import opened Format
  import opened Decimal

  /** The display options the application object reads while drawing. */
  datatype Config = Config(
    markRadius1: real,
    markRadius2: real,
    mark2Width: real,
    gridSpan: real,
    backGroundColor: string,
    showTouchProperties: bool,
    showTouchRadius: bool,
    showPointerType: bool,
    idleMessage: string)

  /** One drawing operation on the 2D context. */
  datatype Command =
    | FillRect(style: string, width: nat, height: nat)        // background in a colour
    | ClearRect(width: nat, height: nat)                      // transparent background
    | GridLineX(x: real, height: nat)                         // gray vertical line from (x, 0) to (x, height)
    | GridLineY(y: real, width: nat)                          // gray horizontal line from (0, y) to (width, y)
    | Crosshair(x: real, y: real, color: string, width: nat, height: nat)
    | Disc(x: real, y: real, radius: real, color: string)     // filled outer circle
    | Ring(x: real, y: real, radius: real, lineWidth: real)   // black inner circle
    | Label(number: nat, x: real, y: real)                    // centred bold label
    | TextLine(touch: PointerInfo, ordinal: nat, showRadius: bool, showPointerType: bool,
               color: string, left: int, top: int)      // fillText of a pointer's description
    | IdleMessage(text: string, color: string)                // centred on the canvas

  /** The string a text line writes: the description `formatTouch` makes
      of the command's pointer. The command keeps the arguments, so that
      a frame can be compared without spelling out every string. */
  function LineText(c: Command): string
    requires c.TextLine?
  {
    FormatTouch(c.touch, c.ordinal, c.showRadius, c.showPointerType)
  }

  /** A canvas element: its size and everything drawn on it so far. */
  class Canvas {
    var width: nat
    var height: nat
    var commands: seq<Command>

    constructor(width: nat, height: nat)
      ensures this.width == width && this.height == height && commands == []
    {
      this.width := width;
      this.height := height;
      commands := [];
    }
  }

  // ---------------------------------------------------------------- background

  /** A non-empty colour fills the canvas; the empty string clears it. */
  function Background(cfg: Config, width: nat, height: nat): seq<Command> {
    if cfg.backGroundColor != "" then [FillRect(cfg.backGroundColor, width, height)]
    else [ClearRect(width, height)]
  }

  // ---------------------------------------------------------------- grid

  /** How many of 0, span, 2*span, ... lie strictly below `limit`. */
  function StopCount(limit: nat, span: real): nat
    requires 0.0 < span
  {
    var q := limit as real / span;
    NonNegativeQuotient(limit as real, span);
    if q.Floor as real == q then q.Floor else q.Floor + 1
  }

  lemma NonNegativeQuotient(a: real, b: real)
    requires 0.0 <= a && 0.0 < b
    ensures 0.0 <= a / b
  {
  }

  /** The k-th grid line is drawn exactly when k*span is below the limit. */
  lemma StopCountBound(limit: nat, span: real, k: nat)
    requires 0.0 < span
    ensures k < StopCount(limit, span) <==> (k as real) * span < limit as real
  {
    var q := limit as real / span;
    NonNegativeQuotient(limit as real, span);
    assert limit as real == q * span;
    assert (k as real) * span < limit as real <==> (k as real) < q by {
      assert limit as real - (k as real) * span == (q - k as real) * span;
    }
  }

  function VerticalLines(count: nat, span: real, height: nat): (lines: seq<Command>)
    ensures |lines| == count
  {
    seq(count, k => GridLineX(k as real * span, height))
  }

  function HorizontalLines(count: nat, span: real, width: nat): (lines: seq<Command>)
    ensures |lines| == count
  {
    seq(count, k => GridLineY(k as real * span, width))
  }

  lemma VerticalLinesStep(k: nat, span: real, height: nat)
    ensures VerticalLines(k + 1, span, height) == VerticalLines(k, span, height) + [GridLineX(k as real * span, height)]
  {
    var a := VerticalLines(k + 1, span, height);
    var b := VerticalLines(k, span, height) + [GridLineX(k as real * span, height)];
    assert forall i :: 0 <= i < k + 1 ==> a[i] == b[i];
  }

  lemma HorizontalLinesStep(k: nat, span: real, width: nat)
    ensures HorizontalLines(k + 1, span, width) == HorizontalLines(k, span, width) + [GridLineY(k as real * span, width)]
  {
    var a := HorizontalLines(k + 1, span, width);
    var b := HorizontalLines(k, span, width) + [GridLineY(k as real * span, width)];
    assert forall i :: 0 <= i < k + 1 ==> a[i] == b[i];
  }

  lemma NextStop(k: nat, span: real)
    ensures (k as real) * span + span == ((k + 1) as real) * span
  {
  }

  /** The lines `drawGrid` strokes: vertical lines first, then horizontal. */
  function Grid(width: nat, height: nat, span: real): seq<Command>
    requires 0.0 < span
  {
    VerticalLines(StopCount(width, span), span, height)
    + HorizontalLines(StopCount(height, span), span, width)
  }

  /** The vertical lines are at the multiples of `span` below the width,
      and the next multiple is not below it. */
  lemma VerticalLinesBelow(width: nat, height: nat, span: real)
    requires 0.0 < span
    ensures var v := VerticalLines(StopCount(width, span), span, height);
            && (forall k :: 0 <= k < |v| ==> v[k] == GridLineX(k as real * span, height) && k as real * span < width as real)
            && width as real <= |v| as real * span
  {
    var v := VerticalLines(StopCount(width, span), span, height);
    forall k | 0 <= k < |v| ensures v[k] == GridLineX(k as real * span, height) && k as real * span < width as real {
      StopCountBound(width, span, k);
    }
    StopCountBound(width, span, |v|);
  }

  /** The horizontal lines are at the multiples of `span` below the height,
      and the next multiple is not below it. */
  lemma HorizontalLinesBelow(width: nat, height: nat, span: real)
    requires 0.0 < span
    ensures var h := HorizontalLines(StopCount(height, span), span, width);
            && (forall k :: 0 <= k < |h| ==> h[k] == GridLineY(k as real * span, width) && k as real * span < height as real)
            && height as real <= |h| as real * span
  {
    var h := HorizontalLines(StopCount(height, span), span, width);
    forall k | 0 <= k < |h| ensures h[k] == GridLineY(k as real * span, width) && k as real * span < height as real {
      StopCountBound(height, span, k);
    }
    StopCountBound(height, span, |h|);
  }

  /** The grid starts with a vertical line at every multiple of `span`
      below the width, and at no other place: the next multiple is not
      below the width. */
  lemma GridVertical(width: nat, height: nat, span: real)
    requires 0.0 < span
    ensures var g := Grid(width, height, span);
            var nx := StopCount(width, span);
            && nx <= |g|
            && (forall k :: 0 <= k < nx ==>
                  g[k] == GridLineX(k as real * span, height) && k as real * span < width as real)
            && width as real <= nx as real * span
  {
    var nx := StopCount(width, span);
    var v := VerticalLines(nx, span, height);
    var g := Grid(width, height, span);
    assert g == v + HorizontalLines(StopCount(height, span), span, width);
    VerticalLinesBelow(width, height, span);
    forall k | 0 <= k < nx ensures g[k] == GridLineX(k as real * span, height) && k as real * span < width as real {
      assert g[k] == v[k];
    }
  }

  /** After the vertical lines the grid has a horizontal line at every
      multiple of `span` below the height, and nothing else. */
  lemma GridHorizontal(width: nat, height: nat, span: real)
    requires 0.0 < span
    ensures var g := Grid(width, height, span);
            var nx := StopCount(width, span);
            && nx <= |g|
            && (forall k :: nx <= k < |g| ==>
                  g[k] == GridLineY((k - nx) as real * span, width) && (k - nx) as real * span < height as real)
            && height as real <= (|g| - nx) as real * span
  {
    var nx := StopCount(width, span);
    var h := HorizontalLines(StopCount(height, span), span, width);
    var g := Grid(width, height, span);
    assert g == VerticalLines(nx, span, height) + h;
    HorizontalLinesBelow(width, height, span);
    forall k | nx <= k < |g|
      ensures g[k] == GridLineY((k - nx) as real * span, width) && (k - nx) as real * span < height as real
    {
      assert g[k] == h[k - nx];
    }
    assert |g| - nx == |h|;
  }

  /** `drawGrid`: two loops stepping x and y by `span` from 0 while below the
      canvas size. */
  method DrawGrid(canvas: Canvas, span: real)
    requires 0.0 < span
    modifies canvas
    ensures canvas.width == old(canvas.width) && canvas.height == old(canvas.height)
    ensures canvas.commands == old(canvas.commands) + Grid(canvas.width, canvas.height, span)
  {
    var width, height := canvas.width, canvas.height;
    var nx := StopCount(width, span);
    var x := 0.0;
    ghost var k: nat := 0;
    while x < width as real
      invariant x == (k as real) * span
      invariant k <= nx
      invariant canvas.width == width && canvas.height == height
      invariant canvas.commands == old(canvas.commands) + VerticalLines(k, span, height)
      decreases nx - k
    {
      StopCountBound(width, span, k);
      canvas.commands := canvas.commands + [GridLineX(x, height)];
      VerticalLinesStep(k, span, height);
      NextStop(k, span);
      x := x + span;
      k := k + 1;
    }
    StopCountBound(width, span, k);
    ghost var afterX := canvas.commands;
    var ny := StopCount(height, span);
    var y := 0.0;
    k := 0;
    while y < height as real
      invariant y == (k as real) * span
      invariant k <= ny
      invariant canvas.width == width && canvas.height == height
      invariant canvas.commands == afterX + HorizontalLines(k, span, width)
      decreases ny - k
    {
      StopCountBound(height, span, k);
      canvas.commands := canvas.commands + [GridLineY(y, width)];
      HorizontalLinesStep(k, span, width);
      NextStop(k, span);
      y := y + span;
      k := k + 1;
    }
    StopCountBound(height, span, k);
  }

  // ---------------------------------------------------------------- markers

  /** The label of a pointer: one more than the number of keys before it. */
  function LabelOf(m: seq<Entry>, info: PointerInfo): nat {
    IndexOf(m, info.identifier) + 1
  }

  /** What `_drawTouchPoint` draws for one pointer: crosshair and disc in its
      colour, the black ring, and its label. */
  function Marker(cfg: Config, m: seq<Entry>, info: PointerInfo, color: string, width: nat, height: nat): seq<Command> {
    [ Crosshair(info.pageX, info.pageY, color, width, height),
      Disc(info.pageX, info.pageY, cfg.markRadius1, color),
      Ring(info.pageX, info.pageY, cfg.markRadius2, cfg.mark2Width),
      Label(LabelOf(m, info), info.pageX, info.pageY) ]
  }

  /** The markers of the first n entries, the i-th in colour i. */
  function Markers(cfg: Config, m: seq<Entry>, n: nat, width: nat, height: nat): (r: seq<Command>)
    requires n <= |m|
    ensures |r| == 4 * n
  {
    if n == 0 then []
    else Markers(cfg, m, n - 1, width, height) + Marker(cfg, m, m[n - 1].1, TouchColor(n - 1), width, height)
  }

  /** Command j of block i of the markers is command j of pointer i's marker
      in colour i. */
  lemma {:induction false} MarkerAt(cfg: Config, m: seq<Entry>, n: nat, width: nat, height: nat, i: nat, j: nat)
    requires i < n <= |m| && j < 4
    ensures Markers(cfg, m, n, width, height)[4 * i + j] == Marker(cfg, m, m[i].1, TouchColor(i), width, height)[j]
    decreases n
  {
    if i < n - 1 {
      MarkerAt(cfg, m, n - 1, width, height, i, j);
      EarlierCommand(cfg, m, n, width, height, 4 * i + j);
    } else {
      LastCommand(cfg, m, n, width, height, j);
    }
  }

  lemma EarlierCommand(cfg: Config, m: seq<Entry>, n: nat, width: nat, height: nat, k: nat)
    requires 0 < n <= |m| && k < 4 * (n - 1)
    ensures Markers(cfg, m, n, width, height)[k] == Markers(cfg, m, n - 1, width, height)[k]
  {
    CommandOfPrefix(Markers(cfg, m, n - 1, width, height), Marker(cfg, m, m[n - 1].1, TouchColor(n - 1), width, height), k);
  }

  lemma LastCommand(cfg: Config, m: seq<Entry>, n: nat, width: nat, height: nat, j: nat)
    requires 0 < n <= |m| && j < 4
    ensures Markers(cfg, m, n, width, height)[4 * (n - 1) + j] == Marker(cfg, m, m[n - 1].1, TouchColor(n - 1), width, height)[j]
  {
    CommandOfLast(Markers(cfg, m, n - 1, width, height), Marker(cfg, m, m[n - 1].1, TouchColor(n - 1), width, height), j);
  }

  lemma CommandOfPrefix(prev: seq<Command>, last: seq<Command>, k: nat)
    requires k < |prev|
    ensures (prev + last)[k] == prev[k]
  {
  }

  lemma CommandOfLast(prev: seq<Command>, last: seq<Command>, j: nat)
    requires j < |last|
    ensures (prev + last)[|prev| + j] == last[j]
  {
  }

  /** In a well-formed tracker, entry i is labelled i + 1 and drawn in colour
      i of the palette. */
  lemma DrawnMarker(cfg: Config, m: seq<Entry>, width: nat, height: nat, i: nat)
    requires WellFormed(m) && i < |m|
    ensures var r := Markers(cfg, m, |m|, width, height);
            var info := m[i].1;
            && r[4 * i] == Crosshair(info.pageX, info.pageY, COLORS[i % 8], width, height)
            && r[4 * i + 1] == Disc(info.pageX, info.pageY, cfg.markRadius1, COLORS[i % 8])
            && r[4 * i + 2] == Ring(info.pageX, info.pageY, cfg.markRadius2, cfg.mark2Width)
            && r[4 * i + 3] == Label(i + 1, info.pageX, info.pageY)
  {
    MarkerAt(cfg, m, |m|, width, height, i, 0);
    MarkerAt(cfg, m, |m|, width, height, i, 1);
    MarkerAt(cfg, m, |m|, width, height, i, 2);
    MarkerAt(cfg, m, |m|, width, height, i, 3);
    LabelOfEntry(m, i);
    MarkerShape(cfg, m, m[i].1, TouchColor(i), width, height);
  }

  lemma LabelOfEntry(m: seq<Entry>, i: nat)
    requires WellFormed(m) && i < |m|
    ensures LabelOf(m, m[i].1) == i + 1
  {
    IndexOfUnique(m, i);
  }

  lemma MarkerShape(cfg: Config, m: seq<Entry>, info: PointerInfo, color: string, width: nat, height: nat)
    ensures var mk := Marker(cfg, m, info, color, width, height);
            && mk[0] == Crosshair(info.pageX, info.pageY, color, width, height)
            && mk[1] == Disc(info.pageX, info.pageY, cfg.markRadius1, color)
            && mk[2] == Ring(info.pageX, info.pageY, cfg.markRadius2, cfg.mark2Width)
            && mk[3] == Label(LabelOf(m, info), info.pageX, info.pageY)
  {
  }

  /** Releasing a contact lowers the label of every later contact by one
      and keeps the labels of earlier contacts. */
  lemma LabelAfterRelease(m: seq<Entry>, j: nat, k: nat)
    requires WellFormed(m) && j < |m| && k < |m| && j != k
    ensures LabelOf(MapDelete(m, m[j].0), m[k].1) == if k < j then LabelOf(m, m[k].1) else LabelOf(m, m[k].1) - 1
  {
    IndexOfUnique(m, k);
    OrdinalAfterDelete(m, j, k);
  }

  // ---------------------------------------------------------------- text

  /** The text line of entry i: its description at (10, 18*i + 30) in colour i. */
  function TextOf(cfg: Config, info: PointerInfo, i: nat): Command {
    TextLine(info, i, cfg.showTouchRadius, cfg.showPointerType, TouchColor(i), 10, 18 * i + 30)
  }

  /** The text lines of the first n entries, the i-th at row i. */
  function TextLines(cfg: Config, m: seq<Entry>, n: nat): (r: seq<Command>)
    requires n <= |m|
    ensures |r| == n
  {
    if n == 0 then [] else TextLines(cfg, m, n - 1) + [TextOf(cfg, m[n - 1].1, n - 1)]
  }

  /** What the text loop draws: every entry's line when touch properties
      are shown, nothing otherwise. */
  function Texts(cfg: Config, m: seq<Entry>): seq<Command> {
    if cfg.showTouchProperties then TextLines(cfg, m, |m|) else []
  }

  // ---------------------------------------------------------------- frame

  /** Everything one `_drawTouches` call draws, in order. */
  function Frame(cfg: Config, m: seq<Entry>, width: nat, height: nat): seq<Command> {
    Background(cfg, width, height)
    + (if 0.0 < cfg.gridSpan then Grid(width, height, cfg.gridSpan) else [])
    + Markers(cfg, m, |m|, width, height)
    + Texts(cfg, m)
    + (if |m| == 0 then [IdleMessage(cfg.idleMessage, TouchColor(2))] else [])
  }

  /** The kinds of command a frame is inspected for. */
  datatype Kind = LabelKind | TextKind | IdleKind

  predicate OfKind(c: Command, k: Kind) {
    match k
    case LabelKind => c.Label?
    case TextKind => c.TextLine?
    case IdleKind => c.IdleMessage?
  }

  /** The commands of one kind, in drawing order. */
  function Select(s: seq<Command>, k: Kind): (r: seq<Command>)
    ensures |r| <= |s|
  {
    if s == [] then []
    else Select(s[..|s| - 1], k) + (if OfKind(s[|s| - 1], k) then [s[|s| - 1]] else [])
  }

  lemma {:induction false} SelectAppend(a: seq<Command>, b: seq<Command>, k: Kind)
    ensures Select(a + b, k) == Select(a, k) + Select(b, k)
    decreases |b|
  {
    if b == [] {
      assert a + b == a;
    } else {
      var n := |b|;
      assert (a + b)[..|a + b| - 1] == a + b[..n - 1];
      SelectAppend(a, b[..n - 1], k);
    }
  }

  lemma {:induction false} SelectNone(s: seq<Command>, k: Kind)
    requires forall i :: 0 <= i < |s| ==> !OfKind(s[i], k)
    ensures Select(s, k) == []
    decreases |s|
  {
    if s != [] {
      SelectNone(s[..|s| - 1], k);
    }
  }

  lemma SelectMarker(cfg: Config, m: seq<Entry>, info: PointerInfo, color: string, width: nat, height: nat, k: Kind)
    ensures Select(Marker(cfg, m, info, color, width, height), k)
            == if k == LabelKind then [Label(LabelOf(m, info), info.pageX, info.pageY)] else []
  {
    var mk := Marker(cfg, m, info, color, width, height);
    SelectNone(mk[..3], k);
    assert mk[..|mk| - 1] == mk[..3];
  }

  /** The labels of the first n markers. */
  function LabelsUpTo(m: seq<Entry>, n: nat): (r: seq<Command>)
    requires n <= |m|
    ensures |r| == n
  {
    if n == 0 then []
    else LabelsUpTo(m, n - 1) + [Label(LabelOf(m, m[n - 1].1), m[n - 1].1.pageX, m[n - 1].1.pageY)]
  }

  lemma {:induction false} LabelAt(m: seq<Entry>, n: nat, i: nat)
    requires i < n <= |m|
    ensures LabelsUpTo(m, n)[i] == Label(LabelOf(m, m[i].1), m[i].1.pageX, m[i].1.pageY)
    decreases n
  {
    if i < n - 1 {
      LabelAt(m, n - 1, i);
    }
  }

  /** The labels among the first n markers are the first n labels. */
  lemma {:induction false} MarkerLabels(cfg: Config, m: seq<Entry>, n: nat, width: nat, height: nat)
    requires n <= |m|
    ensures Select(Markers(cfg, m, n, width, height), LabelKind) == LabelsUpTo(m, n)
    decreases n
  {
    if n > 0 {
      MarkerLabels(cfg, m, n - 1, width, height);
      MarkerLabelsStep(cfg, m, n, width, height);
    }
  }

  /** Markers hold no text lines and no idle message. */
  lemma {:induction false} MarkerOthers(cfg: Config, m: seq<Entry>, n: nat, width: nat, height: nat, k: Kind)
    requires n <= |m| && k != LabelKind
    ensures Select(Markers(cfg, m, n, width, height), k) == []
    decreases n
  {
    if n > 0 {
      MarkerOthers(cfg, m, n - 1, width, height, k);
      MarkerOthersStep(cfg, m, n, width, height, k);
    }
  }

  lemma MarkerLabelsStep(cfg: Config, m: seq<Entry>, n: nat, width: nat, height: nat)
    requires 0 < n <= |m|
    requires Select(Markers(cfg, m, n - 1, width, height), LabelKind) == LabelsUpTo(m, n - 1)
    ensures Select(Markers(cfg, m, n, width, height), LabelKind) == LabelsUpTo(m, n)
  {
    MarkersSelectStep(cfg, m, n, width, height, LabelKind);
    SelectMarker(cfg, m, m[n - 1].1, TouchColor(n - 1), width, height, LabelKind);
  }

  lemma MarkerOthersStep(cfg: Config, m: seq<Entry>, n: nat, width: nat, height: nat, k: Kind)
    requires 0 < n <= |m| && k != LabelKind
    requires Select(Markers(cfg, m, n - 1, width, height), k) == []
    ensures Select(Markers(cfg, m, n, width, height), k) == []
  {
    MarkersSelectStep(cfg, m, n, width, height, k);
    SelectMarker(cfg, m, m[n - 1].1, TouchColor(n - 1), width, height, k);
  }

  /** Selecting from n markers is selecting from n - 1 markers, then from the last one. */
  lemma MarkersSelectStep(cfg: Config, m: seq<Entry>, n: nat, width: nat, height: nat, k: Kind)
    requires 0 < n <= |m|
    ensures Select(Markers(cfg, m, n, width, height), k)
            == Select(Markers(cfg, m, n - 1, width, height), k)
               + Select(Marker(cfg, m, m[n - 1].1, TouchColor(n - 1), width, height), k)
  {
    SelectAppend(Markers(cfg, m, n - 1, width, height), Marker(cfg, m, m[n - 1].1, TouchColor(n - 1), width, height), k);
  }

  lemma {:induction false} TextLinesSelection(cfg: Config, m: seq<Entry>, n: nat)
    requires n <= |m|
    ensures Select(TextLines(cfg, m, n), LabelKind) == []
    ensures Select(TextLines(cfg, m, n), IdleKind) == []
    ensures Select(TextLines(cfg, m, n), TextKind) == TextLines(cfg, m, n)
    decreases n
  {
    if n > 0 {
      var prev := TextLines(cfg, m, n - 1);
      var t := [TextOf(cfg, m[n - 1].1, n - 1)];
      TextLinesSelection(cfg, m, n - 1);
      SelectAppend(prev, t, LabelKind);
      SelectAppend(prev, t, IdleKind);
      SelectAppend(prev, t, TextKind);
    }
  }

  /** The text loop draws only text lines. */
  lemma TextSelection(cfg: Config, m: seq<Entry>)
    ensures Select(Texts(cfg, m), LabelKind) == []
    ensures Select(Texts(cfg, m), IdleKind) == []
    ensures Select(Texts(cfg, m), TextKind) == Texts(cfg, m)
  {
    if cfg.showTouchProperties {
      TextLinesSelection(cfg, m, |m|);
    }
  }

  lemma {:induction false} TextAt(cfg: Config, m: seq<Entry>, n: nat, i: nat)
    requires i < n <= |m|
    ensures TextLines(cfg, m, n)[i] == TextOf(cfg, m[i].1, i)
    decreases n
  {
    if i < n - 1 {
      TextAt(cfg, m, n - 1, i);
    }
  }

  /** The background and the grid hold no labels, text or idle message. */
  lemma BackdropSelection(cfg: Config, width: nat, height: nat, k: Kind)
    ensures Select(Background(cfg, width, height)
                   + (if 0.0 < cfg.gridSpan then Grid(width, height, cfg.gridSpan) else []), k) == []
  {
    var bg := Background(cfg, width, height);
    var grid := if 0.0 < cfg.gridSpan then Grid(width, height, cfg.gridSpan) else [];
    SelectAppend(bg, grid, k);
    SelectNone(bg, k);
    SelectNone(grid, k);
  }

  lemma SelectConcat(a: seq<Command>, b: seq<Command>, c: seq<Command>, d: seq<Command>, k: Kind)
    ensures Select(a + b + c + d, k) == Select(a, k) + Select(b, k) + Select(c, k) + Select(d, k)
  {
    SelectAppend(a + b + c, d, k);
    SelectAppend(a + b, c, k);
    SelectAppend(a, b, k);
  }

  lemma DropEmptyFront(a: seq<Command>, b: seq<Command>, c: seq<Command>, d: seq<Command>)
    requires a == []
    ensures a + b + c + d == b + c + d
  {
  }

  /** Only the markers, the text and the idle message contribute labels,
      text lines and idle messages to a frame. */
  lemma FrameParts(cfg: Config, m: seq<Entry>, width: nat, height: nat, k: Kind)
    ensures Select(Frame(cfg, m, width, height), k)
            == Select(Markers(cfg, m, |m|, width, height), k) + Select(Texts(cfg, m), k)
               + Select(if |m| == 0 then [IdleMessage(cfg.idleMessage, TouchColor(2))] else [], k)
  {
    var backdrop := Background(cfg, width, height)
                    + (if 0.0 < cfg.gridSpan then Grid(width, height, cfg.gridSpan) else []);
    var mk := Markers(cfg, m, |m|, width, height);
    var tx := Texts(cfg, m);
    var idle := if |m| == 0 then [IdleMessage(cfg.idleMessage, TouchColor(2))] else [];
    assert Frame(cfg, m, width, height) == backdrop + mk + tx + idle;
    SelectConcat(backdrop, mk, tx, idle, k);
    BackdropSelection(cfg, width, height, k);
    DropEmptyFront(Select(backdrop, k), Select(mk, k), Select(tx, k), Select(idle, k));
  }

  /** The labels drawn in a frame of a well-formed tracker are 1, 2, ..., N
      in key order, each at its pointer's position. */
  lemma FrameLabels(cfg: Config, m: seq<Entry>, width: nat, height: nat)
    requires WellFormed(m)
    ensures var labels := Select(Frame(cfg, m, width, height), LabelKind);
            && |labels| == |m|
            && forall i :: 0 <= i < |m| ==> labels[i] == Label(i + 1, m[i].1.pageX, m[i].1.pageY)
  {
    FrameLabelSelection(cfg, m, width, height);
    LabelsInOrder(m);
  }

  /** In a well-formed tracker the i-th label carries the number i + 1. */
  lemma LabelsInOrder(m: seq<Entry>)
    requires WellFormed(m)
    ensures forall i :: 0 <= i < |m| ==> LabelsUpTo(m, |m|)[i] == Label(i + 1, m[i].1.pageX, m[i].1.pageY)
  {
    forall i | 0 <= i < |m| ensures LabelsUpTo(m, |m|)[i] == Label(i + 1, m[i].1.pageX, m[i].1.pageY) {
      LabelAt(m, |m|, i);
      IndexOfUnique(m, i);
    }
  }

  /** The idle message, in palette colour 2, is drawn exactly when nothing is
      tracked. */
  lemma FrameIdle(cfg: Config, m: seq<Entry>, width: nat, height: nat)
    ensures Select(Frame(cfg, m, width, height), IdleKind)
            == if |m| == 0 then [IdleMessage(cfg.idleMessage, COLORS[2])] else []
  {
    var idle := if |m| == 0 then [IdleMessage(cfg.idleMessage, TouchColor(2))] else [];
    FrameParts(cfg, m, width, height, IdleKind);
    MarkerOthers(cfg, m, |m|, width, height, IdleKind);
    TextSelection(cfg, m);
    IdleSelection(cfg, |m| == 0);
    TwoEmptyFront(Select(Markers(cfg, m, |m|, width, height), IdleKind), Select(Texts(cfg, m), IdleKind),
                  Select(idle, IdleKind));
  }

  /** The idle part of a frame is its own idle message, in palette colour 2. */
  lemma IdleSelection(cfg: Config, empty: bool)
    ensures Select(if empty then [IdleMessage(cfg.idleMessage, TouchColor(2))] else [], IdleKind)
            == if empty then [IdleMessage(cfg.idleMessage, COLORS[2])] else []
  {
    if empty {
      var s := [IdleMessage(cfg.idleMessage, TouchColor(2))];
      assert s[..0] == [];
    }
  }

  lemma IdleOthers(cfg: Config, empty: bool, k: Kind)
    requires k != IdleKind
    ensures Select(if empty then [IdleMessage(cfg.idleMessage, TouchColor(2))] else [], k) == []
  {
    SelectNone(if empty then [IdleMessage(cfg.idleMessage, TouchColor(2))] else [], k);
  }

  lemma TwoEmptyFront(a: seq<Command>, b: seq<Command>, c: seq<Command>)
    requires a == [] && b == []
    ensures a + b + c == c
  {
  }

  /** With properties shown, line i of the text describes entry i in
      colour i at (10, 18*i + 30), and its string starts with the number
      i + 1; with properties hidden no text is drawn. */
  lemma FrameTexts(cfg: Config, m: seq<Entry>, width: nat, height: nat)
    ensures var t := Select(Frame(cfg, m, width, height), TextKind);
            && |t| == (if cfg.showTouchProperties then |m| else 0)
            && forall i :: 0 <= i < |t| ==>
                 && t[i] == TextLine(m[i].1, i, cfg.showTouchRadius, cfg.showPointerType, COLORS[i % 8], 10, 18 * i + 30)
                 && LineText(t[i]) == FormatTouch(m[i].1, i, cfg.showTouchRadius, cfg.showPointerType)
                 && LeadingNumber(LineText(t[i])) == i + 1
  {
    FrameTextSelection(cfg, m, width, height);
    var t := Select(Frame(cfg, m, width, height), TextKind);
    forall i | 0 <= i < |t|
      ensures t[i] == TextLine(m[i].1, i, cfg.showTouchRadius, cfg.showPointerType, COLORS[i % 8], 10, 18 * i + 30)
      ensures LeadingNumber(LineText(t[i])) == i + 1
    {
      TextAt(cfg, m, |m|, i);
      FormatTouchNumber(m[i].1, i, cfg.showTouchRadius, cfg.showPointerType);
    }
  }

  /** The labels of a frame are exactly those of its markers. */
  lemma FrameLabelSelection(cfg: Config, m: seq<Entry>, width: nat, height: nat)
    ensures Select(Frame(cfg, m, width, height), LabelKind) == LabelsUpTo(m, |m|)
  {
    var idle := if |m| == 0 then [IdleMessage(cfg.idleMessage, TouchColor(2))] else [];
    FrameParts(cfg, m, width, height, LabelKind);
    MarkerLabels(cfg, m, |m|, width, height);
    TextSelection(cfg, m);
    IdleOthers(cfg, |m| == 0, LabelKind);
    EmptyBehind(Select(Markers(cfg, m, |m|, width, height), LabelKind), Select(Texts(cfg, m), LabelKind),
                Select(idle, LabelKind));
  }

  lemma EmptyBehind(a: seq<Command>, b: seq<Command>, c: seq<Command>)
    requires b == [] && c == []
    ensures a + b + c == a
  {
  }

  /** The text lines of a frame are exactly its text block. */
  lemma FrameTextSelection(cfg: Config, m: seq<Entry>, width: nat, height: nat)
    ensures Select(Frame(cfg, m, width, height), TextKind) == Texts(cfg, m)
  {
    var idle := if |m| == 0 then [IdleMessage(cfg.idleMessage, TouchColor(2))] else [];
    FrameParts(cfg, m, width, height, TextKind);
    MarkerOthers(cfg, m, |m|, width, height, TextKind);
    TextSelection(cfg, m);
    IdleOthers(cfg, |m| == 0, TextKind);
    EmptyAround(Select(Markers(cfg, m, |m|, width, height), TextKind), Select(Texts(cfg, m), TextKind),
                Select(idle, TextKind));
  }

  lemma EmptyAround(a: seq<Command>, b: seq<Command>, c: seq<Command>)
    requires a == [] && c == []
    ensures a + b + c == b
  {
  }

  // ---------------------------------------------------------------- text output

  /** `drawTouchString`: one text line in the pointer's colour. */
  method DrawTouchString(canvas: Canvas, info: PointerInfo, color: string, ordinal: nat,
                         showRadius: bool, showPointerType: bool)
    modifies canvas
    ensures canvas.width == old(canvas.width) && canvas.height == old(canvas.height)
    ensures canvas.commands == old(canvas.commands)
              + [TextLine(info, ordinal, showRadius, showPointerType, color, 10, 18 * ordinal + 30)]
  {
    canvas.commands := canvas.commands + [TextLine(info, ordinal, showRadius, showPointerType, color, 10, 18 * ordinal + 30)];
  }

  /** `drawIdleMessage`: the message centred on the canvas. */
  method DrawIdleMessage(canvas: Canvas, message: string, color: string)
    modifies canvas
    ensures canvas.width == old(canvas.width) && canvas.height == old(canvas.height)
    ensures canvas.commands == old(canvas.commands) + [IdleMessage(message, color)]
  {
    canvas.commands := canvas.commands + [IdleMessage(message, color)];
  }
}
