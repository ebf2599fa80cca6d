/** The canvas viewport: a pan offset and a zoom scale mapping canvas
    coordinates to screen coordinates (`screen = pan + canvas * scale`, the
    CSS `translate(pan) scale(scale)` with origin 0 0), and the zoom, pan and
    drag formulas of the canvas event handlers. JavaScript numbers are modelled
    as exact reals. */
module Viewport {
  import opened Common
  import opened Types

  /** `scale` and `canvasPosition` of the canvas component. */
  datatype Transform = Transform(scale: real, pan: Position)

  /** The canvas element's `getBoundingClientRect()`. */
  datatype Rect = Rect(left: real, top: real, width: real, height: real)

  /** Every zoom step multiplies or divides the scale by this. */
  const ZoomFactor: real := 1.1

  /** The state at mount time and after ctrl+0. */
  const Identity: Transform := Transform(1.0, Position(0.0, 0.0))

  /** Where pasted images go when the canvas element is not mounted. */
  const FallbackCenter: Position := Position(100.0, 100.0)

  /** `(screen - pan) / scale`, per axis: the screen point at the pan offset
      is the canvas origin, and the initial view maps every point to itself.
      That the result is the canvas point drawn at `s` is
      `ScreenCanvasRoundTrip` below. */
  function ScreenToCanvas(t: Transform, s: Position): (c: Position)
    requires t.scale != 0.0
    ensures s == t.pan ==> c == Position(0.0, 0.0)
    ensures t == Identity ==> c == s
  {
    Position((s.x - t.pan.x) / t.scale, (s.y - t.pan.y) / t.scale)
  }

  /** `pan + canvas * scale`, per axis: where the render transform draws a
      canvas point; with a non-zero scale, converting back gives the point. */
  function CanvasToScreen(t: Transform, c: Position): (s: Position)
    ensures t.scale != 0.0 ==> ScreenToCanvas(t, s) == c
  {
    var s := Position(t.pan.x + c.x * t.scale, t.pan.y + c.y * t.scale);
    if t.scale != 0.0 then
      DivMulCancel(c.x, t.scale);
      DivMulCancel(c.y, t.scale);
      s
    else s
  }

  /** Division and multiplication by the same non-zero factor cancel. */
  lemma DivMulCancel(a: real, k: real)
    requires k != 0.0
    ensures (a / k) * k == a && (a * k) / k == a
  {
  }

  /** Converting a screen point to the canvas and drawing it again gives the same screen point. */
  lemma ScreenCanvasRoundTrip(t: Transform, s: Position)
    requires t.scale != 0.0
    ensures CanvasToScreen(t, ScreenToCanvas(t, s)) == s
  {
    DivMulCancel(s.x - t.pan.x, t.scale);
    DivMulCancel(s.y - t.pan.y, t.scale);
  }

  /** Drawing a canvas point and converting the screen point back gives the same canvas point. */
  lemma CanvasScreenRoundTrip(t: Transform, c: Position)
    requires t.scale != 0.0
    ensures ScreenToCanvas(t, CanvasToScreen(t, c)) == c
  {
    DivMulCancel(c.x, t.scale);
    DivMulCancel(c.y, t.scale);
  }

  /** Changes the scale to `newScale` and moves the pan so that the canvas
      point under the screen point `anchor` stays under it. */
  function ZoomAt(t: Transform, anchor: Position, newScale: real): (r: Transform)
    requires t.scale != 0.0
    ensures r.scale == newScale
    ensures CanvasToScreen(r, ScreenToCanvas(t, anchor)) == anchor
    ensures newScale != 0.0 ==> ScreenToCanvas(r, anchor) == ScreenToCanvas(t, anchor)
  {
    var a := ScreenToCanvas(t, anchor);
    var r := Transform(newScale, Position(anchor.x - a.x * newScale, anchor.y - a.y * newScale));
    if newScale != 0.0 then CanvasScreenRoundTrip(r, a); r else r
  }

  /** The scale after one ctrl+wheel step: out by `1 / 1.1` when `deltaY > 0`,
      otherwise in by `1.1` (a zero `deltaY` zooms in). */
  function WheelZoomScale(scale: real, deltaY: real): (r: real)
    ensures scale > 0.0 ==> r > 0.0
    ensures scale > 0.0 && deltaY > 0.0 ==> r < scale
    ensures scale > 0.0 && deltaY <= 0.0 ==> r > scale
    ensures r * (if deltaY > 0.0 then ZoomFactor else 1.0 / ZoomFactor) == scale
  {
    scale * (if deltaY > 0.0 then 1.0 / ZoomFactor else ZoomFactor)
  }

  /** Ctrl+wheel: zoom anchored at the cursor, taken relative to the element. */
  function WheelZoom(t: Transform, rect: Rect, clientX: real, clientY: real, deltaY: real): (r: Transform)
    requires t.scale != 0.0
    ensures r.scale == WheelZoomScale(t.scale, deltaY)
    ensures var cursor := Position(clientX - rect.left, clientY - rect.top);
            CanvasToScreen(r, ScreenToCanvas(t, cursor)) == cursor
  {
    ZoomAt(t, Position(clientX - rect.left, clientY - rect.top), WheelZoomScale(t.scale, deltaY))
  }

  /** Wheel without ctrl: the pan moves by the negated wheel deltas, so every
      canvas point moves on screen by that much and the scale stays. */
  function WheelPan(t: Transform, deltaX: real, deltaY: real): (r: Transform)
    ensures r.scale == t.scale
    ensures forall c :: CanvasToScreen(r, c) ==
              Position(CanvasToScreen(t, c).x - deltaX, CanvasToScreen(t, c).y - deltaY)
  {
    Transform(t.scale, Position(t.pan.x + deltaX * -1.0, t.pan.y + deltaY * -1.0))
  }

  /** The centre of the element, in coordinates relative to it. */
  function CenterOf(rect: Rect): Position {
    Position(rect.width / 2.0, rect.height / 2.0)
  }

  /** `getViewportCenter()`: the canvas point drawn at the middle of the
      element, or (100, 100) when the element is not mounted. */
  function ViewportCenter(t: Transform, rect: Option<Rect>): (c: Position)
    requires t.scale != 0.0
    ensures rect.Some? ==> CanvasToScreen(t, c) == CenterOf(rect.value)
    ensures rect.None? ==> c == FallbackCenter
  {
    if rect.None? then FallbackCenter
    else
      var c := ScreenToCanvas(t, CenterOf(rect.value));
      ScreenCanvasRoundTrip(t, CenterOf(rect.value));
      c
  }

  /** Ctrl+'+' / ctrl+'-': zoom to `newScale` anchored at the element's centre;
      without a mounted element only the scale changes. */
  function KeyZoom(t: Transform, rect: Option<Rect>, newScale: real): (r: Transform)
    requires t.scale != 0.0
    ensures r.scale == newScale
    ensures rect.None? ==> r.pan == t.pan
    ensures rect.Some? ==> CanvasToScreen(r, ScreenToCanvas(t, CenterOf(rect.value))) == CenterOf(rect.value)
  {
    if rect.Some? then ZoomAt(t, CenterOf(rect.value), newScale) else Transform(newScale, t.pan)
  }

  /** Zooming in one keyboard step and out one step with the same element
      rectangle restores scale and pan exactly. */
  lemma KeyZoomInOutRoundTrip(t: Transform, rect: Option<Rect>)
    requires t.scale > 0.0
    ensures var zin := KeyZoom(t, rect, t.scale * ZoomFactor);
            KeyZoom(zin, rect, zin.scale / ZoomFactor) == t
  {
    var zin := KeyZoom(t, rect, t.scale * ZoomFactor);
    assert zin.scale / ZoomFactor == t.scale;
    if rect.Some? {
      var c := CenterOf(rect.value);
      var a := ScreenToCanvas(t, c);
      assert ScreenToCanvas(zin, c) == a;
      var zout := KeyZoom(zin, rect, t.scale);
      assert zout == Transform(t.scale, Position(c.x - a.x * t.scale, c.y - a.y * t.scale));
      ScreenCanvasRoundTrip(t, c);
    }
  }

  /** Zooming in one wheel step and out one wheel step at the same cursor
      restores scale and pan exactly. */
  lemma WheelZoomInOutRoundTrip(t: Transform, rect: Rect, clientX: real, clientY: real, up: real, down: real)
    requires t.scale > 0.0 && up <= 0.0 && down > 0.0
    ensures var zin := WheelZoom(t, rect, clientX, clientY, up);
            WheelZoom(zin, rect, clientX, clientY, down) == t
  {
    var cursor := Position(clientX - rect.left, clientY - rect.top);
    var zin := WheelZoom(t, rect, clientX, clientY, up);
    assert zin.scale == t.scale * ZoomFactor;
    assert WheelZoomScale(zin.scale, down) == t.scale;
    var a := ScreenToCanvas(t, cursor);
    assert ScreenToCanvas(zin, cursor) == a;
    ScreenCanvasRoundTrip(t, cursor);
  }

  /** One mouse move while dragging: the pan follows the pointer's displacement
      since the previous event, so at any zoom the canvas point that was under
      the pointer is under it again. */
  function DragTo(pan: Position, dragStart: Position, client: Position): (r: Position)
    ensures forall scale: real :: scale != 0.0 ==>
              ScreenToCanvas(Transform(scale, r), client) == ScreenToCanvas(Transform(scale, pan), dragStart)
  {
    Position(pan.x + (client.x - dragStart.x), pan.y + (client.y - dragStart.y))
  }

  /** A run of mouse moves while dragging, each one followed by `dragStart := client`:
      the canvas point grabbed when the drag started ends under the pointer. */
  function DragRun(pan: Position, dragStart: Position, clients: seq<Position>): (r: Position)
    ensures clients == [] ==> r == pan
    ensures clients != [] ==> forall scale: real :: scale != 0.0 ==>
              ScreenToCanvas(Transform(scale, r), clients[|clients| - 1]) ==
              ScreenToCanvas(Transform(scale, pan), dragStart)
    decreases |clients|
  {
    if clients == [] then pan
    else DragRun(DragTo(pan, dragStart, clients[0]), clients[0], clients[1..])
  }

  /** A run of moves pans by the total displacement from where the drag
      started to where the pointer ends. */
  lemma {:induction false} DragRunTotal(pan: Position, dragStart: Position, clients: seq<Position>)
    requires clients != []
    decreases |clients|
    ensures var last := clients[|clients| - 1];
            DragRun(pan, dragStart, clients) ==
              Position(pan.x + (last.x - dragStart.x), pan.y + (last.y - dragStart.y))
  {
    if |clients| > 1 {
      DragRunTotal(DragTo(pan, dragStart, clients[0]), clients[0], clients[1..]);
    }
  }
}
