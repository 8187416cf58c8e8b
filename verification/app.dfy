/** The editor as a state machine: every event the page reacts to is a
    command, and `Step` is the state transition it triggers. The lemmas show
    that the editor's invariant holds after every event, that ids are never
    handed out twice, and that the resize floor on scale is kept. */
module App {
  import opened Optional
  import opened Units
  import opened State
  import Store
  import opened Interaction

  /** What part of a sticker was pressed: its body, a corner handle
      (`tl`, `tr`, `bl`, `br` all resize alike) or the rotation handle. */
  datatype Handle = Body | Corner | RotateHandle

  /** The keys the keyboard handler distinguishes; `Other` carries `e.key`. */
  datatype Key = DeleteKey | Backspace | Escape | Arrow(dir: Store.Direction) | Other(name: string)

  /** The `e.key` names the handler tests for; each has its own `Key` constructor. */
  const NamedKeys: set<string> := {"Delete", "Backspace", "Escape", "ArrowUp", "ArrowDown", "ArrowLeft", "ArrowRight"}

  /** A key is described by its own constructor, never as `Other` with a handled name. */
  predicate WellFormedKey(k: Key) {
    k.Other? ==> k.name !in NamedKeys
  }

  datatype Command =
    | ImageLoaded(src: string, naturalW: int, naturalH: int)
    | PressSticker(id: int, handle: Handle, client: Point, rect: Rect)
    | PressBackground
    | PointerMoved(m: Pointer)
    | Release
    | KeyDown(key: Key, shift: bool, ctrl: bool, inFormField: bool)
    | Panel(edit: Store.PanelEdit)
    | DuplicateClicked
    | DeleteClicked
    | BringFrontClicked
    | SendBackClicked
    | ClearClicked(confirmed: bool)
    | ApplyCanvasSize(width: Option<int>, height: Option<int>)
    | ZoomIn
    | ZoomOut
    | Wheel(ctrl: bool, deltaY: real)

  /** Zoom factor of one zoom-in or zoom-out button press. */
  const ZoomButtonFactor: real := 1.25

  /** `setZoom`: the requested zoom, clamped. */
  function SetZoom(e: Editor, z: real): (r: Editor)
    ensures MinZoom <= r.zoom <= MaxZoom
    ensures MinZoom <= z <= MaxZoom ==> r.zoom == z
    ensures z < MinZoom ==> r.zoom == MinZoom
    ensures z > MaxZoom ==> r.zoom == MaxZoom
    ensures r == e.(zoom := r.zoom)
  {
    e.(zoom := ClampZoom(z))
  }

  /** Ctrl + wheel: zoom by 1.1 when scrolling up, by 0.9 otherwise; a plain
      wheel event leaves the zoom alone. */
  function OnWheel(e: Editor, ctrl: bool, deltaY: real): (r: Editor)
    ensures !ctrl ==> r == e
    ensures ctrl && deltaY < 0.0 ==> r == SetZoom(e, e.zoom * 1.1)
    ensures ctrl && deltaY >= 0.0 ==> r == SetZoom(e, e.zoom * 0.9)
  {
    if !ctrl then e
    else SetZoom(e, e.zoom * (if deltaY < 0.0 then 1.1 else 0.9))
  }

  /** The canvas-size form's apply button: each side is the parsed field,
      or the default when the field is empty, not a number or 0, and never
      less than 100 mm. */
  function ApplyCanvas(e: Editor, width: Option<int>, height: Option<int>): (r: Editor)
    ensures r.canvasW >= MinCanvasMm && r.canvasH >= MinCanvasMm
    ensures width.Some? && width.value >= MinCanvasMm ==> r.canvasW == width.value
    ensures height.Some? && height.value >= MinCanvasMm ==> r.canvasH == height.value
    ensures width.Some? && width.value != 0 && width.value < MinCanvasMm ==> r.canvasW == MinCanvasMm
    ensures height.Some? && height.value != 0 && height.value < MinCanvasMm ==> r.canvasH == MinCanvasMm
    ensures width.None? || width == Some(0) ==> r.canvasW == DefaultCanvasW
    ensures height.None? || height == Some(0) ==> r.canvasH == DefaultCanvasH
    ensures r == e.(canvasW := r.canvasW, canvasH := r.canvasH)
  {
    e.(canvasW := CanvasSide(width, DefaultCanvasW), canvasH := CanvasSide(height, DefaultCanvasH))
  }

  /** The document's keydown handler. Typing in a form field is ignored;
      otherwise Delete or Backspace deletes the selection, Escape clears it,
      an arrow nudges it and Ctrl+D duplicates it. Each key triggers at most
      one of these. */
  function OnKeyDown(e: Editor, key: Key, shift: bool, ctrl: bool, inFormField: bool): (r: Editor)
    ensures inFormField ==> r == e
    ensures !inFormField && (key.DeleteKey? || key.Backspace?) ==> r == Store.DeleteSelected(e)
    ensures !inFormField && key.Escape? ==> r == Store.Deselect(e)
    ensures !inFormField && key.Arrow? ==> r == Store.Nudge(e, key.dir, shift)
    ensures !inFormField && key == Other("d") && ctrl ==> r == Store.Duplicate(e)
    ensures key.Other? && !(key.name == "d" && ctrl) ==> r == e
  {
    if inFormField then e
    else
      var afterDelete := if key.DeleteKey? || key.Backspace? then Store.DeleteSelected(e) else e;
      var afterEscape := if key.Escape? then Store.Deselect(afterDelete) else afterDelete;
      var afterNudge := if key.Arrow? then Store.Nudge(afterEscape, key.dir, shift) else afterEscape;
      if ctrl && key == Other("d") then Store.Duplicate(afterNudge) else afterNudge
  }

  /** A command the model can run: the zoom is non-zero (it divides client
      coordinates), a loaded image has a positive natural width (its height
      is divided by it), a pointer's travel is a length (never negative) and
      a key is well formed. */
  predicate Admissible(e: Editor, cmd: Command) {
    && e.zoom != 0.0
    && (cmd.ImageLoaded? ==> cmd.naturalW > 0)
    && (cmd.PointerMoved? ==> cmd.m.distance >= 0.0)
    && (cmd.KeyDown? ==> WellFormedKey(cmd.key))
  }

  /** The transition each event triggers. Only the size form changes the
      canvas, only the zoom controls change the zoom, only presses and
      releases change the gesture session, and the id counter advances by
      at most one, only when a sticker is added. */
  function Step(e: Editor, cmd: Command): (r: Editor)
    requires Admissible(e, cmd)
    ensures !cmd.ApplyCanvasSize? ==> r.canvasW == e.canvasW && r.canvasH == e.canvasH
    ensures !(cmd.ZoomIn? || cmd.ZoomOut? || cmd.Wheel?) ==> r.zoom == e.zoom
    ensures !(cmd.PressSticker? || cmd.Release?) ==> r.session == e.session
    ensures e.nextId <= r.nextId <= e.nextId + 1
    ensures !(cmd.ImageLoaded? || cmd.DuplicateClicked? || cmd.KeyDown?) ==> r.nextId == e.nextId
    ensures r.nextId == e.nextId + 1 ==>
      |r.stickers| == |e.stickers| + 1 && r.stickers[|e.stickers|].id == e.nextId
    ensures cmd.ZoomIn? ==> r == SetZoom(e, e.zoom * ZoomButtonFactor)
    ensures cmd.ZoomOut? ==> r == SetZoom(e, e.zoom / ZoomButtonFactor)
  {
    match cmd
    case ImageLoaded(src, w, h) => Store.CreateSticker(e, src, w, h)
    case PressSticker(id, handle, client, rect) =>
      (match handle
       case Body => BeginDrag(e, id, client, rect)
       case Corner => BeginResize(e, id, client)
       case RotateHandle => BeginRotate(e, id, rect))
    case PressBackground => Store.Deselect(e)
    case PointerMoved(m) => Move(e, m)
    case Release => End(e)
    case KeyDown(key, shift, ctrl, inFormField) => OnKeyDown(e, key, shift, ctrl, inFormField)
    case Panel(edit) => Store.ApplyPanelEdit(e, edit)
    case DuplicateClicked => Store.Duplicate(e)
    case DeleteClicked => Store.DeleteSelected(e)
    case BringFrontClicked => Store.BringToFront(e)
    case SendBackClicked => Store.SendToBack(e)
    case ClearClicked(confirmed) => Store.Clear(e, confirmed)
    case ApplyCanvasSize(w, h) => ApplyCanvas(e, w, h)
    case ZoomIn => SetZoom(e, e.zoom * ZoomButtonFactor)
    case ZoomOut => SetZoom(e, e.zoom / ZoomButtonFactor)
    case Wheel(ctrl, deltaY) => OnWheel(e, ctrl, deltaY)
  }

  /** Zooming in and then out returns to the same zoom as long as zooming in
      did not hit the upper clamp. */
  lemma ZoomInThenOut(e: Editor)
    requires MinZoom <= e.zoom && e.zoom * ZoomButtonFactor <= MaxZoom
    ensures Step(Step(e, ZoomIn), ZoomOut) == e
  {
    var z := e.zoom * ZoomButtonFactor;
    assert Step(e, ZoomIn).zoom == z;
    assert z / ZoomButtonFactor == e.zoom;
  }

  /** At the upper clamp, zooming in changes nothing. */
  lemma ZoomInAtMaximum(e: Editor)
    requires e.zoom == MaxZoom
    ensures Step(e, ZoomIn) == e
  {
  }

  /** Every event keeps the editor's invariant: zoom and canvas within
      their clamps, ids distinct and below the counter, and the selection
      empty or naming a sticker in the store. */
  lemma {:induction false} StepKeepsValid(e: Editor, cmd: Command)
    requires Valid(e) && Admissible(e, cmd)
    ensures Valid(Step(e, cmd))
  {
    match cmd
    case KeyDown(key, shift, ctrl, inFormField) =>
      if !inFormField {
        var a := if key.DeleteKey? || key.Backspace? then Store.DeleteSelected(e) else e;
        var b := if key.Escape? then Store.Deselect(a) else a;
        var c := if key.Arrow? then Store.Nudge(b, key.dir, shift) else b;
        assert Valid(a) && Valid(b) && Valid(c);
      }
    case _ =>
  }

  /** An id that was handed out and is no longer in the store never comes
      back, and the counter never goes down. */
  lemma {:induction false} StepNeverReusesIds(e: Editor, cmd: Command, x: int)
    requires Valid(e) && Admissible(e, cmd)
    requires x < e.nextId && Absent(e.stickers, x)
    ensures Absent(Step(e, cmd).stickers, x)
    ensures Step(e, cmd).nextId >= e.nextId
  {
    match cmd
    case KeyDown(key, shift, ctrl, inFormField) =>
      if !inFormField {
        var a := if key.DeleteKey? || key.Backspace? then Store.DeleteSelected(e) else e;
        var b := if key.Escape? then Store.Deselect(a) else a;
        var c := if key.Arrow? then Store.Nudge(b, key.dir, shift) else b;
        assert Valid(a) && Valid(b) && Valid(c);
        assert Absent(a.stickers, x) && Absent(b.stickers, x) && Absent(c.stickers, x);
        assert a.nextId == e.nextId && c.nextId == e.nextId;
      }
    case _ =>
  }

  /** No event other than the scale slider set below 10 % brings a scale under 0.1. */
  lemma {:induction false} StepKeepsScaleFloor(e: Editor, cmd: Command)
    requires Admissible(e, cmd) && ScalesFloored(e.stickers)
    requires !(cmd.Panel? && cmd.edit.SetScale? && cmd.edit.percent < 10)
    ensures ScalesFloored(Step(e, cmd).stickers)
  {
    match cmd
    case KeyDown(key, shift, ctrl, inFormField) =>
      if !inFormField {
        var a := if key.DeleteKey? || key.Backspace? then Store.DeleteSelected(e) else e;
        var b := if key.Escape? then Store.Deselect(a) else a;
        var c := if key.Arrow? then Store.Nudge(b, key.dir, shift) else b;
        assert ScalesFloored(a.stickers) && ScalesFloored(b.stickers) && ScalesFloored(c.stickers);
      }
    case _ =>
  }

  /** The duplicate's key is the number of stickers, not one above the
      largest key: after two bring-to-front presses, duplicating the
      front-most sticker puts the copy beneath its own original. */
  lemma DuplicateCanLandBelowOriginal(p: Point, rect: Rect)
    ensures
      var e3 := Step(Step(Step(Initial, ImageLoaded("a", 100, 100)), ImageLoaded("b", 100, 100)), BringFrontClicked);
      var e4 := Step(e3, PressSticker(1, Body, p, rect));
      var e5 := Step(e4, BringFrontClicked);
      var e6 := Step(e5, DuplicateClicked);
      && |e6.stickers| == 3
      && e6.stickers[2].id == 3 && e6.stickers[0].id == 1
      && e6.stickers[2].zIndex < e6.stickers[0].zIndex
  {
    ScenarioSteps(p, rect);
    TwoLoadedOneRaised();
    RaisePressedThenDuplicate(Raised(), p, rect);
  }

  /** The state after loading two images and bringing the second to the front. */
  function Raised(): Editor {
    Store.BringToFront(Store.CreateSticker(Store.CreateSticker(Initial, "a", 100, 100), "b", 100, 100))
  }

  /** The scenario's events, each replaced by the operation it dispatches to. */
  lemma ScenarioSteps(p: Point, rect: Rect)
    ensures
      var e3 := Step(Step(Step(Initial, ImageLoaded("a", 100, 100)), ImageLoaded("b", 100, 100)), BringFrontClicked);
      && e3 == Raised()
      && Step(Step(Step(e3, PressSticker(1, Body, p, rect)), BringFrontClicked), DuplicateClicked)
         == Store.Duplicate(Store.BringToFront(BeginDrag(Raised(), 1, p, rect)))
  {
    LoadTwiceThenRaise(Initial, "a", "b");
    PressRaiseDuplicate(Raised(), 1, p, rect);
  }

  /** Two image loads and a bring-to-front press, as store operations. */
  lemma LoadTwiceThenRaise(e: Editor, a: string, b: string)
    requires e.zoom != 0.0
    ensures Step(Step(Step(e, ImageLoaded(a, 100, 100)), ImageLoaded(b, 100, 100)), BringFrontClicked)
         == Store.BringToFront(Store.CreateSticker(Store.CreateSticker(e, a, 100, 100), b, 100, 100))
  {
    var e1 := Step(e, ImageLoaded(a, 100, 100));
    assert e1 == Store.CreateSticker(e, a, 100, 100);
    var e2 := Step(e1, ImageLoaded(b, 100, 100));
    assert e2 == Store.CreateSticker(e1, b, 100, 100);
  }

  /** A press on a sticker's body, a bring-to-front press and a duplicate
      press, as store operations. */
  lemma PressRaiseDuplicate(e: Editor, id: int, p: Point, rect: Rect)
    requires e.zoom != 0.0
    ensures Step(Step(Step(e, PressSticker(id, Body, p, rect)), BringFrontClicked), DuplicateClicked)
         == Store.Duplicate(Store.BringToFront(BeginDrag(e, id, p, rect)))
  {
    var e4 := Step(e, PressSticker(id, Body, p, rect));
    assert e4 == BeginDrag(e, id, p, rect);
    var e5 := Step(e4, BringFrontClicked);
    assert e5 == Store.BringToFront(e4);
  }

  /** The second half of the scenario above: with sticker 1 at key 0 and
      sticker 2 at key 2, pressing sticker 1, bringing it to the front and
      duplicating it puts the copy (id 3) at key 2, below the original at 3. */
  lemma RaisePressedThenDuplicate(e3: Editor, p: Point, rect: Rect)
    requires |e3.stickers| == 2 && e3.nextId == 3 && e3.zoom == 1.0
    requires e3.stickers[0].id == 1 && e3.stickers[0].zIndex == 0
    requires e3.stickers[1].id == 2 && e3.stickers[1].zIndex == 2
    ensures
      var e6 := Store.Duplicate(Store.BringToFront(BeginDrag(e3, 1, p, rect)));
      && |e6.stickers| == 3
      && e6.stickers[2].id == 3 && e6.stickers[0].id == 1
      && e6.stickers[2].zIndex == 2 && e6.stickers[0].zIndex == 3
  {
    var e4 := BeginDrag(e3, 1, p, rect);
    assert IndexOf(e3.stickers, 1) == Some(0);
    assert e4.stickers == e3.stickers && SelectedIndex(e4) == Some(0);
    assert Store.MaxZ(e4.stickers) == 2;
  }

  /** The first half of the scenario above: two images loaded, the second
      (selected) one brought to the front. */
  lemma TwoLoadedOneRaised()
    ensures
      var e3 := Raised();
      && |e3.stickers| == 2 && e3.nextId == 3
      && e3.stickers[0].id == 1 && e3.stickers[0].zIndex == 0
      && e3.stickers[1].id == 2 && e3.stickers[1].zIndex == 2
      && e3.zoom == 1.0 && e3.selectedId == Some(2)
  {
    TwoLoaded();
    var e2 := Store.CreateSticker(Store.CreateSticker(Initial, "a", 100, 100), "b", 100, 100);
    assert SelectedIndex(e2) == Some(1);
    assert Store.MaxZ(e2.stickers) == 1;
  }

  /** Two images loaded into a fresh editor: ids 1 and 2 at keys 0 and 1,
      the second one selected. */
  lemma TwoLoaded()
    ensures
      var e2 := Store.CreateSticker(Store.CreateSticker(Initial, "a", 100, 100), "b", 100, 100);
      && |e2.stickers| == 2 && e2.nextId == 3
      && e2.stickers[0].id == 1 && e2.stickers[0].zIndex == 0
      && e2.stickers[1].id == 2 && e2.stickers[1].zIndex == 1
      && e2.zoom == 1.0 && e2.selectedId == Some(2)
  {
    var e1 := Store.CreateSticker(Initial, "a", 100, 100);
    assert e1.stickers[0].id == 1 && e1.stickers[0].zIndex == 0 && e1.nextId == 2;
  }
}
