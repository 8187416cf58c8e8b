/** The gesture controller: a press on a sticker (its body, a corner handle
    or the rotation handle) selects it and opens a drag, resize or rotate
    session; pointer moves update the sticker from the session's snapshot;
    release ends the session. The arctangent and square root the gestures
    use are inputs: each move carries the pointer's turn about the pivot
    since the press, in degrees, and the length of its displacement. */
module Interaction {
  import opened Optional
  import opened Units
  import opened State
  import opened Geometry
  import Store

  /** Screen pixels of diagonal pointer travel per unit of scale. */
  const ResizeSensitivityPx: real := 150.0
  /** With Shift held, rotation snaps to multiples of this many degrees. */
  const SnapDegrees: int := 15

  /** One pointer-move event: where the pointer is, where the container is,
      whether Shift is held, and the two values the source computes with
      `Math.atan2` and `Math.sqrt` — the angle, in degrees, the pointer has
      turned about the rotation pivot since the press, and the length of the
      pointer's displacement since the press. */
  datatype Pointer = Pointer(client: Point, rect: Rect, shift: bool, turnDeg: real, distance: real)

  /** `clientToCanvas`: client pixels to canvas pixels at zoom 1. Its inverse
      scales back by the zoom and shifts by the container's corner. */
  function ClientToCanvas(client: Point, rect: Rect, zoom: real): (p: Point)
    requires zoom != 0.0
    ensures p.x * zoom + rect.left == client.x
    ensures p.y * zoom + rect.top == client.y
  {
    Point((client.x - rect.left) / zoom, (client.y - rect.top) / zoom)
  }

  /** `Math.sign`. */
  function Sign(x: real): int {
    if x > 0.0 then 1 else if x < 0.0 then -1 else 0
  }

  /** The resize rule: the start scale plus the signed diagonal travel over
      150 pixels, floored at 0.1. The diagonal's sign is the sign of
      `dx + dy`: toward the bottom-right grows, toward the top-left shrinks. */
  function ResizedScale(startScale: real, dx: real, dy: real, distance: real): (scale: real)
    ensures scale >= MinScale
    ensures dx + dy == 0.0 ==> scale == Max(MinScale, startScale)
    ensures distance >= 0.0 && dx + dy > 0.0 ==> scale >= startScale
    ensures distance >= 0.0 && dx + dy < 0.0 ==> scale <= Max(MinScale, startScale)
    ensures scale > MinScale ==> (scale - startScale) * ResizeSensitivityPx == Sign(dx + dy) as real * distance
    ensures startScale + Sign(dx + dy) as real * distance / ResizeSensitivityPx > MinScale ==> scale > MinScale
  {
    Max(MinScale, startScale + distance * Sign(dx + dy) as real / ResizeSensitivityPx)
  }

  function IntAbs(n: int): nat {
    if n < 0 then -n else n
  }

  /** `Math.round(deg / 15) * 15`: the multiple of 15 nearest to `deg`. */
  function Snap(deg: int): (r: int)
    ensures r % SnapDegrees == 0
    ensures -7 <= deg - r <= 7
  {
    var q := Round(deg as real / 15.0);
    assert q as real - 0.5 <= deg as real / 15.0 < q as real + 0.5;
    assert (q as real - 0.5) * 15.0 <= deg as real < (q as real + 0.5) * 15.0;
    q * SnapDegrees
  }

  /** No multiple of 15 is closer to `deg` than its snap. */
  lemma SnapIsNearest(deg: int, k: int)
    ensures IntAbs(deg - Snap(deg)) <= IntAbs(deg - k * SnapDegrees)
  {
    var r := Snap(deg);
    var q := r / SnapDegrees;
    assert r == q * SnapDegrees;
    if k < q {
      assert k * SnapDegrees <= r - SnapDegrees;
    } else if k > q {
      assert k * SnapDegrees >= r + SnapDegrees;
    }
  }

  /** Snapping an already snapped angle changes nothing. */
  lemma SnapIdempotent(deg: int)
    ensures Snap(Snap(deg)) == Snap(deg)
  {
    var r := Snap(deg);
    var r2 := Snap(r);
    assert r % SnapDegrees == 0 && r2 % SnapDegrees == 0;
    assert -7 <= r - r2 <= 7;
  }

  /** The rotate rule: the start rotation plus the pointer's turn, rounded
      to whole degrees, then with Shift held snapped to the nearest multiple
      of 15. */
  function RotatedAngle(startRotate: int, turnDeg: real, shift: bool): (r: int)
    ensures !shift ==> r as real - 0.5 <= startRotate as real + turnDeg < r as real + 0.5
    ensures shift ==> r % SnapDegrees == 0
    ensures shift ==> -7 <= Round(startRotate as real + turnDeg) - r <= 7
  {
    var raw := Round(startRotate as real + turnDeg);
    if shift then Snap(raw) else raw
  }

  /** Start at 10 degrees, turn 13 degrees with Shift held: 23 rounds to 23,
      23 / 15 rounds to 2, and the sticker ends at 30 degrees. */
  lemma SnapFromTenTurnedThirteen()
    ensures RotatedAngle(10, 13.0, true) == 30
  {
    assert Round(23.0) == 23;
    var q := Round(23 as real / 15.0);
    assert 1.5 <= 23.0 / 15.0 < 2.5;
    assert q == 2;
  }

  /** `startDrag`: select the sticker and remember where the pointer was, in
      canvas pixels, and where the sticker was, in millimetres. */
  function BeginDrag(e: Editor, id: int, client: Point, rect: Rect): (r: Editor)
    requires e.zoom != 0.0
    ensures IndexOf(e.stickers, id).None? ==> r == e
    ensures IndexOf(e.stickers, id).Some? ==>
      var s := e.stickers[IndexOf(e.stickers, id).value];
      && r == e.(selectedId := Some(id), session := r.session)
      && SelectedIndex(r) == IndexOf(e.stickers, id)
      && r.session == Some(Drag(id, ClientToCanvas(client, rect, e.zoom), s.xMm, s.yMm))
    ensures Valid(e) ==> Valid(r)
  {
    match IndexOf(e.stickers, id)
    case None => e
    case Some(i) =>
      var s := e.stickers[i];
      Store.Select(e, id).(session := Some(Drag(id, ClientToCanvas(client, rect, e.zoom), s.xMm, s.yMm)))
  }

  /** `startResize`: select the sticker and remember the pointer's client
      position and the sticker's scale. */
  function BeginResize(e: Editor, id: int, client: Point): (r: Editor)
    ensures IndexOf(e.stickers, id).None? ==> r == e
    ensures IndexOf(e.stickers, id).Some? ==>
      var s := e.stickers[IndexOf(e.stickers, id).value];
      && r == e.(selectedId := Some(id), session := r.session)
      && SelectedIndex(r) == IndexOf(e.stickers, id)
      && r.session == Some(Resize(id, client, s.scale))
    ensures Valid(e) ==> Valid(r)
  {
    match IndexOf(e.stickers, id)
    case None => e
    case Some(i) =>
      Store.Select(e, id).(session := Some(Resize(id, client, e.stickers[i].scale)))
  }

  /** `startRotate`: select the sticker and remember its on-screen centre,
      the pivot the pointer's angle is measured about, and its rotation. */
  function BeginRotate(e: Editor, id: int, rect: Rect): (r: Editor)
    ensures IndexOf(e.stickers, id).None? ==> r == e
    ensures IndexOf(e.stickers, id).Some? ==>
      var s := e.stickers[IndexOf(e.stickers, id).value];
      && r == e.(selectedId := Some(id), session := r.session)
      && SelectedIndex(r) == IndexOf(e.stickers, id)
      && r.session.Some? && r.session.value.Rotate? && r.session.value.id == id
      && r.session.value.startRotate == s.rotate
      && r.session.value.pivot
         == Point(rect.left + Centre(ScreenBox(s, e.zoom)).x, rect.top + Centre(ScreenBox(s, e.zoom)).y)
    ensures Valid(e) ==> Valid(r)
  {
    match IndexOf(e.stickers, id)
    case None => e
    case Some(i) =>
      var s := e.stickers[i];
      RotatePivotIsBoxCentre(s, e.zoom, rect);
      Store.Select(e, id).(session := Some(Rotate(id, RotatePivot(s, e.zoom, rect), s.rotate)))
  }

  /** The sticker `s` after a move event under session `sess`: a drag puts
      it at its start position plus the pointer's canvas displacement in
      millimetres, a resize applies the resize rule to the client
      displacement, a rotate applies the rotate rule to the turn. Each
      gesture touches only its own fields. */
  function MovedSticker(s: Sticker, sess: Session, m: Pointer, zoom: real): (t: Sticker)
    requires zoom != 0.0
    ensures sess.Drag? ==>
      && t == s.(xMm := t.xMm, yMm := t.yMm)
      && (t.xMm - sess.startXMm) * MmToPx * zoom == m.client.x - m.rect.left - sess.startCanvas.x * zoom
      && (t.yMm - sess.startYMm) * MmToPx * zoom == m.client.y - m.rect.top - sess.startCanvas.y * zoom
    ensures sess.Resize? ==>
      t == s.(scale := ResizedScale(sess.startScale, m.client.x - sess.startClient.x,
                                    m.client.y - sess.startClient.y, m.distance))
    ensures sess.Rotate? ==> t == s.(rotate := RotatedAngle(sess.startRotate, m.turnDeg, m.shift))
  {
    match sess
    case Drag(_, start, startX, startY) =>
      var pos := ClientToCanvas(m.client, m.rect, zoom);
      DragOffset(pos.x, start.x, m.client.x, m.rect.left, zoom);
      DragOffset(pos.y, start.y, m.client.y, m.rect.top, zoom);
      s.(xMm := startX + (pos.x - start.x) / MmToPx, yMm := startY + (pos.y - start.y) / MmToPx)
    case Resize(_, start, startScale) =>
      s.(scale := ResizedScale(startScale, m.client.x - start.x, m.client.y - start.y, m.distance))
    case Rotate(_, _, startRotate) =>
      s.(rotate := RotatedAngle(startRotate, m.turnDeg, m.shift))
  }

  /** A canvas-pixel offset converted to millimetres and scaled back by the
      screen density is the client offset less the scaled start point. */
  lemma DragOffset(pos: real, start: real, client: real, corner: real, zoom: real)
    requires zoom != 0.0 && pos * zoom + corner == client
    ensures ((pos - start) / MmToPx) * MmToPx * zoom == client - corner - start * zoom
  {
    assert ((pos - start) / MmToPx) * MmToPx == pos - start;
  }

  /** `onMouseMove`: with no session, nothing happens; otherwise only the
      session's sticker changes, and only in the fields its gesture owns —
      position for a drag, scale (never below 0.1) for a resize, rotation for
      a rotate. A session whose sticker has since been deleted changes nothing. */
  function Move(e: Editor, m: Pointer): (r: Editor)
    requires e.zoom != 0.0
    ensures e.session.None? ==> r == e
    ensures r == e.(stickers := r.stickers)
    ensures SameIds(e.stickers, r.stickers)
    ensures e.session.Some? ==>
      forall j :: 0 <= j < |e.stickers| && IndexOf(e.stickers, e.session.value.id) != Some(j) ==>
        r.stickers[j] == e.stickers[j]
    ensures e.session.Some? && IndexOf(e.stickers, e.session.value.id).Some? ==>
      var i := IndexOf(e.stickers, e.session.value.id).value;
      var s := e.stickers[i];
      var t := r.stickers[i];
      && (e.session.value.Drag? ==> t == s.(xMm := t.xMm, yMm := t.yMm))
      && (e.session.value.Drag? ==>
            var sess := e.session.value;
            && (t.xMm - sess.startXMm) * MmToPx * e.zoom == m.client.x - m.rect.left - sess.startCanvas.x * e.zoom
            && (t.yMm - sess.startYMm) * MmToPx * e.zoom == m.client.y - m.rect.top - sess.startCanvas.y * e.zoom)
      && (e.session.value.Resize? ==> t == s.(scale := t.scale) && t.scale >= MinScale)
      && (e.session.value.Resize? ==>
            var sess := e.session.value;
            t.scale == ResizedScale(sess.startScale, m.client.x - sess.startClient.x,
                                    m.client.y - sess.startClient.y, m.distance))
      && (e.session.value.Rotate? ==> t == s.(rotate := t.rotate) && (m.shift ==> t.rotate % SnapDegrees == 0))
      && (e.session.value.Rotate? ==>
            t.rotate == RotatedAngle(e.session.value.startRotate, m.turnDeg, m.shift))
    ensures Valid(e) ==> Valid(r)
    ensures SelectedIndex(r) == SelectedIndex(e)
    ensures forall x :: Absent(e.stickers, x) ==> Absent(r.stickers, x)
    ensures ScalesFloored(e.stickers) ==> ScalesFloored(r.stickers)
  {
    match e.session
    case None => e
    case Some(sess) =>
      match IndexOf(e.stickers, sess.id)
      case None => e
      case Some(i) =>
        var t := MovedSticker(e.stickers[i], sess, m, e.zoom);
        Store.UpdateAtKeeps(e, i, t);
        Store.UpdateAt(e, i, t)
  }

  /** `onMouseUp` / `touchend`: the session ends. */
  function End(e: Editor): (r: Editor)
    ensures r.session.None? && r == e.(session := None)
  {
    e.(session := None)
  }

  /** Once released, further pointer moves change nothing. */
  lemma MoveAfterEndChangesNothing(e: Editor, m: Pointer)
    requires e.zoom != 0.0
    ensures Move(End(e), m) == End(e)
  {
  }

  /** Every move recomputes from the session's snapshot, so only the latest
      pointer position matters: the path the pointer took does not. */
  lemma MoveLatestWins(e: Editor, m1: Pointer, m2: Pointer)
    requires e.zoom != 0.0
    ensures Move(Move(e, m1), m2) == Move(e, m2)
  {
    var e1 := Move(e, m1);
    if e.session.Some? && IndexOf(e.stickers, e.session.value.id).Some? {
      var i := IndexOf(e.stickers, e.session.value.id).value;
      SameIdsIndexOf(e.stickers, e1.stickers, e.session.value.id);
      assert IndexOf(e1.stickers, e.session.value.id) == Some(i);
      assert MovedSticker(e1.stickers[i], e.session.value, m2, e.zoom)
          == MovedSticker(e.stickers[i], e.session.value, m2, e.zoom);
      assert Move(e1, m2).stickers == Move(e, m2).stickers;
    } else if e.session.Some? {
      SameIdsIndexOf(e.stickers, e1.stickers, e.session.value.id);
    }
  }

  /** Division by the zoom distributes over a difference of client positions. */
  lemma DragDelta(client: real, start: real, corner: real, zoom: real)
    requires zoom != 0.0
    ensures ((client - corner) / zoom - (start - corner) / zoom) / MmToPx == (client - start) / (zoom * MmToPx)
  {
    assert (client - corner) / zoom - (start - corner) / zoom == (client - start) / zoom;
  }

  /** A drag moves the sticker by the pointer's client displacement converted
      to millimetres at the current zoom, and changes nothing else about it,
      as long as the container has not moved and the zoom has not changed. */
  lemma DragFollowsPointer(e: Editor, id: int, start: Point, m: Pointer)
    requires e.zoom != 0.0
    requires IndexOf(e.stickers, id).Some?
    ensures var i := IndexOf(e.stickers, id).value;
      var s := e.stickers[i];
      var t := Move(BeginDrag(e, id, start, m.rect), m).stickers[i];
      && t.xMm == s.xMm + (m.client.x - start.x) / (e.zoom * MmToPx)
      && t.yMm == s.yMm + (m.client.y - start.y) / (e.zoom * MmToPx)
      && t.(xMm := s.xMm, yMm := s.yMm) == s
  {
    var b := BeginDrag(e, id, start, m.rect);
    assert IndexOf(b.stickers, id) == IndexOf(e.stickers, id);
    DragDelta(m.client.x, start.x, m.rect.left, e.zoom);
    DragDelta(m.client.y, start.y, m.rect.top, e.zoom);
  }

  /** A resize gesture sets the sticker's scale by the resize rule from the
      scale it had at the press and the pointer's travel since the press,
      and changes nothing else about it. */
  lemma ResizeFollowsPointer(e: Editor, id: int, start: Point, m: Pointer)
    requires e.zoom != 0.0
    requires IndexOf(e.stickers, id).Some?
    ensures var i := IndexOf(e.stickers, id).value;
      var s := e.stickers[i];
      Move(BeginResize(e, id, start), m).stickers[i]
        == s.(scale := ResizedScale(s.scale, m.client.x - start.x, m.client.y - start.y, m.distance))
  {
    var b := BeginResize(e, id, start);
    assert IndexOf(b.stickers, id) == IndexOf(e.stickers, id);
  }

  /** A rotate gesture sets the sticker's rotation by the rotate rule from
      the rotation it had at the press and the pointer's turn since the
      press, and changes nothing else about it. */
  lemma RotateFollowsTurn(e: Editor, id: int, rect: Rect, m: Pointer)
    requires e.zoom != 0.0
    requires IndexOf(e.stickers, id).Some?
    ensures var i := IndexOf(e.stickers, id).value;
      var s := e.stickers[i];
      Move(BeginRotate(e, id, rect), m).stickers[i]
        == s.(rotate := RotatedAngle(s.rotate, m.turnDeg, m.shift))
  {
    var b := BeginRotate(e, id, rect);
    assert IndexOf(b.stickers, id) == IndexOf(e.stickers, id);
  }

  /** Dragging a corner 3 px left and 4 px up (5 px of travel) from scale 1
      shrinks the sticker by 5/150, to 29/30. */
  lemma ResizeShrinkExample()
    ensures ResizedScale(1.0, -3.0, -4.0, 5.0) == 29.0 / 30.0
  {
    assert Sign(-7.0) == -1;
  }

  /** A drag whose pointer has not moved leaves every sticker where it was. */
  lemma DragWithoutMovement(e: Editor, id: int, start: Point, m: Pointer)
    requires e.zoom != 0.0
    requires IndexOf(e.stickers, id).Some? && m.client == start
    ensures Move(BeginDrag(e, id, start, m.rect), m).stickers == e.stickers
  {
    var i := IndexOf(e.stickers, id).value;
    DragFollowsPointer(e, id, start, m);
    var r := Move(BeginDrag(e, id, start, m.rect), m);
    assert r.stickers[i] == e.stickers[i];
  }
}
