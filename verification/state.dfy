/** The editor's state: the canvas configuration, the zoom, the sticker
    records, the selection, the id counter and the gesture in progress. */
module State {
  import opened Optional
  import opened Units

  /** Smallest scale multiplier a resize gesture can produce. */
  const MinScale: real := 0.1

  /** One placed image. Position and nominal size are in millimetres from the
      canvas's top-left corner; `scale` multiplies the nominal size; `rotate`
      is in whole degrees; `zIndex` orders the stack (only relative order
      matters, keys need not be contiguous). */
  datatype Sticker = Sticker(
    id: int,
    src: string,
    naturalW: int,
    naturalH: int,
    xMm: real,
    yMm: real,
    wMm: real,
    hMm: real,
    scale: real,
    rotate: int,
    opacity: real,
    flipH: bool,
    flipV: bool,
    zIndex: int)

  /** A point in client (window) pixels or in canvas pixels. */
  datatype Point = Point(x: real, y: real)

  /** The top-left corner of the sticker container's client rectangle. */
  datatype Rect = Rect(left: real, top: real)

  /** The gesture in progress, with the snapshot taken when it started. */
  datatype Session =
    | Drag(id: int, startCanvas: Point, startXMm: real, startYMm: real)
    | Resize(id: int, startClient: Point, startScale: real)
    | Rotate(id: int, pivot: Point, startRotate: int)

  datatype Editor = Editor(
    canvasW: int,
    canvasH: int,
    zoom: real,
    stickers: seq<Sticker>,
    selectedId: Option<int>,
    nextId: int,
    session: Option<Session>)

  /** The state the page starts in. */
  const Initial: Editor := Editor(DefaultCanvasW, DefaultCanvasH, 1.0, [], None, 1, None)

  /** The position of the first sticker carrying `id`, as `Array.find` meets it. */
  function IndexOf(ss: seq<Sticker>, id: int): (r: Option<nat>)
    ensures r.Some? ==> r.value < |ss| && ss[r.value].id == id
    ensures r.Some? ==> forall j :: 0 <= j < r.value ==> ss[j].id != id
    ensures r.None? ==> forall j :: 0 <= j < |ss| ==> ss[j].id != id
  {
    if |ss| == 0 then None
    else if ss[0].id == id then Some(0)
    else
      match IndexOf(ss[1..], id)
      case None => None
      case Some(k) => Some(k + 1)
  }

  /** `getSelected`: where the selected sticker sits in the store, if there is one. */
  function SelectedIndex(e: Editor): (r: Option<nat>)
    ensures r.Some? ==> r.value < |e.stickers| && e.selectedId == Some(e.stickers[r.value].id)
    ensures r.None? && e.selectedId.Some? ==> forall j :: 0 <= j < |e.stickers| ==> e.stickers[j].id != e.selectedId.value
  {
    match e.selectedId
    case None => None
    case Some(id) => IndexOf(e.stickers, id)
  }

  /** No two stickers share an id. */
  ghost predicate IdsUnique(ss: seq<Sticker>) {
    forall i, j :: 0 <= i < j < |ss| ==> ss[i].id != ss[j].id
  }

  /** Every id was handed out before `next`. */
  ghost predicate IdsBelow(ss: seq<Sticker>, next: int) {
    forall i :: 0 <= i < |ss| ==> ss[i].id < next
  }

  /** `id` names no sticker of `ss`. */
  ghost predicate Absent(ss: seq<Sticker>, id: int) {
    forall i :: 0 <= i < |ss| ==> ss[i].id != id
  }

  /** Every sticker's scale is at least the resize floor. */
  ghost predicate ScalesFloored(ss: seq<Sticker>) {
    forall i :: 0 <= i < |ss| ==> ss[i].scale >= MinScale
  }

  /** What the editor keeps true between events: the zoom and the canvas
      size are within their clamps, ids are distinct and below the counter,
      and the selection is empty or names a sticker in the store. */
  ghost predicate Valid(e: Editor) {
    && MinZoom <= e.zoom <= MaxZoom
    && e.canvasW >= MinCanvasMm
    && e.canvasH >= MinCanvasMm
    && IdsUnique(e.stickers)
    && IdsBelow(e.stickers, e.nextId)
    && (e.selectedId.Some? ==> IndexOf(e.stickers, e.selectedId.value).Some?)
  }

  /** Two stores hold the same ids at the same positions. */
  ghost predicate SameIds(a: seq<Sticker>, b: seq<Sticker>) {
    |a| == |b| && forall i :: 0 <= i < |a| ==> a[i].id == b[i].id
  }

  lemma InitialIsValid()
    ensures Valid(Initial) && ScalesFloored(Initial.stickers)
  {
  }

  /** Replacing stickers by ones with the same ids keeps uniqueness, the bound and lookups. */
  lemma SameIdsKeep(a: seq<Sticker>, b: seq<Sticker>, next: int)
    requires SameIds(a, b)
    ensures IdsUnique(a) ==> IdsUnique(b)
    ensures IdsBelow(a, next) ==> IdsBelow(b, next)
    ensures forall id :: Absent(a, id) ==> Absent(b, id)
    ensures forall id :: IndexOf(a, id) == IndexOf(b, id)
  {
    forall id
      ensures IndexOf(a, id) == IndexOf(b, id)
    {
      SameIdsIndexOf(a, b, id);
    }
  }

  lemma {:induction false} SameIdsIndexOf(a: seq<Sticker>, b: seq<Sticker>, id: int)
    requires SameIds(a, b)
    ensures IndexOf(a, id) == IndexOf(b, id)
    decreases |a|
  {
    if |a| > 0 && a[0].id != id {
      SameIdsIndexOf(a[1..], b[1..], id);
    }
  }

  lemma {:induction false} AppendAbsentIndex(ss: seq<Sticker>, s: Sticker)
    requires Absent(ss, s.id)
    ensures IndexOf(ss + [s], s.id) == Some(|ss|)
    decreases |ss|
  {
    if |ss| > 0 {
      assert (ss + [s])[1..] == ss[1..] + [s];
      AppendAbsentIndex(ss[1..], s);
    }
  }

  /** Appending a sticker that carries the counter's value, and advancing the
      counter, keeps ids distinct and below the counter. */
  lemma AppendFresh(ss: seq<Sticker>, s: Sticker, next: int)
    requires IdsUnique(ss) && IdsBelow(ss, next) && s.id == next
    ensures IdsUnique(ss + [s]) && IdsBelow(ss + [s], next + 1)
    ensures IndexOf(ss + [s], s.id) == Some(|ss|)
  {
    var t := ss + [s];
    assert forall j :: 0 <= j < |ss| ==> t[j] == ss[j];
    assert t[|ss|] == s;
    assert Absent(ss, s.id);
    AppendAbsentIndex(ss, s);
  }
}
