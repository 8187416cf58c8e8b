/** The sticker store: creation with default placement, duplication,
    deletion, clearing, selection, stacking order, arrow-key nudges and the
    side-panel edits. Every operation that acts on "the selection" looks the
    sticker up the way `getSelected` does and is a no-op when it finds none. */
module Store {
  import opened Optional
  import opened Units
  import opened State

  /** Width, in millimetres, of a freshly added sticker. */
  const DefaultWidthMm: real := 60.0
  /** How far, in millimetres on each axis, a duplicate is offset from its original. */
  const DuplicateOffsetMm: real := 8.0

  /** `createStickerData`: the record for an image of `naturalW` x `naturalH`
      source pixels, 60 mm wide, keeping the image's aspect ratio, centred on
      the canvas, with the next id and a stacking key equal to the number of
      stickers already placed. */
  function NewSticker(e: Editor, src: string, naturalW: int, naturalH: int): (s: Sticker)
    requires naturalW > 0
    ensures s.id == e.nextId && s.src == src
    ensures s.naturalW == naturalW && s.naturalH == naturalH
    ensures s.wMm == DefaultWidthMm
    ensures s.hMm * naturalW as real == s.wMm * naturalH as real
    ensures s.xMm + s.wMm / 2.0 == e.canvasW as real / 2.0
    ensures s.yMm + s.hMm / 2.0 == e.canvasH as real / 2.0
    ensures s.scale == 1.0 && s.rotate == 0 && s.opacity == 1.0
    ensures !s.flipH && !s.flipV
    ensures s.zIndex == |e.stickers|
  {
    var hMm := DefaultWidthMm * (naturalH as real / naturalW as real);
    Sticker(e.nextId, src, naturalW, naturalH,
            (e.canvasW as real - DefaultWidthMm) / 2.0, (e.canvasH as real - hMm) / 2.0,
            DefaultWidthMm, hMm, 1.0, 0, 1.0, false, false, |e.stickers|)
  }

  /** `addStickerFromData`: append a record and select it. */
  function AddSticker(e: Editor, s: Sticker): Editor {
    e.(stickers := e.stickers + [s], selectedId := Some(s.id))
  }

  /** An image finished loading: create its record (advancing the id
      counter) and add it. The new sticker goes on the end of the store and
      becomes the selection; nothing already in the store changes. */
  function CreateSticker(e: Editor, src: string, naturalW: int, naturalH: int): (r: Editor)
    requires naturalW > 0
    ensures |r.stickers| == |e.stickers| + 1
    ensures r.stickers[..|e.stickers|] == e.stickers
    ensures r.stickers[|e.stickers|] == NewSticker(e, src, naturalW, naturalH)
    ensures r.nextId == e.nextId + 1
    ensures r.selectedId == Some(e.nextId)
    ensures r == e.(stickers := r.stickers, selectedId := r.selectedId, nextId := r.nextId)
    ensures Valid(e) ==> Valid(r) && SelectedIndex(r) == Some(|e.stickers|)
    ensures forall x :: x < e.nextId && Absent(e.stickers, x) ==> Absent(r.stickers, x)
    ensures ScalesFloored(e.stickers) ==> ScalesFloored(r.stickers)
  {
    var s := NewSticker(e, src, naturalW, naturalH);
    var r := AddSticker(e.(nextId := e.nextId + 1), s);
    assert r.stickers[..|e.stickers|] == e.stickers;
    assert Valid(e) ==> Valid(r) by {
      if Valid(e) {
        AppendFresh(e.stickers, s, e.nextId);
      }
    }
    r
  }

  /** `selectSticker`: make `id` the selection. Selecting a sticker that is
      in the store makes `getSelected` find it. */
  function Select(e: Editor, id: int): (r: Editor)
    ensures r.stickers == e.stickers && r.selectedId == Some(id)
    ensures r == e.(selectedId := Some(id))
    ensures IndexOf(e.stickers, id).Some? ==> SelectedIndex(r) == IndexOf(e.stickers, id)
    ensures Valid(e) && IndexOf(e.stickers, id).Some? ==> Valid(r)
  {
    e.(selectedId := Some(id))
  }

  /** `deselectAll`: nothing is selected afterwards. */
  function Deselect(e: Editor): (r: Editor)
    ensures r.selectedId == None && SelectedIndex(r).None?
    ensures r == e.(selectedId := None)
    ensures Valid(e) ==> Valid(r)
  {
    e.(selectedId := None)
  }

  /** The duplicate button (and Ctrl+D): append a copy of the selected
      sticker with a fresh id, offset by 8 mm on both axes, with a stacking
      key equal to the number of stickers before the copy, and select it. */
  function Duplicate(e: Editor): (r: Editor)
    ensures SelectedIndex(e).None? ==> r == e
    ensures SelectedIndex(e).Some? ==>
      var orig := e.stickers[SelectedIndex(e).value];
      && |r.stickers| == |e.stickers| + 1
      && r.stickers[..|e.stickers|] == e.stickers
      && var copy := r.stickers[|e.stickers|];
      && copy.id == e.nextId
      && copy.xMm == orig.xMm + DuplicateOffsetMm
      && copy.yMm == orig.yMm + DuplicateOffsetMm
      && copy.zIndex == |e.stickers|
      && copy.(id := orig.id, xMm := orig.xMm, yMm := orig.yMm, zIndex := orig.zIndex) == orig
      && r.nextId == e.nextId + 1
      && r.selectedId == Some(copy.id)
      && r == e.(stickers := r.stickers, selectedId := r.selectedId, nextId := r.nextId)
    ensures Valid(e) ==> Valid(r)
    ensures forall x :: x < e.nextId && Absent(e.stickers, x) ==> Absent(r.stickers, x)
    ensures ScalesFloored(e.stickers) ==> ScalesFloored(r.stickers)
  {
    match SelectedIndex(e)
    case None => e
    case Some(i) =>
      var orig := e.stickers[i];
      var copy := orig.(id := e.nextId, xMm := orig.xMm + DuplicateOffsetMm,
                        yMm := orig.yMm + DuplicateOffsetMm, zIndex := |e.stickers|);
      var r := AddSticker(e.(nextId := e.nextId + 1), copy);
      assert r.stickers[..|e.stickers|] == e.stickers;
      assert r.stickers[|e.stickers|] == copy;
      assert Valid(e) ==> Valid(r) by {
        if Valid(e) {
          AppendFresh(e.stickers, copy, e.nextId);
        }
      }
      r
  }

  /** The stickers of `ss` whose id is not `id`, in their original order
      (`filter(d => d.id !== id)`). */
  function RemoveId(ss: seq<Sticker>, id: int): (r: seq<Sticker>)
    ensures Absent(r, id)
    ensures forall k :: 0 <= k < |r| ==> r[k] in ss
  {
    if |ss| == 0 then []
    else
      var rest := RemoveId(ss[1..], id);
      assert forall k :: 0 <= k < |rest| ==> rest[k] in ss by {
        forall k | 0 <= k < |rest|
          ensures rest[k] in ss
        {
          assert rest[k] in ss[1..];
        }
      }
      if ss[0].id == id then rest else [ss[0]] + rest
  }

  /** Filtering out an id that is absent changes nothing; when ids are
      distinct, filtering out a present id removes exactly the one entry
      `IndexOf` finds. */
  lemma RemoveIdExact(ss: seq<Sticker>, id: int)
    ensures IndexOf(ss, id).None? ==> RemoveId(ss, id) == ss
    ensures IdsUnique(ss) && IndexOf(ss, id).Some? ==>
      RemoveId(ss, id) == ss[..IndexOf(ss, id).value] + ss[IndexOf(ss, id).value + 1..]
  {
    if IndexOf(ss, id).None? {
      RemoveAbsent(ss, id);
    } else if IdsUnique(ss) {
      RemovePresent(ss, id);
    }
  }

  lemma {:induction false} RemoveAbsent(ss: seq<Sticker>, id: int)
    requires Absent(ss, id)
    ensures RemoveId(ss, id) == ss
    decreases |ss|
  {
    if |ss| > 0 {
      RemoveAbsent(ss[1..], id);
      assert [ss[0]] + ss[1..] == ss;
    }
  }

  lemma {:induction false} RemovePresent(ss: seq<Sticker>, id: int)
    requires IdsUnique(ss) && IndexOf(ss, id).Some?
    ensures RemoveId(ss, id) == ss[..IndexOf(ss, id).value] + ss[IndexOf(ss, id).value + 1..]
    decreases |ss|
  {
    var tail := ss[1..];
    UniqueTail(ss);
    if ss[0].id == id {
      assert Absent(tail, id);
      RemoveAbsent(tail, id);
      assert ss[..0] + ss[1..] == tail;
    } else {
      var m := IndexOf(tail, id).value;
      RemovePresent(tail, id);
      assert IndexOf(ss, id) == Some(m + 1);
      assert RemoveId(ss, id) == [ss[0]] + (tail[..m] + tail[m + 1..]);
      ConsSlices(ss, m);
    }
  }

  /** The tail of a store with distinct ids has distinct ids and lacks the head's id. */
  lemma UniqueTail(ss: seq<Sticker>)
    requires IdsUnique(ss) && |ss| > 0
    ensures IdsUnique(ss[1..]) && Absent(ss[1..], ss[0].id)
  {
    var tail := ss[1..];
    forall a, b | 0 <= a < b < |tail|
      ensures tail[a].id != tail[b].id
    {
      assert tail[a] == ss[a + 1] && tail[b] == ss[b + 1];
    }
    forall j | 0 <= j < |tail|
      ensures tail[j].id != ss[0].id
    {
      assert tail[j] == ss[j + 1];
    }
  }

  lemma ConsSlices(ss: seq<Sticker>, m: nat)
    requires m + 1 < |ss|
    ensures [ss[0]] + (ss[1..][..m] + ss[1..][m + 1..]) == ss[..m + 1] + ss[m + 2..]
  {
    assert ss[1..][..m] == ss[1..m + 1];
    assert ss[1..][m + 1..] == ss[m + 2..];
    assert [ss[0]] + ss[1..m + 1] == ss[..m + 1];
  }

  /** Removing one entry of a store with distinct ids keeps them distinct. */
  lemma RemoveAtKeepsUnique(ss: seq<Sticker>, i: nat)
    requires IdsUnique(ss) && i < |ss|
    ensures IdsUnique(ss[..i] + ss[i + 1..])
  {
    var t := ss[..i] + ss[i + 1..];
    forall a, b | 0 <= a < b < |t|
      ensures t[a].id != t[b].id
    {
      var a' := if a < i then a else a + 1;
      var b' := if b < i then b else b + 1;
      assert t[a] == ss[a'] && t[b] == ss[b'];
    }
  }

  /** Removing the sticker at `i` by its id keeps ids distinct, brings back
      no id that was absent, and keeps every scale that was floored. */
  lemma RemoveKeeps(ss: seq<Sticker>, i: nat)
    requires i < |ss|
    ensures IdsUnique(ss) ==> IdsUnique(RemoveId(ss, ss[i].id))
    ensures forall next :: IdsBelow(ss, next) ==> IdsBelow(RemoveId(ss, ss[i].id), next)
    ensures forall x :: Absent(ss, x) ==> Absent(RemoveId(ss, ss[i].id), x)
    ensures ScalesFloored(ss) ==> ScalesFloored(RemoveId(ss, ss[i].id))
  {
    if IdsUnique(ss) {
      RemoveKeepsUnique(ss, i);
    }
    RemoveTakesFrom(ss, ss[i].id);
  }

  lemma RemoveKeepsUnique(ss: seq<Sticker>, i: nat)
    requires i < |ss| && IdsUnique(ss)
    ensures IdsUnique(RemoveId(ss, ss[i].id))
  {
    assert IndexOf(ss, ss[i].id) == Some(i);
    RemoveIdExact(ss, ss[i].id);
    RemoveAtKeepsUnique(ss, i);
  }

  /** Every sticker left after a removal was in the store before it. */
  lemma RemoveTakesFrom(ss: seq<Sticker>, id: int)
    ensures forall k :: 0 <= k < |RemoveId(ss, id)| ==> exists j :: 0 <= j < |ss| && ss[j] == RemoveId(ss, id)[k]
  {
    var r := RemoveId(ss, id);
    forall k | 0 <= k < |r|
      ensures exists j :: 0 <= j < |ss| && ss[j] == r[k]
    {
      assert r[k] in ss;
    }
  }

  /** `deleteSelected`: remove the selected sticker and clear the selection;
      a no-op when nothing is selected. The other stickers keep their
      contents and their relative order. */
  function DeleteSelected(e: Editor): (r: Editor)
    ensures SelectedIndex(e).None? ==> r == e
    ensures SelectedIndex(e).Some? ==>
      var i := SelectedIndex(e).value;
      && r.selectedId.None?
      && Absent(r.stickers, e.stickers[i].id)
      && (IdsUnique(e.stickers) ==> r.stickers == e.stickers[..i] + e.stickers[i + 1..])
      && r == e.(stickers := r.stickers, selectedId := None)
    ensures Valid(e) ==> Valid(r)
    ensures forall x :: Absent(e.stickers, x) ==> Absent(r.stickers, x)
    ensures ScalesFloored(e.stickers) ==> ScalesFloored(r.stickers)
  {
    match SelectedIndex(e)
    case None => e
    case Some(i) =>
      var r := e.(stickers := RemoveId(e.stickers, e.stickers[i].id), selectedId := None);
      RemoveKeeps(e.stickers, i);
      RemoveIdExact(e.stickers, e.stickers[i].id);
      r
  }

  /** The clear button, after the user confirms: every sticker goes and
      nothing is selected; the id counter is untouched, so ids are never
      handed out twice. */
  function Clear(e: Editor, confirmed: bool): (r: Editor)
    ensures !confirmed ==> r == e
    ensures confirmed ==> r.stickers == [] && r.selectedId.None? && r.nextId == e.nextId
    ensures confirmed ==> r == e.(stickers := [], selectedId := None)
    ensures Valid(e) ==> Valid(r)
  {
    if confirmed then e.(stickers := [], selectedId := None) else e
  }

  /** `Math.max(...keys)`: the largest stacking key in a non-empty store. */
  function MaxZ(ss: seq<Sticker>): (m: int)
    requires |ss| > 0
    ensures forall j :: 0 <= j < |ss| ==> ss[j].zIndex <= m
    ensures exists j :: 0 <= j < |ss| && ss[j].zIndex == m
  {
    if |ss| == 1 then ss[0].zIndex
    else
      var rest := MaxZ(ss[1..]);
      assert exists j :: 1 <= j < |ss| && ss[j].zIndex == rest by {
        var j :| 0 <= j < |ss| - 1 && ss[1..][j].zIndex == rest;
        assert ss[j + 1].zIndex == rest;
      }
      if ss[0].zIndex < rest then rest else ss[0].zIndex
  }

  /** `Math.min(...keys)`: the smallest stacking key in a non-empty store. */
  function MinZ(ss: seq<Sticker>): (m: int)
    requires |ss| > 0
    ensures forall j :: 0 <= j < |ss| ==> m <= ss[j].zIndex
    ensures exists j :: 0 <= j < |ss| && ss[j].zIndex == m
  {
    if |ss| == 1 then ss[0].zIndex
    else
      var rest := MinZ(ss[1..]);
      assert exists j :: 1 <= j < |ss| && ss[j].zIndex == rest by {
        var j :| 0 <= j < |ss| - 1 && ss[1..][j].zIndex == rest;
        assert ss[j + 1].zIndex == rest;
      }
      if rest < ss[0].zIndex then rest else ss[0].zIndex
  }

  /** Replace the sticker at `i` by `s`. */
  function UpdateAt(e: Editor, i: nat, s: Sticker): Editor
    requires i < |e.stickers|
  {
    e.(stickers := e.stickers[i := s])
  }

  /** Replacing a sticker by one with the same id keeps the store's invariants. */
  lemma UpdateAtKeeps(e: Editor, i: nat, s: Sticker)
    requires i < |e.stickers| && s.id == e.stickers[i].id
    ensures SameIds(e.stickers, UpdateAt(e, i, s).stickers)
    ensures Valid(e) ==> Valid(UpdateAt(e, i, s))
    ensures forall x :: Absent(e.stickers, x) ==> Absent(UpdateAt(e, i, s).stickers, x)
    ensures SelectedIndex(UpdateAt(e, i, s)) == SelectedIndex(e)
    ensures ScalesFloored(e.stickers) && s.scale >= MinScale ==> ScalesFloored(UpdateAt(e, i, s).stickers)
  {
    SameIdsKeep(e.stickers, UpdateAt(e, i, s).stickers, e.nextId);
  }

  /** Bring-to-front: the selected sticker's key becomes one more than the
      largest key in the store, so it is strictly above every other sticker;
      nothing else changes. */
  function BringToFront(e: Editor): (r: Editor)
    ensures SelectedIndex(e).None? ==> r == e
    ensures SelectedIndex(e).Some? ==>
      var i := SelectedIndex(e).value;
      && |r.stickers| == |e.stickers|
      && r.stickers[i] == e.stickers[i].(zIndex := MaxZ(e.stickers) + 1)
      && r.stickers[i].zIndex > e.stickers[i].zIndex
      && (forall j :: 0 <= j < |e.stickers| && j != i ==> r.stickers[j] == e.stickers[j])
      && (forall j :: 0 <= j < |e.stickers| && j != i ==> r.stickers[j].zIndex < r.stickers[i].zIndex)
      && r == e.(stickers := r.stickers)
    ensures Valid(e) ==> Valid(r)
    ensures forall x :: Absent(e.stickers, x) ==> Absent(r.stickers, x)
    ensures ScalesFloored(e.stickers) ==> ScalesFloored(r.stickers)
  {
    match SelectedIndex(e)
    case None => e
    case Some(i) =>
      var s := e.stickers[i].(zIndex := MaxZ(e.stickers) + 1);
      UpdateAtKeeps(e, i, s);
      UpdateAt(e, i, s)
  }

  /** Send-to-back: the selected sticker's key becomes one less than the
      smallest key in the store, so it is strictly below every other
      sticker; nothing else changes. */
  function SendToBack(e: Editor): (r: Editor)
    ensures SelectedIndex(e).None? ==> r == e
    ensures SelectedIndex(e).Some? ==>
      var i := SelectedIndex(e).value;
      && |r.stickers| == |e.stickers|
      && r.stickers[i] == e.stickers[i].(zIndex := MinZ(e.stickers) - 1)
      && r.stickers[i].zIndex < e.stickers[i].zIndex
      && (forall j :: 0 <= j < |e.stickers| && j != i ==> r.stickers[j] == e.stickers[j])
      && (forall j :: 0 <= j < |e.stickers| && j != i ==> r.stickers[i].zIndex < r.stickers[j].zIndex)
      && r == e.(stickers := r.stickers)
    ensures Valid(e) ==> Valid(r)
    ensures forall x :: Absent(e.stickers, x) ==> Absent(r.stickers, x)
    ensures ScalesFloored(e.stickers) ==> ScalesFloored(r.stickers)
  {
    match SelectedIndex(e)
    case None => e
    case Some(i) =>
      var s := e.stickers[i].(zIndex := MinZ(e.stickers) - 1);
      UpdateAtKeeps(e, i, s);
      UpdateAt(e, i, s)
  }

  datatype Direction = Up | Down | Left | Right

  /** Millimetres one arrow-key press moves the selection: 10 with Shift, else 1. */
  function NudgeStep(shift: bool): real {
    if shift then 10.0 else 1.0
  }

  /** Arrow-key nudge: the selected sticker moves by one step in the key's
      direction (y grows downwards), along that one axis only. */
  function Nudge(e: Editor, dir: Direction, shift: bool): (r: Editor)
    ensures SelectedIndex(e).None? ==> r == e
    ensures SelectedIndex(e).Some? ==>
      var i := SelectedIndex(e).value;
      var s := e.stickers[i];
      && |r.stickers| == |e.stickers|
      && var t := r.stickers[i];
      && t.(xMm := s.xMm, yMm := s.yMm) == s
      && Abs(t.xMm - s.xMm) + Abs(t.yMm - s.yMm) == NudgeStep(shift)
      && (dir == Up ==> t.yMm < s.yMm)
      && (dir == Down ==> t.yMm > s.yMm)
      && (dir == Left ==> t.xMm < s.xMm)
      && (dir == Right ==> t.xMm > s.xMm)
      && (dir == Up || dir == Down ==> t.xMm == s.xMm)
      && (dir == Left || dir == Right ==> t.yMm == s.yMm)
      && (forall j :: 0 <= j < |e.stickers| && j != i ==> r.stickers[j] == e.stickers[j])
      && r == e.(stickers := r.stickers)
    ensures Valid(e) ==> Valid(r)
    ensures SelectedIndex(r) == SelectedIndex(e)
    ensures forall x :: Absent(e.stickers, x) ==> Absent(r.stickers, x)
    ensures ScalesFloored(e.stickers) ==> ScalesFloored(r.stickers)
  {
    match SelectedIndex(e)
    case None => e
    case Some(i) =>
      var s := e.stickers[i];
      var step := NudgeStep(shift);
      var t := match dir
        case Up => s.(yMm := s.yMm - step)
        case Down => s.(yMm := s.yMm + step)
        case Left => s.(xMm := s.xMm - step)
        case Right => s.(xMm := s.xMm + step);
      UpdateAtKeeps(e, i, t);
      UpdateAt(e, i, t)
  }

  function Opposite(dir: Direction): Direction {
    match dir
    case Up => Down
    case Down => Up
    case Left => Right
    case Right => Left
  }

  /** A nudge followed by a nudge of the same size the opposite way puts the
      editor back exactly where it was. */
  lemma NudgeUndoes(e: Editor, dir: Direction, shift: bool)
    ensures Nudge(Nudge(e, dir, shift), Opposite(dir), shift) == e
  {
    var m := Nudge(e, dir, shift);
    if SelectedIndex(e).Some? {
      var i := SelectedIndex(e).value;
      var back := Nudge(m, Opposite(dir), shift);
      assert back.stickers[i] == e.stickers[i];
      assert back.stickers == e.stickers;
    }
  }

  /** The side-panel controls: scale and opacity sliders (in percent), the
      rotation slider (in degrees) and the two mirror check-boxes. */
  datatype PanelEdit =
    | SetScale(percent: int)
    | SetRotate(degrees: int)
    | SetOpacity(percent: int)
    | SetFlipH(on: bool)
    | SetFlipV(on: bool)

  /** A side-panel edit changes the one field it controls on the selected
      sticker; a no-op when nothing is selected. */
  function ApplyPanelEdit(e: Editor, edit: PanelEdit): (r: Editor)
    ensures SelectedIndex(e).None? ==> r == e
    ensures SelectedIndex(e).Some? ==>
      var i := SelectedIndex(e).value;
      var s := e.stickers[i];
      && |r.stickers| == |e.stickers|
      && var t := r.stickers[i];
      && (forall j :: 0 <= j < |e.stickers| && j != i ==> r.stickers[j] == e.stickers[j])
      && (edit.SetScale? ==> t == s.(scale := t.scale) && t.scale * 100.0 == edit.percent as real)
      && (edit.SetRotate? ==> t == s.(rotate := edit.degrees))
      && (edit.SetOpacity? ==> t == s.(opacity := t.opacity) && t.opacity * 100.0 == edit.percent as real)
      && (edit.SetFlipH? ==> t == s.(flipH := edit.on))
      && (edit.SetFlipV? ==> t == s.(flipV := edit.on))
      && r == e.(stickers := r.stickers)
    ensures Valid(e) ==> Valid(r)
    ensures forall x :: Absent(e.stickers, x) ==> Absent(r.stickers, x)
    ensures ScalesFloored(e.stickers) && !(edit.SetScale? && edit.percent < 10) ==> ScalesFloored(r.stickers)
  {
    match SelectedIndex(e)
    case None => e
    case Some(i) =>
      var s := e.stickers[i];
      var t := match edit
        case SetScale(p) => s.(scale := p as real / 100.0)
        case SetRotate(d) => s.(rotate := d)
        case SetOpacity(p) => s.(opacity := p as real / 100.0)
        case SetFlipH(on) => s.(flipH := on)
        case SetFlipV(on) => s.(flipV := on);
      UpdateAtKeeps(e, i, t);
      UpdateAt(e, i, t)
  }
}
