/** Export planning: the output image's size at the chosen resolution, the
    order stickers are drawn in (ascending stacking key, ties in store
    order — JavaScript's `Array.prototype.sort` is stable), and each draw's
    geometry. A sticker whose image fails to load is skipped. */
module Export {
  import opened Units
  import opened State
  import opened Geometry

  /** Keys never decrease along `ss`. */
  ghost predicate SortedByZ(ss: seq<Sticker>) {
    forall i, j :: 0 <= i < j < |ss| ==> ss[i].zIndex <= ss[j].zIndex
  }

  /** The stickers of `ss` with key `k`, in order. */
  function WithKey(ss: seq<Sticker>, k: int): seq<Sticker> {
    if |ss| == 0 then []
    else (if ss[0].zIndex == k then [ss[0]] else []) + WithKey(ss[1..], k)
  }

  /** Insert `s` into a sorted sequence ahead of every element whose key is
      at least its own. */
  function Insert(s: Sticker, ss: seq<Sticker>): (r: seq<Sticker>)
    requires SortedByZ(ss)
    ensures SortedByZ(r)
    ensures multiset(r) == multiset(ss) + multiset{s}
    ensures |r| == |ss| + 1
    ensures r[0] == s || (|ss| > 0 && r[0] == ss[0])
  {
    if |ss| == 0 || s.zIndex <= ss[0].zIndex then [s] + ss
    else
      var rest := Insert(s, ss[1..]);
      assert ss == [ss[0]] + ss[1..];
      [ss[0]] + rest
  }

  /** The draw order: `[...stickers].sort((a, b) => a.zIndex - b.zIndex)`,
      as an insertion sort. The result is in ascending key order and is a
      permutation of the store. */
  function SortByZ(ss: seq<Sticker>): (r: seq<Sticker>)
    ensures SortedByZ(r)
    ensures multiset(r) == multiset(ss)
    ensures |r| == |ss|
  {
    if |ss| == 0 then []
    else
      assert ss == [ss[0]] + ss[1..];
      Insert(ss[0], SortByZ(ss[1..]))
  }

  /** Inserting `s` adds it in front of the elements with its key and leaves
      the order among each key's elements alone. */
  lemma {:induction false} InsertKeepsTies(s: Sticker, ss: seq<Sticker>, k: int)
    requires SortedByZ(ss)
    ensures WithKey(Insert(s, ss), k) == (if s.zIndex == k then [s] else []) + WithKey(ss, k)
    decreases |ss|
  {
    if |ss| == 0 || s.zIndex <= ss[0].zIndex {
      assert Insert(s, ss) == [s] + ss;
      WithKeyCons(s, ss, k);
    } else {
      var rest := Insert(s, ss[1..]);
      InsertKeepsTies(s, ss[1..], k);
      assert Insert(s, ss) == [ss[0]] + rest;
      WithKeyCons(ss[0], rest, k);
    }
  }

  lemma WithKeyCons(x: Sticker, t: seq<Sticker>, k: int)
    ensures WithKey([x] + t, k) == (if x.zIndex == k then [x] else []) + WithKey(t, k)
  {
    assert ([x] + t)[1..] == t;
  }

  /** The sort is stable: for every key, the stickers carrying it are drawn
      in the order they have in the store. */
  lemma {:induction false} SortIsStable(ss: seq<Sticker>, k: int)
    ensures WithKey(SortByZ(ss), k) == WithKey(ss, k)
    decreases |ss|
  {
    if |ss| > 0 {
      SortIsStable(ss[1..], k);
      InsertKeepsTies(ss[0], SortByZ(ss[1..]), k);
    }
  }

  /** The stickers of `ss` whose image loads, in order. */
  function Loaded(ss: seq<Sticker>, broken: set<string>): (r: seq<Sticker>)
    ensures forall i :: 0 <= i < |r| ==> r[i].src !in broken
    ensures |r| <= |ss|
  {
    if |ss| == 0 then []
    else (if ss[0].src in broken then [] else [ss[0]]) + Loaded(ss[1..], broken)
  }

  /** Skipping stickers keeps an ascending order ascending. */
  lemma {:induction false} LoadedKeepsOrder(ss: seq<Sticker>, broken: set<string>)
    requires SortedByZ(ss)
    ensures SortedByZ(Loaded(ss, broken))
    ensures forall i :: 0 <= i < |Loaded(ss, broken)| ==> Loaded(ss, broken)[i] in ss
    decreases |ss|
  {
    if |ss| > 0 {
      LoadedKeepsOrder(ss[1..], broken);
      var rest := Loaded(ss[1..], broken);
      forall i | 0 <= i < |rest|
        ensures rest[i] in ss && ss[0].zIndex <= rest[i].zIndex
      {
        assert rest[i] in ss[1..];
      }
    }
  }

  /** How many copies of `x` survive the skip depends only on how many the
      input holds, so it does not depend on the input's order. */
  lemma {:induction false} LoadedCount(ss: seq<Sticker>, broken: set<string>, x: Sticker)
    ensures multiset(Loaded(ss, broken))[x] == if x.src in broken then 0 else multiset(ss)[x]
    decreases |ss|
  {
    if |ss| > 0 {
      LoadedCount(ss[1..], broken, x);
      var head := if ss[0].src in broken then [] else [ss[0]];
      assert Loaded(ss, broken) == head + Loaded(ss[1..], broken);
      assert multiset(Loaded(ss, broken)) == multiset(head) + multiset(Loaded(ss[1..], broken));
      assert ss == [ss[0]] + ss[1..];
      assert multiset(ss) == multiset{ss[0]} + multiset(ss[1..]);
    }
  }

  /** Skipping the same images from two permutations of a store leaves two permutations. */
  lemma LoadedPermutation(a: seq<Sticker>, b: seq<Sticker>, broken: set<string>)
    requires multiset(a) == multiset(b)
    ensures multiset(Loaded(a, broken)) == multiset(Loaded(b, broken))
  {
    forall x
      ensures multiset(Loaded(a, broken))[x] == multiset(Loaded(b, broken))[x]
    {
      LoadedCount(a, broken, x);
      LoadedCount(b, broken, x);
    }
  }

  /** Everything `exportPNG` computes before it rasterises: the image size,
      the stickers drawn in order, and each one's draw. */
  datatype Plan = Plan(width: int, height: int, layers: seq<Sticker>, draws: seq<Draw>)

  /** One draw per layer, in the same order, each at the layer's exact placement. */
  function Draws(layers: seq<Sticker>, ppm: real): (ds: seq<Draw>)
    ensures |ds| == |layers|
    ensures forall i :: 0 <= i < |layers| ==> ds[i] == ExportDraw(layers[i], ppm)
    ensures forall i :: 0 <= i < |layers| ==>
      && ds[i].centre == Centre(Placement(layers[i], ppm))
      && ds[i].width == Placement(layers[i], ppm).width
      && ds[i].height == Placement(layers[i], ppm).height
      && ds[i].id == layers[i].id
  {
    if |layers| == 0 then [] else [ExportDraw(layers[0], ppm)] + Draws(layers[1..], ppm)
  }

  /** The stickers `exportPNG` draws, in the order it draws them: the store
      sorted by key, without those whose image fails to load. Each loading
      sticker is drawn exactly once, and keys never decrease. */
  function DrawOrder(ss: seq<Sticker>, broken: set<string>): (layers: seq<Sticker>)
    ensures SortedByZ(layers)
    ensures multiset(layers) == multiset(Loaded(ss, broken))
    ensures forall i :: 0 <= i < |layers| ==> layers[i] in ss && layers[i].src !in broken
    ensures broken == {} ==> multiset(layers) == multiset(ss)
  {
    var sorted := SortByZ(ss);
    var layers := Loaded(sorted, broken);
    LoadedKeepsOrder(sorted, broken);
    LoadedPermutation(sorted, ss, broken);
    InSorted(ss, layers);
    assert broken == {} ==> Loaded(ss, broken) == ss by {
      if broken == {} {
        LoadedNothingBroken(ss);
      }
    }
    layers
  }

  lemma InSorted(ss: seq<Sticker>, layers: seq<Sticker>)
    requires forall i :: 0 <= i < |layers| ==> layers[i] in SortByZ(ss)
    ensures forall i :: 0 <= i < |layers| ==> layers[i] in ss
  {
    forall i | 0 <= i < |layers|
      ensures layers[i] in ss
    {
      assert layers[i] in multiset(SortByZ(ss));
    }
  }

  /** Export at `dpi` when the images named in `broken` fail to load: the
      image is the canvas at `dpi / 25.4` pixels per millimetre, and each
      sticker in the draw order is drawn at its exact placement at that density. */
  function ExportPlan(e: Editor, dpi: int, broken: set<string>): (p: Plan)
    ensures p.width == ExportPx(e.canvasW, dpi) && p.height == ExportPx(e.canvasH, dpi)
    ensures p.layers == DrawOrder(e.stickers, broken)
    ensures |p.draws| == |p.layers|
    ensures forall i :: 0 <= i < |p.layers| ==>
      && p.draws[i].centre == Centre(Placement(p.layers[i], ExportPxPerMm(dpi)))
      && p.draws[i].width == Placement(p.layers[i], ExportPxPerMm(dpi)).width
      && p.draws[i].height == Placement(p.layers[i], ExportPxPerMm(dpi)).height
      && p.draws[i].id == p.layers[i].id
    ensures forall i :: 0 <= i < |p.layers| ==>
      && p.draws[i].src == p.layers[i].src
      && p.draws[i].angleDeg == p.layers[i].rotate
      && p.draws[i].alpha == p.layers[i].opacity
      && (p.draws[i].mirrorX == -1 <==> p.layers[i].flipH)
      && (p.draws[i].mirrorY == -1 <==> p.layers[i].flipV)
      && p.draws[i].mirrorX in {-1, 1} && p.draws[i].mirrorY in {-1, 1}
  {
    var layers := DrawOrder(e.stickers, broken);
    var w, h := ExportPx(e.canvasW, dpi), ExportPx(e.canvasH, dpi);
    var draws := Draws(layers, ExportPxPerMm(dpi));
    Plan(w, h, layers, draws)
  }

  lemma {:induction false} LoadedNothingBroken(ss: seq<Sticker>)
    ensures Loaded(ss, {}) == ss
    decreases |ss|
  {
    if |ss| > 0 {
      LoadedNothingBroken(ss[1..]);
      assert [ss[0]] + ss[1..] == ss;
    }
  }

  /** With every image loading, the draw order is exactly the stable sort of the store. */
  lemma ExportDrawsStableOrder(e: Editor, dpi: int, k: int)
    ensures WithKey(ExportPlan(e, dpi, {}).layers, k) == WithKey(e.stickers, k)
  {
    LoadedNothingBroken(SortByZ(e.stickers));
    assert ExportPlan(e, dpi, {}).layers == SortByZ(e.stickers);
    SortIsStable(e.stickers, k);
  }

  /** A 100 mm square canvas exported at 300 dpi is 1181 pixels square. */
  lemma ExportSizeExample(e: Editor)
    requires e.canvasW == 100 && e.canvasH == 100
    ensures ExportPlan(e, 300, {}).width == 1181 && ExportPlan(e, 300, {}).height == 1181
  {
    ExportPxAt300Dpi();
  }
}
