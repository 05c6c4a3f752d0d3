/**
 The overlay elements the demo keeps in its `children` list: for every
 detection a highlighter box followed by a label, placed by the per-frame
 path, and moved again by the resize path when the viewport changes.

 The resize path reads each element's retained source box from its
 data-orig-* attributes with parseFloat, so numbers here may be NaN.
 */
module Overlay {
  import opened Geometry
  import opened Text

  /** A JavaScript number as far as the overlay needs it: a finite value or NaN. */
  datatype Num = Finite(value: real) | NaN

  function Plus(a: Num, b: Num): (r: Num)
    ensures r.Finite? <==> a.Finite? && b.Finite?
    ensures r.Finite? ==> r.value == a.value + b.value
  {
    if a.Finite? && b.Finite? then Finite(a.value + b.value) else NaN
  }

  function Minus(a: Num, b: Num): (r: Num)
    ensures r.Finite? <==> a.Finite? && b.Finite?
    ensures r.Finite? ==> r.value == a.value - b.value
  {
    if a.Finite? && b.Finite? then Finite(a.value - b.value) else NaN
  }

  function Times(a: Num, s: real): (r: Num)
    ensures r.Finite? <==> a.Finite?
    ensures r.Finite? ==> r.value == a.value * s
  {
    if a.Finite? then Finite(a.value * s) else NaN
  }

  function Half(a: Num): (r: Num)
    ensures r.Finite? <==> a.Finite?
    ensures r.Finite? ==> r.value + r.value == a.value
  {
    if a.Finite? then Finite(a.value / 2.0) else NaN
  }

  // ---------------------------------------------------------------------------
  // Retained source box (data-orig-* attributes)

  type Dataset = map<string, real>

  const OrigX: string := "origX"
  const OrigY: string := "origY"
  const OrigWidth: string := "origWidth"
  const OrigHeight: string := "origHeight"

  predicate HasSource(d: Dataset)
  {
    OrigX in d && OrigY in d && OrigWidth in d && OrigHeight in d
  }

  function ReadSource(d: Dataset): Box
    requires HasSource(d)
  {
    Box(d[OrigX], d[OrigY], d[OrigWidth], d[OrigHeight])
  }

  /** The attributes that retain a detection's box for the resize path. */
  function SourceData(b: Box): (d: Dataset)
    ensures HasSource(d) && ReadSource(d) == b
  {
    map[OrigX := b.originX, OrigY := b.originY, OrigWidth := b.width, OrigHeight := b.height]
  }

  /** parseFloat(child.dataset[key]): an attribute that was never set reads as NaN. */
  function ParseFloat(d: Dataset, key: string): (n: Num)
    ensures n.Finite? <==> key in d
    ensures key in d ==> n.value == d[key]
  {
    if key in d then Finite(d[key]) else NaN
  }

  // ---------------------------------------------------------------------------
  // Detections and elements

  datatype Category = Category(categoryName: string, score: real)

  /** One detected object: its box in video pixels and its ranked categories. */
  datatype Detection = Detection(boundingBox: Box, categories: seq<Category>)

  /** Every detection has a first category (the program reads categories[0]). */
  predicate WellFormed(ds: seq<Detection>)
  {
    forall i :: 0 <= i < |ds| ==> |ds[i].categories| > 0
  }

  /** A highlighter `div` or a detection-label `p`, with its style positions. */
  datatype Element =
    | Highlighter(personHighlight: bool, left: Num, top: Num, width: Num, height: Num, dataset: Dataset)
    | Label(name: string, percent: int, left: Num, top: Num, dataset: Dataset)

  /** The element's `className` attribute. */
  function ClassName(e: Element): (c: string)
    ensures e.Highlighter? ==> (c == "highlighter" <==> !e.personHighlight)
    ensures e.Label? <==> c == "detection-label"
  {
    match e
    case Highlighter(person, _, _, _, _, _) =>
      if person then "highlighter person-highlight" else "highlighter"
    case Label(_, _, _, _, _) => "detection-label"
  }

  /** The highlighter of one detection, placed by the per-frame path. */
  function HighlighterFor(v: MainView, d: Detection, dataset: Dataset): (e: Element)
    requires MainReady(v) && |d.categories| > 0
    ensures e.Highlighter? && e.dataset == dataset
    ensures e.personHighlight <==> ToLower(d.categories[0].categoryName) == "person"
    ensures e.left.Finite? && e.top.Finite? && e.width.Finite? && e.height.Finite?
    ensures Rect(e.left.value, e.top.value, e.width.value, e.height.value) == MainRect(v, d.boundingBox)
  {
    var r := MainRect(v, d.boundingBox);
    Highlighter(IsPerson(d.categories[0].categoryName),
                Finite(r.left), Finite(r.top), Finite(r.width), Finite(r.height), dataset)
  }

  /** The label of one detection, anchored at the centre of its highlighter. */
  function LabelFor(v: MainView, d: Detection, dataset: Dataset): (e: Element)
    requires MainReady(v) && |d.categories| > 0
    ensures e.Label? && e.dataset == dataset
    ensures e.name == ToUpper(d.categories[0].categoryName) && e.percent == Percent(d.categories[0].score)
    ensures e.left.Finite? && e.top.Finite?
    ensures Point(e.left.value, e.top.value) == Centre(MainRect(v, d.boundingBox))
  {
    var c := d.categories[0];
    var p := MainAnchor(v, d.boundingBox);
    Label(ToUpper(c.categoryName), Percent(c.score), Finite(p.x), Finite(p.y), dataset)
  }

  /**
   A highlighter followed by its label: both share one retained box, the label
   sits at the centre of the highlighter, and the highlighter is a person
   highlighter exactly when the label names a person.
   */
  predicate Paired(h: Element, l: Element)
  {
    && h.Highlighter? && l.Label?
    && HasSource(h.dataset) && l.dataset == h.dataset
    && h.left.Finite? && h.top.Finite? && h.width.Finite? && h.height.Finite?
    && l.left.Finite? && l.top.Finite?
    && Point(l.left.value, l.top.value) == Centre(Rect(h.left.value, h.top.value, h.width.value, h.height.value))
    && (h.personHighlight <==> IsPerson(l.name))
  }

  predicate PairAt(s: seq<Element>, k: int)
    requires 0 <= k && 2 * k + 1 < |s|
  {
    Paired(s[2 * k], s[2 * k + 1])
  }

  /** The overlay list is a sequence of highlighter/label pairs. */
  predicate WellPaired(s: seq<Element>)
  {
    |s| % 2 == 0 && forall k :: 0 <= k < |s| / 2 ==> PairAt(s, k)
  }

  // ---------------------------------------------------------------------------
  // The per-frame path over a whole detection result

  /**
   The elements pushed for a detection result, in detection order; each
   element retains the detection's box only when `retainSource` holds.
   */
  function Render(v: MainView, ds: seq<Detection>, retainSource: bool): (s: seq<Element>)
    requires MainReady(v) && WellFormed(ds)
    ensures |s| == 2 * |ds|
    decreases |ds|
  {
    if ds == [] then []
    else
      var d := ds[|ds| - 1];
      var dataset := if retainSource then SourceData(d.boundingBox) else map[];
      Render(v, ds[..|ds| - 1], retainSource) + [HighlighterFor(v, d, dataset), LabelFor(v, d, dataset)]
  }

  /** Element 2k is detection k's highlighter and element 2k + 1 its label. */
  lemma {:induction false} RenderAt(v: MainView, ds: seq<Detection>, retainSource: bool, k: nat)
    requires MainReady(v) && WellFormed(ds) && k < |ds|
    ensures var s := Render(v, ds, retainSource);
            var dataset := if retainSource then SourceData(ds[k].boundingBox) else map[];
            s[2 * k] == HighlighterFor(v, ds[k], dataset) && s[2 * k + 1] == LabelFor(v, ds[k], dataset)
  {
    if k < |ds| - 1 {
      var prefix := ds[..|ds| - 1];
      RenderAt(v, prefix, retainSource, k);
      assert prefix[k] == ds[k];
    }
  }

  /** The overlays of a detection result, each retaining its source box. */
  function Overlays(v: MainView, ds: seq<Detection>): (s: seq<Element>)
    requires MainReady(v) && WellFormed(ds)
    ensures |s| == 2 * |ds| && WellPaired(s)
    ensures forall k :: 0 <= k < |ds| ==>
              HasSource(s[2 * k].dataset) && ReadSource(s[2 * k].dataset) == ds[k].boundingBox
  {
    var s := Render(v, ds, true);
    forall k | 0 <= k < |ds|
      ensures PairAt(s, k) && HasSource(s[2 * k].dataset) && ReadSource(s[2 * k].dataset) == ds[k].boundingBox
    {
      RenderAt(v, ds, true, k);
      PersonIgnoresCase(ds[k].categories[0].categoryName);
    }
    s
  }

  /** The overlays as the program writes them: no data-orig-* attribute is set. */
  function OverlaysAsWritten(v: MainView, ds: seq<Detection>): (s: seq<Element>)
    requires MainReady(v) && WellFormed(ds)
    ensures |s| == 2 * |ds|
    ensures forall i :: 0 <= i < |s| ==> s[i].dataset == map[]
  {
    var s := Render(v, ds, false);
    forall i | 0 <= i < |s|
      ensures s[i].dataset == map[]
    {
      RenderAt(v, ds, false, i / 2);
    }
    s
  }

  // ---------------------------------------------------------------------------
  // The resize path over the elements

  /** The mirrored left edge of the retained box on the resize path. */
  function ScaledLeft(v: ResizeView, e: Element): Num
    requires ResizeReady(v)
  {
    var p := ResizePlacement(v);
    Plus(Times(Minus(Minus(Finite(v.videoWidth), ParseFloat(e.dataset, OrigX)),
                     ParseFloat(e.dataset, OrigWidth)), p.scaleX),
         Finite(p.offsetX))
  }

  function ScaledTop(v: ResizeView, e: Element): Num
    requires ResizeReady(v)
  {
    var p := ResizePlacement(v);
    Plus(Times(ParseFloat(e.dataset, OrigY), p.scaleY), Finite(p.offsetY))
  }

  /**
   Assigning `${n}px` to a style length. The style setter ignores a value
   that is not a length, such as "NaNpx", so a NaN keeps the current value.
   */
  function SetLength(current: Num, n: Num): Num
  {
    if n.Finite? then n else current
  }

  function MoveHighlighter(v: ResizeView, e: Element): Element
    requires ResizeReady(v) && e.Highlighter?
  {
    var p := ResizePlacement(v);
    e.(left := SetLength(e.left, ScaledLeft(v, e)),
       top := SetLength(e.top, ScaledTop(v, e)),
       width := SetLength(e.width, Times(ParseFloat(e.dataset, OrigWidth), p.scaleX)),
       height := SetLength(e.height, Times(ParseFloat(e.dataset, OrigHeight), p.scaleY)))
  }

  function MoveLabel(v: ResizeView, e: Element): Element
    requires ResizeReady(v) && e.Label?
  {
    var p := ResizePlacement(v);
    e.(left := SetLength(e.left, Plus(ScaledLeft(v, e), Half(Times(ParseFloat(e.dataset, OrigWidth), p.scaleX)))),
       top := SetLength(e.top, Plus(ScaledTop(v, e), Half(Times(ParseFloat(e.dataset, OrigHeight), p.scaleY)))))
  }

  /**
   Moves one element to the resize path's placement of its retained box
   (see MovedToResizeRect). Only the style positions change.
   */
  function Reposition(v: ResizeView, e: Element): (r: Element)
    requires ResizeReady(v)
    ensures r.Highlighter? == e.Highlighter? && r.dataset == e.dataset
    ensures r.Highlighter? ==> r.personHighlight == e.personHighlight
    ensures r.Label? ==> r.name == e.name && r.percent == e.percent
  {
    match e
    case Highlighter(_, _, _, _, _, _) => MoveHighlighter(v, e)
    case Label(_, _, _, _, _) => MoveLabel(v, e)
  }

  /**
   An element that retains its box moves to the resize path's placement of
   that box: a highlighter to the resize rectangle, a label to its centre.
   */
  lemma MovedToResizeRect(v: ResizeView, e: Element)
    requires ResizeReady(v) && HasSource(e.dataset)
    ensures var r := Reposition(v, e);
            var b := ReadSource(e.dataset);
            && r.left.Finite? && r.top.Finite?
            && (r.Highlighter? ==>
                  && r.width.Finite? && r.height.Finite?
                  && Rect(r.left.value, r.top.value, r.width.value, r.height.value) == ResizeRect(v, b))
            && (r.Label? ==> Point(r.left.value, r.top.value) == ResizeAnchor(v, b))
  {
    ScaledFromSource(v, e);
    if e.Highlighter? {
      HighlighterFromSource(v, e);
    } else {
      LabelFromSource(v, e);
    }
  }

  lemma ScaledFromSource(v: ResizeView, e: Element)
    requires ResizeReady(v) && HasSource(e.dataset)
    ensures var b := ReadSource(e.dataset);
            var p := ResizePlacement(v);
            && ScaledLeft(v, e) == Finite((v.videoWidth - b.originX - b.width) * p.scaleX + p.offsetX)
            && ScaledTop(v, e) == Finite(b.originY * p.scaleY + p.offsetY)
  {
  }

  lemma HighlighterFromSource(v: ResizeView, e: Element)
    requires ResizeReady(v) && HasSource(e.dataset) && e.Highlighter?
    requires var b := ReadSource(e.dataset);
             var p := ResizePlacement(v);
             && ScaledLeft(v, e) == Finite((v.videoWidth - b.originX - b.width) * p.scaleX + p.offsetX)
             && ScaledTop(v, e) == Finite(b.originY * p.scaleY + p.offsetY)
    ensures var r := MoveHighlighter(v, e);
            && r.left.Finite? && r.top.Finite? && r.width.Finite? && r.height.Finite?
            && Rect(r.left.value, r.top.value, r.width.value, r.height.value) == ResizeRect(v, ReadSource(e.dataset))
  {
  }

  lemma LabelFromSource(v: ResizeView, e: Element)
    requires ResizeReady(v) && HasSource(e.dataset) && e.Label?
    requires var b := ReadSource(e.dataset);
             var p := ResizePlacement(v);
             && ScaledLeft(v, e) == Finite((v.videoWidth - b.originX - b.width) * p.scaleX + p.offsetX)
             && ScaledTop(v, e) == Finite(b.originY * p.scaleY + p.offsetY)
    ensures var r := MoveLabel(v, e);
            && r.left.Finite? && r.top.Finite?
            && Point(r.left.value, r.top.value) == ResizeAnchor(v, ReadSource(e.dataset))
  {
  }

  /**
   An element with no retained box: the positions computed for it are NaN,
   the style setter drops them, and the element stays as it was.
   */
  lemma MovedWithoutSource(v: ResizeView, e: Element)
    requires ResizeReady(v) && e.dataset == map[]
    ensures ScaledLeft(v, e) == NaN && ScaledTop(v, e) == NaN
    ensures Reposition(v, e) == e
  {
    assert ParseFloat(e.dataset, OrigX) == NaN && ParseFloat(e.dataset, OrigY) == NaN;
    assert ParseFloat(e.dataset, OrigWidth) == NaN && ParseFloat(e.dataset, OrigHeight) == NaN;
  }

  /**
   The program's dispatch on `className === "highlighter"`: a person
   highlighter, whose class list also holds person-highlight, is left where
   it was; every other element moves as Reposition says.
   */
  function RepositionAsWritten(v: ResizeView, e: Element): (r: Element)
    requires ResizeReady(v)
    ensures e.Highlighter? && e.personHighlight ==> r == e
    ensures !(e.Highlighter? && e.personHighlight) ==> r == Reposition(v, e)
  {
    if ClassName(e) == "highlighter" then MoveHighlighter(v, e)
    else if ClassName(e) == "detection-label" then MoveLabel(v, e)
    else e
  }

  function RepositionAll(v: ResizeView, s: seq<Element>): seq<Element>
    requires ResizeReady(v)
  {
    seq(|s|, i requires 0 <= i < |s| => Reposition(v, s[i]))
  }

  /** Moving a pair keeps it a pair: the label stays at its highlighter's centre. */
  lemma RepositionPair(v: ResizeView, h: Element, l: Element)
    requires ResizeReady(v) && Paired(h, l)
    ensures Paired(Reposition(v, h), Reposition(v, l))
  {
    MovedToResizeRect(v, h);
    MovedToResizeRect(v, l);
  }

  /** The resize path keeps the overlay list a list of highlighter/label pairs. */
  lemma RepositionKeepsPairs(v: ResizeView, s: seq<Element>)
    requires ResizeReady(v) && WellPaired(s)
    ensures WellPaired(RepositionAll(v, s))
  {
    var t := RepositionAll(v, s);
    forall k | 0 <= k < |t| / 2
      ensures PairAt(t, k)
    {
      assert PairAt(s, k);
      RepositionPair(v, s[2 * k], s[2 * k + 1]);
    }
  }

  /** Resizing twice to the same viewport is the same as resizing once. */
  lemma RepositionIdempotent(v: ResizeView, s: seq<Element>)
    requires ResizeReady(v)
    ensures RepositionAll(v, RepositionAll(v, s)) == RepositionAll(v, s)
  {
    var once := RepositionAll(v, s);
    forall i | 0 <= i < |s|
      ensures Reposition(v, once[i]) == once[i]
    {
      var e := s[i];
      if e.Highlighter? {
        assert once[i] == MoveHighlighter(v, e);
      } else {
        assert once[i] == MoveLabel(v, e);
      }
    }
  }

  /**
   After the per-frame path drew a detection result and the viewport changed,
   detection k's highlighter sits at the resize rectangle of its own box and
   its label at that rectangle's centre.
   */
  lemma RepositionPlacesBoxes(mv: MainView, rv: ResizeView, ds: seq<Detection>, k: nat)
    requires MainReady(mv) && ResizeReady(rv) && WellFormed(ds) && k < |ds|
    ensures var t := RepositionAll(rv, Overlays(mv, ds));
            var r := ResizeRect(rv, ds[k].boundingBox);
            var c := Centre(r);
            && |t| == 2 * |ds|
            && t[2 * k].Highlighter?
            && t[2 * k].left == Finite(r.left) && t[2 * k].top == Finite(r.top)
            && t[2 * k].width == Finite(r.width) && t[2 * k].height == Finite(r.height)
            && t[2 * k + 1].Label?
            && t[2 * k + 1].left == Finite(c.x) && t[2 * k + 1].top == Finite(c.y)
  {
    var s := Overlays(mv, ds);
    assert PairAt(s, k);
    MovedToResizeRect(rv, s[2 * k]);
    MovedToResizeRect(rv, s[2 * k + 1]);
  }

  /**
   The program as written: the elements carry no retained box, so every
   position the resize path computes is NaN, the style setter drops it, and
   after a resize every overlay is still where the per-frame path drew it.
   */
  lemma AsWrittenResizeMovesNothing(mv: MainView, rv: ResizeView, ds: seq<Detection>, i: nat)
    requires MainReady(mv) && ResizeReady(rv) && WellFormed(ds) && i < 2 * |ds|
    ensures var s := OverlaysAsWritten(mv, ds);
            RepositionAsWritten(rv, s[i]) == s[i]
  {
    var s := OverlaysAsWritten(mv, ds);
    if !(s[i].Highlighter? && s[i].personHighlight) {
      MovedWithoutSource(rv, s[i]);
    }
  }

  /**
   A person detection whose box is retained: the program's className test
   skips its highlighter on resize, so as soon as the resize path places the
   box elsewhere, its label leaves the highlighter's centre.
   */
  lemma PersonHighlighterLeftBehind(mv: MainView, rv: ResizeView, ds: seq<Detection>, k: nat)
    requires MainReady(mv) && ResizeReady(rv) && WellFormed(ds) && k < |ds|
    requires IsPerson(ds[k].categories[0].categoryName)
    requires Centre(MainRect(mv, ds[k].boundingBox)) != Centre(ResizeRect(rv, ds[k].boundingBox))
    ensures var s := Overlays(mv, ds);
            && PairAt(s, k)
            && !Paired(RepositionAsWritten(rv, s[2 * k]), RepositionAsWritten(rv, s[2 * k + 1]))
  {
    var s := Overlays(mv, ds);
    var b := ds[k].boundingBox;
    RenderAt(mv, ds, true, k);
    assert PairAt(s, k);
    var h := RepositionAsWritten(rv, s[2 * k]);
    assert h == s[2 * k];
    var l := RepositionAsWritten(rv, s[2 * k + 1]);
    MovedToResizeRect(rv, s[2 * k + 1]);
    assert Point(l.left.value, l.top.value) == Centre(ResizeRect(rv, b));
    assert Centre(Rect(h.left.value, h.top.value, h.width.value, h.height.value)) == Centre(MainRect(mv, b));
  }

  /**
   An input for which PersonHighlighterLeftBehind applies: a person box at the
   top-left of a 100 x 100 video, drawn at 100 x 100 and then resized to 200 x 200.
   */
  lemma PersonHighlighterExample(mv: MainView, rv: ResizeView, b: Box)
    requires mv == MainView(100.0, 100.0, 100.0, 100.0, 0.0, 0.0)
    requires rv == ResizeView(100.0, 100.0, 200.0, 200.0)
    requires b == Box(0.0, 0.0, 10.0, 10.0)
    ensures Centre(MainRect(mv, b)) == Point(95.0, 5.0)
    ensures Centre(ResizeRect(rv, b)) == Point(190.0, 10.0)
  {
    ExampleMainRect(mv, b);
    ExampleResizeRect(rv, b);
  }

  lemma ExampleMainRect(mv: MainView, b: Box)
    requires mv == MainView(100.0, 100.0, 100.0, 100.0, 0.0, 0.0) && b == Box(0.0, 0.0, 10.0, 10.0)
    ensures MainRect(mv, b) == Rect(90.0, 0.0, 10.0, 10.0)
    ensures Centre(MainRect(mv, b)) == Point(95.0, 5.0)
  {
    assert MainScaleX(mv) == 1.0 && MainScaleY(mv) == 1.0;
    var r := MainRect(mv, b);
    assert r == Rect(90.0, 0.0, 10.0, 10.0);
  }

  lemma ExampleResizeRect(rv: ResizeView, b: Box)
    requires rv == ResizeView(100.0, 100.0, 200.0, 200.0) && b == Box(0.0, 0.0, 10.0, 10.0)
    ensures ResizeRect(rv, b) == Rect(180.0, 0.0, 20.0, 20.0)
    ensures Centre(ResizeRect(rv, b)) == Point(190.0, 10.0)
  {
    var p := ResizePlacement(rv);
    assert !Letterboxed(rv);
    assert p == Placement(2.0, 2.0, 0.0, 0.0) by {
      assert p.scaleX * 100.0 == 200.0 && p.scaleY * 100.0 == 200.0;
    }
    var r := ResizeRect(rv, b);
    assert r == Rect(180.0, 0.0, 20.0, 20.0);
  }
}
