/**
 Wheel zoom and drag pan of the charts (frontend/src/components/chartShared.ts), over reals.
 */
module Chart {

  const MIN_ZOOM: real := 10.0

  function Min(a: real, b: real): real { if a < b then a else b }

  function Max(a: real, b: real): real { if a < b then b else a }

  function Clamp(val: real, lo: real, hi: real): real { Max(lo, Min(hi, val)) }

  /** The visible part of the time axis, or the extent of the data. */
  datatype Span = Span(min: real, max: real) {
    function Width(): real { max - min }
  }

  /** dataBounds: never empty, even without or with a single point. */
  function DataBounds(xs: seq<real>): (b: Span)
    ensures b.Width() > 0.0
    ensures xs == [] ==> b == Span(0.0, 1.0)
    ensures xs != [] ==> b.min == xs[0] && b.max == if xs[0] < xs[|xs| - 1] then xs[|xs| - 1] else xs[0] + 1.0
  {
    if xs == [] then Span(0.0, 1.0)
    else if xs[|xs| - 1] > xs[0] then Span(xs[0], xs[|xs| - 1])
    else Span(xs[0], xs[0] + 1.0)
  }

  predicate IsFullRange(b: Span, view: Span) { view.Width() >= b.Width() - b.Width() * 0.001 }

  /** Everything is shown as soon as 99.9% of it is. */
  lemma {:induction false} FullRangeExactly(b: Span, view: Span)
    ensures IsFullRange(b, view) <==> 1000.0 * view.Width() >= 999.0 * b.Width()
  {}

  predicate Inside(view: Span, b: Span) { b.min <= view.min && view.max <= b.max }

  /** One notch of the wheel with the mouse at `ratio` of the plot width. */
  function Wheel(b: Span, view: Span, ratio: real, out: bool): Span {
    var factor := if out then 1.25 else 0.8;
    var width := Clamp(view.Width() * factor, Min(MIN_ZOOM, b.Width()), b.Width());
    var anchor := view.min + ratio * view.Width();
    var min := Clamp(anchor - ratio * width, b.min, b.max - width);
    Span(min, min + width)
  }

  /** Whatever the view and the mouse, the new view lies in the data and has a legal width. */
  lemma {:induction false} WheelStaysInside(b: Span, view: Span, ratio: real, out: bool)
    requires b.Width() > 0.0
    ensures var v := Wheel(b, view, ratio, out);
      Inside(v, b) && Min(MIN_ZOOM, b.Width()) <= v.Width() <= b.Width()
  {}

  /** A notch inwards shows 4/5 of the view, outwards 5/4, as far as the limits allow. */
  lemma {:induction false} WheelZooms(b: Span, view: Span, ratio: real, out: bool)
    requires b.Width() > 0.0
    ensures var v := Wheel(b, view, ratio, out);
      var want := if out then view.Width() * 5.0 / 4.0 else view.Width() * 4.0 / 5.0;
      && (v.Width() == want <==> Min(10.0, b.Width()) <= want <= b.Width())
      && (want < Min(10.0, b.Width()) ==> v.Width() == Min(10.0, b.Width()))
      && (want > b.Width() ==> v == b)
      && (!out && Min(10.0, b.Width()) < view.Width() <= b.Width() ==> v.Width() < view.Width())
  {}

  /** The point under the mouse stays put exactly when the edge of the data is not in the way. */
  lemma {:induction false} WheelKeepsAnchor(b: Span, view: Span, ratio: real, out: bool)
    requires b.Width() > 0.0
    ensures var v := Wheel(b, view, ratio, out);
      var anchor := view.min + ratio * view.Width();
      v.min + ratio * v.Width() == anchor <==>
        b.min <= anchor - ratio * v.Width() && anchor - ratio * v.Width() <= b.max - v.Width()
  {}

  /** n notches outwards, the mouse wherever it is at each. */
  function ZoomOut(b: Span, view: Span, ratios: seq<real>): Span {
    if ratios == [] then view
    else Wheel(b, ZoomOut(b, view, ratios[..|ratios| - 1]), ratios[|ratios| - 1], true)
  }

  lemma {:induction false} WheelWidth(b: Span, view: Span, ratio: real)
    ensures Wheel(b, view, ratio, true).Width()
         == Clamp(view.Width() * 1.25, Min(MIN_ZOOM, b.Width()), b.Width())
  {}

  lemma {:induction false} OneNotch(least: real, full: real, width: real, n: nat)
    requires 0.0 < least <= full && width >= 0.0
    requires n > 0 ==> width >= Min(full, least * (0.75 + 0.25 * n as real))
    ensures Clamp(width * 1.25, least, full) >= Min(full, least * (0.75 + 0.25 * (n + 1) as real))
  {
    if n > 0 {
      var grown := least * (0.75 + 0.25 * n as real);
      assert least * n as real >= least;
      assert grown * 1.25 >= grown + 0.25 * least;
      assert grown + 0.25 * least == least * (0.75 + 0.25 * (n + 1) as real);
    }
  }

  lemma {:induction false} WidthGrows(b: Span, view: Span, ratios: seq<real>)
    requires b.Width() > 0.0 && view.Width() >= 0.0
    ensures ZoomOut(b, view, ratios).Width() >= 0.0
    ensures ratios != [] ==>
      ZoomOut(b, view, ratios).Width() >= Min(b.Width(), Min(MIN_ZOOM, b.Width()) * (0.75 + 0.25 * |ratios| as real))
  {
    if ratios != [] {
      var init := ratios[..|ratios| - 1];
      WidthGrows(b, view, init);
      WheelWidth(b, ZoomOut(b, view, init), ratios[|ratios| - 1]);
      OneNotch(Min(MIN_ZOOM, b.Width()), b.Width(), ZoomOut(b, view, init).Width(), |init|);
    }
  }

  /** Enough notches outwards always show everything, so live tracking resumes. */
  lemma {:induction false} ZoomOutResumesLive(b: Span, view: Span, ratios: seq<real>)
    requires b.Width() > 0.0 && view.Width() >= 0.0
    requires |ratios| as real * Min(MIN_ZOOM, b.Width()) >= 4.0 * b.Width()
    ensures ZoomOut(b, view, ratios).Width() >= b.Width()
    ensures IsFullRange(b, ZoomOut(b, view, ratios))
  {
    WidthGrows(b, view, ratios);
    var least := Min(MIN_ZOOM, b.Width());
    assert least * (0.75 + 0.25 * |ratios| as real) == 0.75 * least + 0.25 * (|ratios| as real * least);
  }

  /** Dragging the mouse by `moved` plot widths, from the view at the start of the drag. */
  function Drag(b: Span, start: Span, moved: real): Span {
    var shift := -moved * start.Width();
    var min := Clamp(start.min + shift, b.min, b.max - start.Width());
    Span(min, min + start.Width())
  }

  /** A drag keeps the width; it stays inside the data exactly when the view is not wider. */
  lemma {:induction false} DragStaysInside(b: Span, start: Span, moved: real)
    ensures Drag(b, start, moved).Width() == start.Width()
    ensures Inside(Drag(b, start, moved), b) <==> start.Width() <= b.Width()
  {}

  /**
   The point that was at `ratio` of the plot follows the mouse exactly when neither edge of the
   data is in the way; otherwise the view stops at that edge.
   */
  lemma {:induction false} DragFollowsMouse(b: Span, start: Span, moved: real, ratio: real)
    requires start.Width() <= b.Width()
    ensures var v, want := Drag(b, start, moved), start.min - moved * start.Width();
      && (v.min + (ratio + moved) * v.Width() == start.min + ratio * start.Width() <==>
            b.min <= want && want + start.Width() <= b.max)
      && (want < b.min ==> v.min == b.min) && (want + start.Width() > b.max ==> v.max == b.max)
  {
    var v := Drag(b, start, moved);
    assert (ratio + moved) * v.Width() == ratio * start.Width() + moved * start.Width();
  }
}
