/** The plot-availability catalogue of the Projects page: the fixed table of
    plots, the filter record edited by the filter panel, the predicate that
    decides whether a plot is shown, and the filtered list that the plot map
    draws. */
module Plots {

  datatype PlotStatus = Available | Booked | Sold

  /** One sellable plot. Sizes are in katha, road widths in feet and prices
      in taka. */
  datatype Plot = Plot(
    id: string,
    status: PlotStatus,
    size: int,
    roadWidth: int,
    corner: bool,
    price: int)

  /** The status criterion: 'all' or one plot status. */
  datatype StatusFilter = AnyStatus | OnlyStatus(status: PlotStatus)

  /** The road-width criterion: 'all' or one width in feet. */
  datatype WidthFilter = AnyWidth | OnlyWidth(width: int)

  /** The corner criterion: 'all', 'yes' (corner plots) or 'no' (regular plots). */
  datatype CornerFilter = AnyCorner | CornerOnly | RegularOnly

  /** The filter record of the Projects page. Both ranges are inclusive. */
  datatype Filters = Filters(
    status: StatusFilter,
    minSize: int,
    maxSize: int,
    roadWidth: WidthFilter,
    corner: CornerFilter,
    minPrice: int,
    maxPrice: int)

  /** Bounds of the size and price sliders of the filter panel. */
  const SizeSliderMin := 2
  const SizeSliderMax := 10
  const PriceSliderMin := 3000000
  const PriceSliderMax := 10000000

  /** The road widths, in feet, offered by the filter panel's width buttons
      besides 'all'. */
  const RoadWidthOptions: set<int> := {20, 25, 30}

  /** The fifteen plots shown on the page, in display order. */
  function PlotsData(): (rows: seq<Plot>)
    ensures |rows| == 15
  {
    [
      Plot("A1", Available, 3, 20, true, 4500000),
      Plot("A2", Available, 3, 20, false, 4000000),
      Plot("A3", Booked, 5, 25, false, 6500000),
      Plot("A4", Sold, 3, 20, false, 4000000),
      Plot("A5", Available, 5, 30, true, 7500000),
      Plot("B1", Available, 3, 20, false, 3800000),
      Plot("B2", Booked, 5, 25, false, 6200000),
      Plot("B3", Available, 7, 30, true, 9500000),
      Plot("B4", Sold, 3, 20, false, 3900000),
      Plot("B5", Available, 5, 25, false, 6000000),
      Plot("C1", Sold, 3, 20, true, 4200000),
      Plot("C2", Available, 5, 25, false, 6100000),
      Plot("C3", Booked, 3, 20, false, 3700000),
      Plot("C4", Available, 7, 30, false, 8800000),
      Plot("C5", Available, 5, 25, true, 7000000)
    ]
  }

  /** The table has fifteen plots, and no two of them share an id. */
  lemma PlotIdsDistinct()
    ensures |PlotsData()| == 15
    ensures forall i, j :: 0 <= i < j < |PlotsData()| ==> PlotsData()[i].id != PlotsData()[j].id
  {
  }

  /** Every size and price in the table lies within the range of its filter
      slider, and every road width is one of the filter panel's buttons. */
  lemma PlotsWithinPanelRanges()
    ensures forall i :: 0 <= i < |PlotsData()| ==>
      && SizeSliderMin <= PlotsData()[i].size <= SizeSliderMax
      && PriceSliderMin <= PlotsData()[i].price <= PriceSliderMax
      && PlotsData()[i].roadWidth in RoadWidthOptions
  {
  }

  /** The filter record the page starts with, which "Clear Filters" restores. */
  function InitialFilters(): (f: Filters)
    ensures f.status == AnyStatus && f.roadWidth == AnyWidth && f.corner == AnyCorner
    ensures f.minSize == SizeSliderMin && f.maxSize == SizeSliderMax
    ensures f.minPrice == PriceSliderMin && f.maxPrice == PriceSliderMax
  {
    Filters(AnyStatus, 2, 10, AnyWidth, AnyCorner, 3000000, 10000000)
  }

  /** Whether the plot map shows plot `p` under filter `f`: the checks run in
      the page's order and the first failing one rejects the plot. */
  function Passes(f: Filters, p: Plot): (keep: bool)
    ensures keep <==>
      && (f.status.AnyStatus? || p.status == f.status.status)
      && f.minSize <= p.size <= f.maxSize
      && (f.roadWidth.AnyWidth? || p.roadWidth == f.roadWidth.width)
      && (f.corner.AnyCorner? || (f.corner.CornerOnly? && p.corner) || (f.corner.RegularOnly? && !p.corner))
      && f.minPrice <= p.price <= f.maxPrice
  {
    if f.status.OnlyStatus? && p.status != f.status.status then false
    else if p.size < f.minSize || p.size > f.maxSize then false
    else if f.roadWidth.OnlyWidth? && p.roadWidth != f.roadWidth.width then false
    else if f.corner == CornerOnly && !p.corner then false
    else if f.corner == RegularOnly && p.corner then false
    else if p.price < f.minPrice || p.price > f.maxPrice then false
    else true
  }

  /** The plots of `plots` that pass `f`, in their original order. */
  function Filter(f: Filters, plots: seq<Plot>): (kept: seq<Plot>)
    ensures |kept| <= |plots|
  {
    if plots == [] then []
    else (if Passes(f, plots[0]) then [plots[0]] else []) + Filter(f, plots[1..])
  }

  /** A plot is in the filtered list exactly when it is in the input and
      passes the filter. */
  lemma {:induction false} FilterMembership(f: Filters, plots: seq<Plot>)
    ensures forall p :: p in Filter(f, plots) <==> p in plots && Passes(f, p)
  {
    if plots != [] {
      FilterMembership(f, plots[1..]);
      assert plots == [plots[0]] + plots[1..];
    }
  }

  /** `xs` is obtained from `ys` by deleting elements, keeping the order of the rest. */
  ghost predicate IsSubsequence<T>(xs: seq<T>, ys: seq<T>)
    decreases |ys|
  {
    xs == [] ||
    (ys != [] &&
     ((xs[0] == ys[0] && IsSubsequence(xs[1..], ys[1..])) || IsSubsequence(xs, ys[1..])))
  }

  /** Filter `g` admits, field by field, everything filter `f` admits: each
      criterion of `g` is 'all' or the same as in `f`, and each range of `g`
      contains the range of `f`. */
  ghost predicate Wider(g: Filters, f: Filters)
  {
    && (g.status.AnyStatus? || g.status == f.status)
    && g.minSize <= f.minSize && f.maxSize <= g.maxSize
    && (g.roadWidth.AnyWidth? || g.roadWidth == f.roadWidth)
    && (g.corner.AnyCorner? || g.corner == f.corner)
    && g.minPrice <= f.minPrice && f.maxPrice <= g.maxPrice
  }

  /** The filtered list keeps the plots it keeps in their original order. */
  lemma {:induction false} FilterIsSubsequence(f: Filters, plots: seq<Plot>)
    ensures IsSubsequence(Filter(f, plots), plots)
  {
    if plots != [] {
      var rest := Filter(f, plots[1..]);
      FilterIsSubsequence(f, plots[1..]);
      if Passes(f, plots[0]) {
        assert Filter(f, plots) == [plots[0]] + rest;
        assert ([plots[0]] + rest)[1..] == rest;
      } else {
        assert Filter(f, plots) == rest;
      }
    }
  }

  /** A list whose every plot passes `f` comes out of the filter unchanged. */
  lemma {:induction false} FilterKeepsPassingList(f: Filters, plots: seq<Plot>)
    requires forall i :: 0 <= i < |plots| ==> Passes(f, plots[i])
    ensures Filter(f, plots) == plots
  {
    if plots != [] {
      assert Passes(f, plots[0]);
      FilterKeepsPassingList(f, plots[1..]);
      assert plots == [plots[0]] + plots[1..];
    }
  }

  /** Filtering an already filtered list with the same filter changes nothing. */
  lemma FilterIdempotent(f: Filters, plots: seq<Plot>)
    ensures Filter(f, Filter(f, plots)) == Filter(f, plots)
  {
    var kept := Filter(f, plots);
    FilterMembership(f, plots);
    forall k | 0 <= k < |kept| ensures Passes(f, kept[k]) {
      assert kept[k] in kept;
    }
    FilterKeepsPassingList(f, kept);
  }

  /** Widening the filter never hides a plot that was shown: the old list is a
      subsequence of the new one. */
  lemma {:induction false} FilterMonotone(g: Filters, f: Filters, plots: seq<Plot>)
    requires Wider(g, f)
    ensures IsSubsequence(Filter(f, plots), Filter(g, plots))
    ensures forall p :: p in Filter(f, plots) ==> p in Filter(g, plots)
  {
    FilterMembership(f, plots);
    FilterMembership(g, plots);
    if plots != [] {
      var x := plots[0];
      var restF, restG := Filter(f, plots[1..]), Filter(g, plots[1..]);
      FilterMonotone(g, f, plots[1..]);
      if Passes(f, x) {
        assert Passes(g, x);
        assert Filter(f, plots) == [x] + restF && ([x] + restF)[1..] == restF;
        assert Filter(g, plots) == [x] + restG && ([x] + restG)[1..] == restG;
      } else if Passes(g, x) {
        assert Filter(f, plots) == restF;
        assert Filter(g, plots) == [x] + restG && ([x] + restG)[1..] == restG;
      } else {
        assert Filter(f, plots) == restF && Filter(g, plots) == restG;
      }
    }
  }

  /** A size or price range whose lower bound exceeds its upper bound shows nothing. */
  lemma InvertedRangeShowsNothing(f: Filters, plots: seq<Plot>)
    requires f.minSize > f.maxSize || f.minPrice > f.maxPrice
    ensures Filter(f, plots) == []
  {
  }

  /** Every plot of the table passes the initial filter record. The record is
      a parameter equal to `InitialFilters()` rather than the call itself, so
      that the verifier does not evaluate the filter on the literal table
      and literal record eagerly. */
  lemma InitialFiltersPassEveryPlot(f: Filters)
    requires f == InitialFilters()
    ensures forall i :: 0 <= i < |PlotsData()| ==> Passes(f, PlotsData()[i])
  {
    PlotsWithinPanelRanges();
  }

  /** The initial filter record shows all fifteen plots, in table order. As
      above, the record is passed as a parameter equal to `InitialFilters()`
      to keep the verifier from evaluating the filter eagerly. */
  lemma InitialFiltersShowAll(f: Filters)
    requires f == InitialFilters()
    ensures Filter(f, PlotsData()) == PlotsData()
  {
    InitialFiltersPassEveryPlot(f);
    FilterKeepsPassingList(f, PlotsData());
  }
}
