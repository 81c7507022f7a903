/** The Projects page: its UI state (filter record, selected plot, selected
    project, filter-panel visibility), the event handlers that change it, and
    the plot detail modal derived from the selected plot. */
module ProjectsPage {
  import opened Plots

  datatype Option<T> = None | Some(value: T)

  /** The two project tabs. */
  datatype Project = Nimtola | Purbachal

  /** The buttons at the foot of the plot detail modal, left to right. */
  datatype ModalButton = BookNow | Close

  /** What the detail modal shows: the plot's fields and its buttons. */
  datatype DetailModal = DetailModal(plot: Plot, buttons: seq<ModalButton>)

  /** The detail modal for the current selection: nothing when no plot is
      selected; otherwise the selected plot with "Book Now" only when the plot
      is available, and "Close" always, last. */
  function ModalFor(selected: Option<Plot>): (m: Option<DetailModal>)
    ensures m.None? <==> selected.None?
    ensures m.Some? ==> m.value.plot == selected.value
    ensures m.Some? ==> (BookNow in m.value.buttons <==> selected.value.status == Available)
    ensures m.Some? ==> |m.value.buttons| > 0 && m.value.buttons[|m.value.buttons| - 1] == Close
    ensures m.Some? ==> multiset(m.value.buttons)[Close] == 1
  {
    match selected
    case None => None
    case Some(p) =>
      var buttons := (if p.status == Available then [BookNow] else []) + [Close];
      Some(DetailModal(p, buttons))
  }

  class Page {
    var showFilters: bool
    var selectedPlot: Option<Plot>
    var selectedProject: Project
    var filters: Filters

    /** The selected plot, when there is one, is a plot of the table. */
    predicate Valid()
      reads this
    {
      selectedPlot.Some? ==> selectedPlot.value in PlotsData()
    }

    /** The plots the plot map draws. */
    function VisiblePlots(): (plots: seq<Plot>)
      reads this
      ensures forall p :: p in plots <==> p in PlotsData() && Passes(filters, p)
    {
      FilterMembership(filters, PlotsData());
      Filter(filters, PlotsData())
    }

    /** What the detail modal shows for the current state: nothing without a
        selection, otherwise the selected plot. */
    function Modal(): (m: Option<DetailModal>)
      reads this
      ensures m.None? <==> selectedPlot.None?
      ensures m.Some? ==> m.value.plot == selectedPlot.value
      ensures Valid() && m.Some? ==> m.value.plot in PlotsData()
    {
      ModalFor(selectedPlot)
    }

    constructor ()
      ensures Valid()
      ensures !showFilters && selectedPlot == None && selectedProject == Nimtola
      ensures filters == InitialFilters()
    {
      showFilters := false;
      selectedPlot := None;
      selectedProject := Nimtola;
      filters := InitialFilters();
    }

    /** A status button of the filter panel. */
    method SetStatus(status: StatusFilter)
      requires Valid()
      modifies this
      ensures Valid()
      ensures filters == old(filters).(status := status)
      ensures showFilters == old(showFilters) && selectedPlot == old(selectedPlot)
      ensures selectedProject == old(selectedProject)
    {
      filters := filters.(status := status);
    }

    /** The plot-size slider of the filter panel. */
    method SetSizeRange(minSize: int, maxSize: int)
      requires Valid()
      modifies this
      ensures Valid()
      ensures filters == old(filters).(minSize := minSize, maxSize := maxSize)
      ensures showFilters == old(showFilters) && selectedPlot == old(selectedPlot)
      ensures selectedProject == old(selectedProject)
    {
      filters := filters.(minSize := minSize, maxSize := maxSize);
    }

    /** A road-width button of the filter panel: 'all' or one of the widths it
        offers. */
    method SetRoadWidth(width: WidthFilter)
      requires Valid()
      requires width.AnyWidth? || width.width in RoadWidthOptions
      modifies this
      ensures Valid()
      ensures filters == old(filters).(roadWidth := width)
      ensures showFilters == old(showFilters) && selectedPlot == old(selectedPlot)
      ensures selectedProject == old(selectedProject)
    {
      filters := filters.(roadWidth := width);
    }

    /** A corner-plot button of the filter panel. */
    method SetCorner(corner: CornerFilter)
      requires Valid()
      modifies this
      ensures Valid()
      ensures filters == old(filters).(corner := corner)
      ensures showFilters == old(showFilters) && selectedPlot == old(selectedPlot)
      ensures selectedProject == old(selectedProject)
    {
      filters := filters.(corner := corner);
    }

    /** The price slider of the filter panel. */
    method SetPriceRange(minPrice: int, maxPrice: int)
      requires Valid()
      modifies this
      ensures Valid()
      ensures filters == old(filters).(minPrice := minPrice, maxPrice := maxPrice)
      ensures showFilters == old(showFilters) && selectedPlot == old(selectedPlot)
      ensures selectedProject == old(selectedProject)
    {
      filters := filters.(minPrice := minPrice, maxPrice := maxPrice);
    }

    /** "Clear Filters": back to the initial record, under which the plot map
        shows every plot again (ClearedPageShowsAll). */
    method ClearFilters()
      requires Valid()
      modifies this
      ensures Valid()
      ensures filters == InitialFilters()
      ensures showFilters == old(showFilters) && selectedPlot == old(selectedPlot)
      ensures selectedProject == old(selectedProject)
    {
      filters := Filters(AnyStatus, 2, 10, AnyWidth, AnyCorner, 3000000, 10000000);
    }

    /** The "Filter" button opens the panel. */
    method OpenFilterPanel()
      requires Valid()
      modifies this`showFilters
      ensures Valid() && showFilters
    {
      showFilters := true;
    }

    /** The panel's close button or a click on the backdrop closes it; the
        filter record keeps the edits already made. */
    method CloseFilterPanel()
      requires Valid()
      modifies this`showFilters
      ensures Valid() && !showFilters
    {
      showFilters := false;
    }

    /** A click on the `i`-th cell of the plot map selects that plot, whatever
        its status. */
    method ClickPlot(i: nat)
      requires Valid()
      requires i < |VisiblePlots()|
      modifies this`selectedPlot
      ensures Valid()
      ensures selectedPlot == Some(old(VisiblePlots())[i])
      ensures Modal().Some? && Modal().value.plot == old(VisiblePlots())[i]
      ensures Modal().value.plot in PlotsData() && Passes(filters, Modal().value.plot)
    {
      var plot := VisiblePlots()[i];
      assert plot in VisiblePlots();
      selectedPlot := Some(plot);
    }

    /** The modal's "Close" button or a click on its backdrop. */
    method CloseModal()
      requires Valid()
      modifies this`selectedPlot
      ensures Valid()
      ensures selectedPlot == None && Modal() == None
    {
      selectedPlot := None;
    }

    /** A project tab. Only the tab changes: the selected plot stays selected
        and the plot map shows the same plots as before. */
    method SelectProject(project: Project)
      requires Valid()
      modifies this`selectedProject
      ensures Valid()
      ensures selectedProject == project
      ensures VisiblePlots() == old(VisiblePlots()) && Modal() == old(Modal())
    {
      selectedProject := project;
    }
  }

  /** A page whose filter record is the initial one, as after construction or
      "Clear Filters", draws every plot of the table, in table order. */
  lemma ClearedPageShowsAll(page: Page)
    requires page.filters == InitialFilters()
    ensures page.VisiblePlots() == PlotsData()
  {
    InitialFiltersShowAll(page.filters);
  }
}
