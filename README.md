# Plot catalogue and EMI calculator of the Motherland Properties site

This project models the two pages of the site that hold behaviour rather than
static content, and proves properties of the model in Dafny.

- **Projects page** (`plots.dfy`, `projects_page.dfy`). This is the fixed table of fifteen
  plots (id, status `available | booked | sold`, size in katha, road width in
  feet, corner flag, price in taka), and the five-part filter that decides which plots
  the plot map draws. Around them sits the page state: the filter record, the
  selected plot, the selected project tab and whether the filter panel is open.
  That state is a `class` whose methods are the page's event handlers:
  - each filter-panel control;
  - "Clear Filters";
  - a click on a plot cell;
  - closing the detail modal;
  - the project tabs.

  The detail modal is a function of the selected plot. It shows "Book Now" only
  for an available plot.
- **EMI calculator** (`emi.dfy`). This covers:
  - the three inputs: the plot-value slider, the down-payment slider and the
    12/24/36-month tenure buttons;
  - the interest-free breakdown: down payment, financed amount, monthly
    installment and total;
  - the payment-schedule preview: at most six month rows with the balance
    clamped at zero, then a "… N more months" row.

  Amounts are exact rationals (`real`), and `Math.round` is `Round`, which rounds halves up.

Two behaviours of the code are worth stating up front:
- "Clear Filters" restores the constant ranges 2–10 katha and 3,000,000–10,000,000
  taka, the same record the page starts with.
- Choosing a project tab keeps the selected plot selected. Both tabs draw the
  same plot table.

## Model

| member | source | states |
|---|---|---|
| Plots.PlotsData | src/pages/Projects.tsx:21-37 | the page's plot table has fifteen rows, in display order |
| Plots.PlotIdsDistinct | src/pages/Projects.tsx:21-37 | the table has fifteen plots and no two share an id |
| Plots.PlotsWithinPanelRanges | src/pages/Projects.tsx:21-37 | every plot's size lies in the size slider's range 2–10, its price in the price slider's range 3,000,000–10,000,000, and its road width is one of the panel's buttons 20/25/30 |
| Plots.InitialFilters | src/pages/Projects.tsx:343-351 | the initial filter record is 'all' for status, width and corner, with the full size and price slider ranges |
| Plots.Passes | src/pages/Projects.tsx:374-382 | a plot is kept iff its status matches (or 'all'), its size and price lie in the inclusive ranges, its width matches (or 'all'), and 'yes' admits only corner plots, 'no' only regular ones |
| Plots.Filter | src/pages/Projects.tsx:374-382 | the filtered list is never longer than its input |
| Plots.FilterMembership | src/pages/Projects.tsx:374-382 | a plot is in the filtered list iff it is in the input and passes the filter |
| Plots.FilterIsSubsequence | src/pages/Projects.tsx:374-382 | the filtered list is a subsequence of the input, so the original order is kept |
| Plots.FilterKeepsPassingList | src/pages/Projects.tsx:374-382 | a list whose every plot passes comes out unchanged |
| Plots.FilterIdempotent | src/pages/Projects.tsx:374-382 | filtering the filtered list again with the same record gives the same list |
| Plots.FilterMonotone | src/pages/Projects.tsx:375-380 | widening a range or switching a criterion to 'all' never hides a plot that was shown; the old list is a subsequence of the new one |
| Plots.InvertedRangeShowsNothing | src/pages/Projects.tsx:376-380 | a size or price range whose minimum exceeds its maximum shows no plot |
| Plots.InitialFiltersPassEveryPlot | src/pages/Projects.tsx:343-351 | every plot of the table passes the initial filter record |
| Plots.InitialFiltersShowAll | src/pages/Projects.tsx:343-351 | the initial filter record shows all fifteen plots in table order |
| ProjectsPage.ModalFor | src/pages/Projects.tsx:232-297 | no selection renders no modal; a selection shows that plot, "Book Now" iff it is available, and exactly one "Close", last |
| ProjectsPage.Page.Modal | src/pages/Projects.tsx:479 | the modal is rendered iff a plot is selected, it shows the selected plot, and in a valid page state that plot is one of the table's |
| ProjectsPage.Page.VisiblePlots | src/pages/Projects.tsx:374-382 | the plot map draws exactly the table's plots that pass the current filter record |
| ProjectsPage.Page.constructor | src/pages/Projects.tsx:340-351 | the page starts with the panel closed, nothing selected, the Nimtola tab and the initial filter record |
| ProjectsPage.Page.SetStatus | src/pages/Projects.tsx:75 | a status button replaces the status criterion and nothing else |
| ProjectsPage.Page.SetSizeRange | src/pages/Projects.tsx:98 | the size slider replaces both size bounds and nothing else |
| ProjectsPage.Page.SetRoadWidth | src/pages/Projects.tsx:106-109 | a width button ('all', 20, 25 or 30 feet) replaces the width criterion and nothing else |
| ProjectsPage.Page.SetCorner | src/pages/Projects.tsx:129 | a corner button replaces the corner criterion and nothing else |
| ProjectsPage.Page.SetPriceRange | src/pages/Projects.tsx:152 | the price slider replaces both price bounds and nothing else |
| ProjectsPage.Page.ClearFilters | src/pages/Projects.tsx:160-169 | "Clear Filters" sets exactly the initial filter record and changes nothing else |
| ProjectsPage.ClearedPageShowsAll | src/pages/Projects.tsx:160-169 | a page whose filter record is the initial one, as after "Clear Filters", draws every plot of the table in table order |
| ProjectsPage.Page.OpenFilterPanel | src/pages/Projects.tsx:435 | the "Filter" button opens the panel and changes nothing else |
| ProjectsPage.Page.CloseFilterPanel | src/pages/Projects.tsx:473-474 | the backdrop or the close button closes the panel; the filter edits stay |
| ProjectsPage.Page.ClickPlot | src/pages/Projects.tsx:443 | clicking a drawn plot selects it, whatever its status, and the modal shows it: a plot of the table that passes the current filters |
| ProjectsPage.Page.CloseModal | src/pages/Projects.tsx:479 | closing the modal clears the selection, and no modal is shown |
| ProjectsPage.Page.SelectProject | src/pages/Projects.tsx:410 | a tab changes only the selected project; the plot map and the modal stay as they were |
| Emi.TenureOptions | src/pages/EMICalculator.tsx:31 | the tenure buttons are three whole numbers of years in increasing order, each longer than the six-month preview |
| Emi.OnSliderIffPosition | src/pages/EMICalculator.tsx:94-97 | a value passes the slider check iff it is one of the slider's positions start, start + step, … not past its maximum |
| Emi.ValidInputs | src/pages/EMICalculator.tsx:94-132 | inputs the controls can produce have a positive plot value, a down payment strictly between 0 and 100 %, and a tenure longer than the preview |
| Emi.InitialInputs | src/pages/EMICalculator.tsx:13-15 | the calculator starts at 5,000,000 taka, 30 % and 24 months, values its controls can produce |
| Emi.SetPlotValue | src/pages/EMICalculator.tsx:94-98 | the plot-value slider (2,000,000–20,000,000 in steps of 100,000) replaces the plot value only and keeps the inputs valid |
| Emi.SetDownPayment | src/pages/EMICalculator.tsx:113-117 | the down-payment slider (20–60 % in steps of 5) replaces the percentage only and keeps the inputs valid |
| Emi.SelectTenure | src/pages/EMICalculator.tsx:31 | a tenure button sets the tenure to one of 12, 24 or 36 months only and keeps the inputs valid |
| Emi.Calculate | src/pages/EMICalculator.tsx:17-29 | the down payment is pct % of the plot value; down payment plus financed amount is the plot value; installment times tenure is the financed amount; the total is the plot value |
| Emi.DownPaymentIsWhole | src/pages/EMICalculator.tsx:18 | for slider inputs the down payment is a whole number of taka |
| Emi.CalculationBounds | src/pages/EMICalculator.tsx:18-20 | for valid inputs the down payment is 20–60 % of the plot value, and the financed amount and the installment are positive |
| Emi.Round | src/pages/EMICalculator.tsx:163 | `Math.round` gives an integer within one half of its argument, rounding halves up |
| Emi.RoundMonotone | src/pages/EMICalculator.tsx:248 | rounding never reverses the order of two amounts |
| Emi.Balance | src/pages/EMICalculator.tsx:240-248 | the balance shown is never negative and never below the rounded remaining amount |
| Emi.Schedule | src/pages/EMICalculator.tsx:239-259 | the preview has min(tenure, 6) month rows numbered 1 to min(tenure, 6), each with the rounded installment and the clamped balance, then one row for tenure − 6 months when the tenure exceeds 6 |
| Emi.MoreMonthsRowIffLongTenure | src/pages/EMICalculator.tsx:253-256 | the "more months" row appears iff the tenure exceeds six, and every earlier row is a month row |
| Emi.BalanceIsRemainingInstallments | src/pages/EMICalculator.tsx:240-248 | in an interest-free plan the balance after month m is the rounded sum of the installments still to pay |
| Emi.BalanceZeroAtEnd | src/pages/EMICalculator.tsx:240-248 | in such a plan the balance is zero after the last month |
| Emi.BalanceNonIncreasing | src/pages/EMICalculator.tsx:240-248 | with a non-negative installment the balance never grows from one month to a later one |
| Emi.ScheduleBalancesNonIncreasing | src/pages/EMICalculator.tsx:239-248 | the preview's balances are non-negative and never grow from one row to a later one |

## Left out

- Animation (framer-motion), styling classes and the JSX layout of both pages. These are presentation.
- The translation lookup `t(...)` and its dictionary. These are static text.
- Number formatting: `toLocaleString`, `toFixed` and the "৳…L" price labels. These are locale formatting.
- Printing, sharing and copying the EMI summary (`window.print`, `navigator.share`, the clipboard). These are browser I/O.
- The static project cards (name, location, description, image, counts) of the two tabs. They hold no logic.
- Floating point. All amounts are exact rationals, so the model does not capture IEEE-754 rounding in `loanAmount / tenure` or in the balance subtraction.
- Slider widgets. The Projects filter sliders' step sizes (1 katha, 500,000 taka) are not enforced. `ProjectsPage.Page.SetSizeRange` and `ProjectsPage.Page.SetPriceRange` accept any bounds, as their handlers do, and the filter treats an inverted range as showing nothing.
- The button lists of the filter panel. These are typed values (`StatusFilter`, `WidthFilter`, `CornerFilter`) rather than strings and numbers. The status and corner types have exactly the panel's options. `ProjectsPage.Page.SetRoadWidth` requires 'all' or one of the offered widths 20, 25 and 30.
- ProjectsPage.Page.ClickPlot: a click is identified by the index of the cell in the drawn list rather than by the plot object the cell passes.
- The other pages (home, about, amenities, gallery, news, career and contact forms, NRB, trust), routing, the layout, the header's scroll listener and the WhatsApp button. These are not part of this model.
