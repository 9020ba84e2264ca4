# SpaceX launch dashboard: the data transforms behind the charts

The dashboard loads a table of launch records once (launch site, payload
mass, booster category and the 0/1 `class` outcome). It offers a site
dropdown ("ALL" or one site) and a payload range slider. Two callbacks
recompute two charts from those inputs:

- the success pie chart. For "ALL" it has one slice per launch site, sized by
  the site's `class` sum. For one site it has two slices, the site's
  successes (`class == 1`) and failures (`class == 0`);
- the payload/outcome scatter chart. It shows the rows whose payload lies in
  the slider's range, both ends included, restricted to the chosen site
  unless the dropdown says "ALL".

This project models those transforms as Dafny functions over a sequence of
records, along with the values derived from the table at start-up (the
slider bounds and the dropdown options) and the static table that binds
callback inputs to outputs. Lemmas state what each transform guarantees.

Files, one module each:

- `string_order.dfy` (`StringOrder`): Python's ordering of strings and the
  sorted list of distinct strings, which the dropdown and pandas' `groupby`
  both use.
- `launch_data.dfy` (`LaunchData`): the record type and the boolean-mask row
  selection with its laws. Also the payload bounds, the launch sites and the
  dropdown options.
- `pie_chart.dfy` (`PieChart`): the pie callback.
- `scatter_chart.dfy` (`ScatterChart`): the scatter callback.
- `callbacks.dfy` (`Callbacks`): the input→output binding table, what each
  output computes, the initial input values, and the lemma that an output an
  input change does not affect would come out the same.

Modelling choices:

- The `class` column is the field `outcome: int`, because `class` is a Dafny
  keyword. It is an integer, as in the table. Lemmas that need 0/1 outcomes
  say so with `BinaryOutcomes`.
- The dropdown value is an `Option<string>`. `None` is a cleared dropdown,
  which Dash reports as no value. In the source that value is not "ALL" and
  equals no site, so both charts come out empty (the pie as 0 successes and
  0 failures).
- pandas returns NaN for the minimum and maximum payload of an empty table.
  `PayloadBounds` and `InitialValues` return `None` in that case. The program
  itself never starts on an empty table: `int(min_payload)` in the slider's
  marks (spacex-dash-app.py:49) raises on NaN.
- The code validates neither the dropdown value nor the slider pair. A
  dropdown value that matches no site, or a slider pair with `low > high`,
  goes straight into the masks and gives an empty frame, never an error.
- `class` is an integer column that the code sums, so for "ALL" the slices
  add up to the number of successes (`AllSitesTotal`), not to the number of
  rows.
- A launch site literally named "ALL" would be indistinguishable from the
  all-sites entry: the dropdown would list the value twice
  (`SiteOptionValuesDistinct`), and selecting it would show all sites.

## Model

| member | source | states |
|---|---|---|
| `StringOrder.SortedDistinct` | spacex-dash-app.py:18 | the list of launch sites contains exactly the strings of the column (that each occurs once is `SortedDistinctIsSorted`) |
| `StringOrder.SortedDistinctIsSorted` | spacex-dash-app.py:18 | that list is in strictly ascending Python string order, so it has no duplicates |
| `StringOrder.StrictlySortedUnique` | spacex-dash-app.py:18 | a strictly ascending list is fixed by its elements, so the sorted distinct list is the only such listing |
| `LaunchData.Filter` | spacex-dash-app.py:102-105 | boolean-mask selection keeps exactly the rows the mask accepts and never grows the frame |
| `LaunchData.AtSite` | spacex-dash-app.py:81 | the site mask keeps exactly the rows whose site equals the dropdown value; a cleared dropdown equals no site (also the mask at line 108) |
| `LaunchData.WithinRange` | spacex-dash-app.py:102-105 | the payload mask keeps exactly the rows with `low <= payload <= high` |
| `LaunchData.FilterIsSubsequence` | spacex-dash-app.py:102-108 | the surviving rows keep the table's order |
| `LaunchData.FilterMultiplicity` | spacex-dash-app.py:102-108 | each accepted row survives as often as it occurs in the table; rejected rows never survive |
| `LaunchData.FilterTwice` | spacex-dash-app.py:102-108 | masking a masked frame equals one mask testing both conditions |
| `LaunchData.FilterSameMask` | spacex-dash-app.py:102-108 | masks accepting the same rows select the same frame |
| `LaunchData.FilterKeepAll` | spacex-dash-app.py:102-105 | a mask accepting every row returns the table unchanged |
| `LaunchData.FilterKeepNone` | spacex-dash-app.py:102-105 | a mask rejecting every row gives an empty frame, not an error |
| `LaunchData.AtSiteEmpty` | spacex-dash-app.py:81 | selecting a site no row has, or a cleared dropdown, gives an empty frame |
| `LaunchData.WithinRangeEmpty` | spacex-dash-app.py:102-105 | a range no payload lies in gives an empty frame |
| `LaunchData.MinPayload` | spacex-dash-app.py:12 | the minimum is at most every payload and is the payload of some row |
| `LaunchData.MaxPayload` | spacex-dash-app.py:11 | the maximum is at least every payload and is the payload of some row |
| `LaunchData.PayloadBounds` | spacex-dash-app.py:11-12 | the bounds exist exactly for a non-empty table, enclose every payload and are both attained |
| `LaunchData.LaunchSites` | spacex-dash-app.py:18 | the launch sites are strictly ascending and contain exactly the sites that occur in the table |
| `LaunchData.LaunchSitesUnique` | spacex-dash-app.py:18 | any strictly ascending listing of the table's sites equals the launch sites |
| `LaunchData.SiteOptions` | spacex-dash-app.py:19-21 | one option more than there are sites: "All Sites"/"ALL" first, then each launch site in order, labelled by its own name (ordering and coverage in `SiteOptionsListing`) |
| `LaunchData.SiteOptionsListing` | spacex-dash-app.py:19-21 | the options are "All Sites"/"ALL" first, then every site of the table once, labelled by its own name, strictly ascending |
| `LaunchData.SiteOptionValuesDistinct` | spacex-dash-app.py:19-21 | the option values are pairwise distinct if and only if no site is named "ALL" |
| `PieChart.Pie` | spacex-dash-app.py:66-90 | "ALL" and only "ALL" gives per-site slices, one per launch site in ascending order; any other value gives success and failure counts that total at most the matching rows, and exactly them when outcomes are 0/1 (slice values in `AllSitesSlices`, `AllSitesTotal`, `SiteBreakdown`) |
| `PieChart.OutcomeSumCountsSuccesses` | spacex-dash-app.py:68-70 | with 0/1 outcomes the `class` sum is the number of successful launches |
| `PieChart.SuccessesPlusFailures` | spacex-dash-app.py:82-83 | successes plus failures never exceed the rows, and equal them when outcomes are 0/1 |
| `PieChart.SiteBreakdown` | spacex-dash-app.py:81-83 | for a specific site the pie holds the site's success and failure counts; they add up to the site's launches (0/1 outcomes) and are both zero for a site without launches |
| `PieChart.ClearedDropdown` | spacex-dash-app.py:81-83 | a cleared dropdown gives 0 successes and 0 failures |
| `PieChart.GroupSums` | spacex-dash-app.py:68-72 | one slice per given site, in the given order |
| `PieChart.GroupSumsTotal` | spacex-dash-app.py:68-70 | slices over distinct sites that cover every row add up to the `class` sum of the table |
| `PieChart.AllSitesSlices` | spacex-dash-app.py:67-72 | for "ALL" there is exactly one slice per distinct site, ascending, each the site's `class` sum, which is its number of successes when outcomes are 0/1 |
| `PieChart.AllSitesTotal` | spacex-dash-app.py:67-72 | for "ALL" the slices add up to the table's `class` sum, which is its number of successes when outcomes are 0/1 |
| `ScatterChart.ScatterRows` | spacex-dash-app.py:100-111 | a row is plotted exactly when it is in the table, its payload is in the range, and (unless "ALL") it is at the chosen site |
| `ScatterChart.ScatterIsOneMask` | spacex-dash-app.py:102-108 | range-then-site filtering equals one mask testing both |
| `ScatterChart.ScatterOrderAndCopies` | spacex-dash-app.py:102-108 | the plotted rows keep the table's order, and each selected row appears as often as in the table |
| `ScatterChart.NoMatchIsEmpty` | spacex-dash-app.py:102-108 | if no row passes both tests the scatter is empty, not an error |
| `ScatterChart.UnknownSiteIsEmpty` | spacex-dash-app.py:107-108 | a site without launches gives an empty scatter |
| `ScatterChart.ClearedDropdownIsEmpty` | spacex-dash-app.py:107-108 | a cleared dropdown gives an empty scatter |
| `ScatterChart.InvertedRangeIsEmpty` | spacex-dash-app.py:101-105 | a range with `low > high` gives an empty scatter |
| `ScatterChart.FullBoundsIsWholeTable` | spacex-dash-app.py:102-105 | "ALL" with the table's own payload bounds plots the whole table, in order |
| `Callbacks.InputsOf` | spacex-dash-app.py:62-99 | reading the binding table `Bindings`: the pie chart's inputs are the site dropdown only, the scatter chart's are the site dropdown and the payload slider |
| `Callbacks.Render` | spacex-dash-app.py:62-100 | the pie output is exactly `Pie` of the dropdown value and the scatter output exactly `ScatterRows` of the dropdown value and slider range, so it plots exactly the rows in the range and, unless "ALL", at the dropdown's site (order and copies in `ScatterOrderAndCopies`) |
| `Callbacks.AffectedOutputs` | spacex-dash-app.py:62-99 | an output is affected by an input change exactly when that input is among its declared inputs |
| `Callbacks.AffectedOutputsTable` | spacex-dash-app.py:62-99 | the site dropdown affects both charts; the payload slider affects only the scatter chart |
| `Callbacks.RenderReadsOnlyDeclaredInputs` | spacex-dash-app.py:62-100 | each chart is computed from its declared inputs and nothing else |
| `Callbacks.UnaffectedOutputUnchanged` | spacex-dash-app.py:62-100 | an output that an input change does not affect would come out unchanged, so not re-running it is safe |
| `Callbacks.SliderKeepsPie` | spacex-dash-app.py:62-66 | moving the payload slider leaves the pie chart as it was |
| `Callbacks.InitialValues` | spacex-dash-app.py:29-52 | the start values are "ALL" and a range that encloses every payload and whose ends are each some row's payload, i.e. exactly `[min, max]`; there are none for an empty table |
| `Callbacks.InitialFigures` | spacex-dash-app.py:44-52 | on the start values the scatter shows the whole table in order, and the pie has one slice per distinct site, ascending, adding up to the table's `class` sum |

## Left out

- Reading the CSV file with pandas (spacex-dash-app.py:10) is file I/O. The table is a given sequence of records.
- The page layout and widgets (spacex-dash-app.py:24-58) and `app.run()` (spacex-dash-app.py:124-125) are UI and server plumbing.
- Building the Plotly figures and their titles (spacex-dash-app.py:73-78, 85-89, 109-120) uses an external charting library. The model stops at the counts and the rows handed to it.
- How Dash schedules callbacks at run time, including the initial call on page load, is framework behaviour. Only the static binding table is modelled.
- Payload masses are floats in pandas and are integers here. NaN payloads are not modelled, except for the NaN bounds of an empty table. The slider's step and marks (spacex-dash-app.py:47-51) are presentation only.
