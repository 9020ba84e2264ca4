/**
 The dashboard's two callbacks as a static table: which component outputs
 are recomputed from which component inputs, and what each output shows
 for the current input values.
 */
module Callbacks {
  import opened LaunchData
  import opened PieChart
  import opened ScatterChart
  import opened StringOrder

  /** The `value` properties the callbacks listen to. */
  datatype ComponentInput = SiteDropdown | PayloadSlider

  /** The `figure` properties the callbacks produce. */
  datatype ComponentOutput = SuccessPieChart | SuccessPayloadScatterChart

  /** One callback: its output and its inputs, in argument order. */
  datatype Binding = Binding(output: ComponentOutput, inputs: seq<ComponentInput>)

  const Bindings: seq<Binding> := [
    Binding(SuccessPieChart, [SiteDropdown]),
    Binding(SuccessPayloadScatterChart, [SiteDropdown, PayloadSlider])
  ]

  /** The current value of every input. */
  datatype InputValues = InputValues(site: Option<string>, payload: PayloadRange)

  datatype InputValue = SiteValue(site: Option<string>) | SliderValue(range: PayloadRange)

  function ValueOf(values: InputValues, input: ComponentInput): InputValue
  {
    match input
    case SiteDropdown => SiteValue(values.site)
    case PayloadSlider => SliderValue(values.payload)
  }

  /** What a callback hands to the chart library. */
  datatype Figure = PieFigure(pie: PieData) | ScatterFigure(rows: Dataset)

  /** The value the callback bound to `output` computes from the inputs. */
  function Render(data: Dataset, output: ComponentOutput, values: InputValues): (r: Figure)
    ensures r.PieFigure? <==> output == SuccessPieChart
    ensures output == SuccessPieChart ==> r == PieFigure(Pie(data, values.site))
    ensures output == SuccessPayloadScatterChart ==> r == ScatterFigure(ScatterRows(data, values.site, values.payload))
    ensures r.ScatterFigure? ==>
      forall x :: x in r.rows <==> x in data && Selected(x, values.site, values.payload)
  {
    match output
    case SuccessPieChart => PieFigure(Pie(data, values.site))
    case SuccessPayloadScatterChart => ScatterFigure(ScatterRows(data, values.site, values.payload))
  }

  /** The inputs declared for `output`. */
  function InputsOf(output: ComponentOutput): (r: set<ComponentInput>)
    ensures output == SuccessPieChart ==> r == {SiteDropdown}
    ensures output == SuccessPayloadScatterChart ==> r == {SiteDropdown, PayloadSlider}
  {
    assert SiteDropdown in Bindings[0].inputs;
    assert SiteDropdown in Bindings[1].inputs && PayloadSlider in Bindings[1].inputs;
    set b, i | b in Bindings && i in b.inputs && b.output == output :: i
  }

  /** The outputs whose callbacks must run again when `changed` changes. */
  function AffectedOutputs(changed: ComponentInput): (r: set<ComponentOutput>)
    ensures forall o :: o in r <==> changed in InputsOf(o)
  {
    set b | b in Bindings && changed in b.inputs :: b.output
  }

  /**
   A new site refreshes both charts; a new payload range refreshes only the
   scatter chart.
   */
  lemma AffectedOutputsTable()
    ensures AffectedOutputs(SiteDropdown) == {SuccessPieChart, SuccessPayloadScatterChart}
    ensures AffectedOutputs(PayloadSlider) == {SuccessPayloadScatterChart}
  {
    assert SiteDropdown in Bindings[0].inputs;
    assert SiteDropdown in Bindings[1].inputs && PayloadSlider in Bindings[1].inputs;
  }

  /** Each output is computed from its declared inputs and nothing else. */
  lemma RenderReadsOnlyDeclaredInputs(data: Dataset, output: ComponentOutput, v1: InputValues, v2: InputValues)
    requires forall i :: i in InputsOf(output) ==> ValueOf(v1, i) == ValueOf(v2, i)
    ensures Render(data, output, v1) == Render(data, output, v2)
  {
    assert SiteDropdown in Bindings[0].inputs;
    assert SiteDropdown in Bindings[1].inputs && PayloadSlider in Bindings[1].inputs;
    assert ValueOf(v1, SiteDropdown) == ValueOf(v2, SiteDropdown);
    if output == SuccessPayloadScatterChart {
      assert ValueOf(v1, PayloadSlider) == ValueOf(v2, PayloadSlider);
    }
  }

  /**
   Skipping the callbacks an input change does not affect is safe: their
   outputs would come out the same.
   */
  lemma UnaffectedOutputUnchanged(data: Dataset, changed: ComponentInput, output: ComponentOutput,
                                  before: InputValues, after: InputValues)
    requires output !in AffectedOutputs(changed)
    requires forall i :: i != changed ==> ValueOf(before, i) == ValueOf(after, i)
    ensures Render(data, output, before) == Render(data, output, after)
  {
    RenderReadsOnlyDeclaredInputs(data, output, before, after);
  }

  /** Moving the slider leaves the pie as it was. */
  lemma SliderKeepsPie(data: Dataset, values: InputValues, range: PayloadRange)
    ensures Render(data, SuccessPieChart, values.(payload := range))
         == Render(data, SuccessPieChart, values)
  {
    AffectedOutputsTable();
    UnaffectedOutputUnchanged(data, PayloadSlider, SuccessPieChart, values, values.(payload := range));
  }

  /**
   The values the page starts with: "ALL" and the slider at exactly the
   table's smallest and largest payload. There are none for an empty table,
   whose bounds are NaN.
   */
  function InitialValues(data: Dataset): (r: Option<InputValues>)
    ensures r.None? <==> data == []
    ensures r.Some? ==> r.value.site == Some(AllSitesValue)
    ensures r.Some? ==> forall i :: 0 <= i < |data| ==> InRange(data[i], r.value.payload)
    ensures r.Some? ==> exists i :: 0 <= i < |data| && data[i].payloadMassKg == r.value.payload.low
    ensures r.Some? ==> exists j :: 0 <= j < |data| && data[j].payloadMassKg == r.value.payload.high
  {
    match PayloadBounds(data)
    case None => None
    case Some(bounds) => Some(InputValues(Some(AllSitesValue), bounds))
  }

  /**
   On the initial values the scatter shows the whole table in order, and the
   pie has one slice per distinct site, in ascending order, the slices adding
   up to the table's `class` sum.
   */
  lemma InitialFigures(data: Dataset)
    requires data != []
    ensures Render(data, SuccessPayloadScatterChart, InitialValues(data).value) == ScatterFigure(data)
    ensures var fig := Render(data, SuccessPieChart, InitialValues(data).value);
      && fig.PieFigure? && fig.pie.BySite?
      && (forall i, j :: 0 <= i < j < |fig.pie.slices| ==> Less(fig.pie.slices[i].site, fig.pie.slices[j].site))
      && (forall s :: HasSite(data, s) <==> exists i :: 0 <= i < |fig.pie.slices| && fig.pie.slices[i].site == s)
      && TotalSuccesses(fig.pie.slices) == OutcomeSum(data)
  {
    FullBoundsIsWholeTable(data);
    AllSitesSlices(data);
    AllSitesTotal(data);
  }
}
