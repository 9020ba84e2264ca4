/**
 The rows behind the payload/outcome scatter chart: the launches whose
 payload lies in the slider's range, restricted to the chosen site unless
 the dropdown says "ALL".
 */
module ScatterChart {
  import opened LaunchData

  /** The mask the two selection steps amount to. */
  predicate Selected(x: LaunchRecord, entered: Option<string>, range: PayloadRange)
  {
    InRange(x, range) && (entered != Some(AllSitesValue) ==> entered == Some(x.site))
  }

  /**
   The scatter's rows: first the payload range (both ends included), then,
   for any dropdown value other than "ALL", the site. A cleared dropdown
   (`None`) is not "ALL" and matches no site. A row is plotted exactly when
   it passes both tests, so every row left out fails one of them.
   */
  function ScatterRows(data: Dataset, entered: Option<string>, range: PayloadRange): (r: Dataset)
    ensures forall x :: x in r <==> x in data && Selected(x, entered, range)
  {
    var inRange := WithinRange(data, range);
    if entered != Some(AllSitesValue) then AtSite(inRange, entered) else inRange
  }

  /** Filtering by range and then by site is one pass with both tests. */
  lemma ScatterIsOneMask(data: Dataset, entered: Option<string>, range: PayloadRange)
    ensures ScatterRows(data, entered, range)
         == Filter(data, (x: LaunchRecord) => Selected(x, entered, range))
  {
    var both := (x: LaunchRecord) => Selected(x, entered, range);
    if entered != Some(AllSitesValue) {
      FilterTwice(data, (x: LaunchRecord) => InRange(x, range),
                  (x: LaunchRecord) => entered == Some(x.site), both);
    } else {
      FilterSameMask(data, (x: LaunchRecord) => InRange(x, range), both);
    }
  }

  /**
   The plotted rows keep the table's order, and each selected row appears
   as many times as in the table, unselected rows not at all.
   */
  lemma ScatterOrderAndCopies(data: Dataset, entered: Option<string>, range: PayloadRange, x: LaunchRecord)
    ensures IsSubsequence(ScatterRows(data, entered, range), data)
    ensures multiset(ScatterRows(data, entered, range))[x]
         == if Selected(x, entered, range) then multiset(data)[x] else 0
  {
    var both := (x: LaunchRecord) => Selected(x, entered, range);
    ScatterIsOneMask(data, entered, range);
    FilterIsSubsequence(data, both);
    FilterMultiplicity(data, both, x);
  }

  /** When no row passes both tests the scatter is empty, not an error. */
  lemma NoMatchIsEmpty(data: Dataset, entered: Option<string>, range: PayloadRange)
    requires forall i :: 0 <= i < |data| ==> !Selected(data[i], entered, range)
    ensures ScatterRows(data, entered, range) == []
  {
    ScatterIsOneMask(data, entered, range);
    FilterKeepNone(data, (x: LaunchRecord) => Selected(x, entered, range));
  }

  /** A site without launches gives an empty scatter, not an error. */
  lemma UnknownSiteIsEmpty(data: Dataset, site: string, range: PayloadRange)
    requires site != AllSitesValue && !HasSite(data, site)
    ensures ScatterRows(data, Some(site), range) == []
  {
    var inRange := WithinRange(data, range);
    forall i | 0 <= i < |inRange| ensures Some(site) != Some(inRange[i].site) {
      assert inRange[i] in data;
    }
    AtSiteEmpty(inRange, Some(site));
  }

  /** A cleared dropdown gives an empty scatter. */
  lemma ClearedDropdownIsEmpty(data: Dataset, range: PayloadRange)
    ensures ScatterRows(data, None, range) == []
  {
    AtSiteEmpty(WithinRange(data, range), None);
  }

  /** An inverted range (`low > high`) gives an empty scatter, not an error. */
  lemma InvertedRangeIsEmpty(data: Dataset, entered: Option<string>, range: PayloadRange)
    requires range.low > range.high
    ensures ScatterRows(data, entered, range) == []
  {
    WithinRangeEmpty(data, range);
    if entered != Some(AllSitesValue) {
      AtSiteEmpty([], entered);
    }
  }

  /** "ALL" with the table's own payload bounds plots the whole table, in order. */
  lemma FullBoundsIsWholeTable(data: Dataset)
    requires data != []
    ensures ScatterRows(data, Some(AllSitesValue), PayloadBounds(data).value) == data
  {
    var range := PayloadBounds(data).value;
    FilterKeepAll(data, (x: LaunchRecord) => InRange(x, range));
  }
}
