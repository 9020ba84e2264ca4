/**
 The launch table the dashboard loads once at start-up, the boolean-mask
 row selection that every callback uses, and the values derived from the
 table before the app starts: the payload bounds of the range slider and
 the options of the site dropdown.
 */
module LaunchData {
  import opened StringOrder

  datatype Option<T> = None | Some(value: T)

  /**
   One row of the table. `outcome` is the `class` column: 1 for a
   successful launch, 0 for a failed one.
   */
  datatype LaunchRecord = LaunchRecord(
    site: string,
    payloadMassKg: int,
    boosterCategory: string,
    outcome: int)

  type Dataset = seq<LaunchRecord>

  /** An inclusive payload interval, the value of the range slider. */
  datatype PayloadRange = PayloadRange(low: int, high: int)

  /** One entry of the site dropdown: its `label` (shown) and its `value`. */
  datatype DropdownOption = DropdownOption(caption: string, value: string)

  /** The dropdown value that stands for every site, and its label. */
  const AllSitesValue: string := "ALL"
  const AllSitesLabel: string := "All Sites"

  /** Every `class` value is 0 or 1. */
  predicate BinaryOutcomes(data: Dataset)
  {
    forall x :: x in data ==> x.outcome == 0 || x.outcome == 1
  }

  /** Some row of the table was launched from `site`. */
  predicate HasSite(data: Dataset, site: string)
  {
    exists i :: 0 <= i < |data| && data[i].site == site
  }

  predicate InRange(x: LaunchRecord, range: PayloadRange)
  {
    range.low <= x.payloadMassKg <= range.high
  }

  // ---------------------------------------------------------------------
  // Boolean-mask row selection
  // ---------------------------------------------------------------------

  /** Boolean-mask row selection: the rows for which `keep` holds, in table order. */
  function Filter(data: Dataset, keep: LaunchRecord -> bool): (r: Dataset)
    ensures |r| <= |data|
    ensures forall x :: x in r <==> x in data && keep(x)
  {
    if data == [] then []
    else if keep(data[0]) then [data[0]] + Filter(data[1..], keep)
    else Filter(data[1..], keep)
  }

  /**
   The rows whose `Launch Site` equals the dropdown value `entered`
   (`None` when the dropdown has been cleared, which equals no site).
   */
  function AtSite(data: Dataset, entered: Option<string>): (r: Dataset)
    ensures |r| <= |data|
    ensures forall x :: x in r <==> x in data && entered == Some(x.site)
  {
    Filter(data, (x: LaunchRecord) => entered == Some(x.site))
  }

  /** The rows whose payload lies in `range`, both ends included. */
  function WithinRange(data: Dataset, range: PayloadRange): (r: Dataset)
    ensures |r| <= |data|
    ensures forall x :: x in r <==> x in data && InRange(x, range)
  {
    Filter(data, (x: LaunchRecord) => InRange(x, range))
  }

  /** No row at the chosen site leaves nothing: an empty frame, not an error. */
  lemma {:induction false} AtSiteEmpty(data: Dataset, entered: Option<string>)
    requires forall i :: 0 <= i < |data| ==> entered != Some(data[i].site)
    ensures AtSite(data, entered) == []
  {
    if data != [] {
      AtSiteEmpty(data[1..], entered);
    }
  }

  /** No payload in the range leaves nothing: an empty frame, not an error. */
  lemma {:induction false} WithinRangeEmpty(data: Dataset, range: PayloadRange)
    requires forall i :: 0 <= i < |data| ==> !InRange(data[i], range)
    ensures WithinRange(data, range) == []
  {
    if data != [] {
      WithinRangeEmpty(data[1..], range);
    }
  }

  /** `a` is `b` with some rows left out and the rest kept in their order. */
  predicate IsSubsequence(a: Dataset, b: Dataset)
  {
    a == [] ||
    (b != [] &&
     ((a[0] == b[0] && IsSubsequence(a[1..], b[1..])) || IsSubsequence(a, b[1..])))
  }

  /** The mask keeps the surviving rows in the table's order. */
  lemma {:induction false} FilterIsSubsequence(data: Dataset, keep: LaunchRecord -> bool)
    ensures IsSubsequence(Filter(data, keep), data)
  {
    if data != [] {
      FilterIsSubsequence(data[1..], keep);
      if keep(data[0]) {
        assert Filter(data, keep)[1..] == Filter(data[1..], keep);
      }
    }
  }

  /**
   The mask keeps every copy of every row it accepts and nothing else:
   together with FilterIsSubsequence this determines the selection exactly.
   */
  lemma {:induction false} FilterMultiplicity(data: Dataset, keep: LaunchRecord -> bool, x: LaunchRecord)
    ensures multiset(Filter(data, keep))[x] == if keep(x) then multiset(data)[x] else 0
  {
    if data != [] {
      FilterMultiplicity(data[1..], keep, x);
      assert data == [data[0]] + data[1..];
    }
  }

  /** Applying a second mask to a masked frame is one mask with both tests. */
  lemma {:induction false} FilterTwice(data: Dataset, p: LaunchRecord -> bool, q: LaunchRecord -> bool,
                                        both: LaunchRecord -> bool)
    requires forall x :: both(x) == (p(x) && q(x))
    ensures Filter(Filter(data, p), q) == Filter(data, both)
  {
    if data != [] {
      FilterTwice(data[1..], p, q, both);
      if p(data[0]) {
        assert Filter(data, p) == [data[0]] + Filter(data[1..], p);
        assert Filter(data, p)[1..] == Filter(data[1..], p);
      }
    }
  }

  /** Two masks that accept the same rows select the same frame. */
  lemma {:induction false} FilterSameMask(data: Dataset, p: LaunchRecord -> bool, q: LaunchRecord -> bool)
    requires forall x :: p(x) == q(x)
    ensures Filter(data, p) == Filter(data, q)
  {
    if data != [] {
      FilterSameMask(data[1..], p, q);
    }
  }

  /** A mask that rejects every row selects nothing: an empty frame, not an error. */
  lemma {:induction false} FilterKeepNone(data: Dataset, keep: LaunchRecord -> bool)
    requires forall i :: 0 <= i < |data| ==> !keep(data[i])
    ensures Filter(data, keep) == []
  {
    if data != [] {
      FilterKeepNone(data[1..], keep);
    }
  }

  /** A mask that accepts every row returns the frame unchanged. */
  lemma {:induction false} FilterKeepAll(data: Dataset, keep: LaunchRecord -> bool)
    requires forall i :: 0 <= i < |data| ==> keep(data[i])
    ensures Filter(data, keep) == data
  {
    if data != [] {
      FilterKeepAll(data[1..], keep);
      assert data == [data[0]] + data[1..];
    }
  }

  // ---------------------------------------------------------------------
  // Values computed from the table before the app starts
  // ---------------------------------------------------------------------

  /** The smallest payload mass of the table. */
  function MinPayload(data: Dataset): (m: int)
    requires data != []
    ensures forall i :: 0 <= i < |data| ==> m <= data[i].payloadMassKg
    ensures exists i :: 0 <= i < |data| && data[i].payloadMassKg == m
  {
    if |data| == 1 then data[0].payloadMassKg
    else
      var rest := MinPayload(data[1..]);
      if data[0].payloadMassKg <= rest then data[0].payloadMassKg else rest
  }

  /** The largest payload mass of the table. */
  function MaxPayload(data: Dataset): (m: int)
    requires data != []
    ensures forall i :: 0 <= i < |data| ==> data[i].payloadMassKg <= m
    ensures exists i :: 0 <= i < |data| && data[i].payloadMassKg == m
  {
    if |data| == 1 then data[0].payloadMassKg
    else
      var rest := MaxPayload(data[1..]);
      if data[0].payloadMassKg >= rest then data[0].payloadMassKg else rest
  }

  /**
   The slider's `[min, max]`. pandas gives NaN for both on an empty table;
   that is `None` here.
   */
  function PayloadBounds(data: Dataset): (r: Option<PayloadRange>)
    ensures r.None? <==> data == []
    ensures r.Some? ==> forall i :: 0 <= i < |data| ==> InRange(data[i], r.value)
    ensures r.Some? ==> exists i :: 0 <= i < |data| && data[i].payloadMassKg == r.value.low
    ensures r.Some? ==> exists j :: 0 <= j < |data| && data[j].payloadMassKg == r.value.high
  {
    if data == [] then None else Some(PayloadRange(MinPayload(data), MaxPayload(data)))
  }

  /** The `Launch Site` column. */
  function SiteColumn(data: Dataset): (r: seq<string>)
    ensures |r| == |data|
    ensures forall i :: 0 <= i < |data| ==> r[i] == data[i].site
  {
    if data == [] then [] else [data[0].site] + SiteColumn(data[1..])
  }

  /** The distinct launch sites of the table, sorted ascending. */
  function LaunchSites(data: Dataset): (r: seq<string>)
    ensures StrictlySorted(r)
    ensures forall s :: s in r <==> HasSite(data, s)
  {
    SortedDistinctIsSorted(SiteColumn(data));
    var r := SortedDistinct(SiteColumn(data));
    assert forall s :: s in SiteColumn(data) <==> HasSite(data, s) by {
      forall s | HasSite(data, s) ensures s in SiteColumn(data) {
        var i :| 0 <= i < |data| && data[i].site == s;
        assert SiteColumn(data)[i] == s;
      }
    }
    r
  }

  /** Any strictly ascending listing of the table's sites is LaunchSites. */
  lemma LaunchSitesUnique(data: Dataset, sites: seq<string>)
    requires StrictlySorted(sites)
    requires forall s :: s in sites <==> HasSite(data, s)
    ensures sites == LaunchSites(data)
  {
    StrictlySortedUnique(sites, LaunchSites(data));
  }

  /** The dropdown's options: the all-sites entry, then one entry per site of LaunchSites. */
  function SiteOptions(data: Dataset): (r: seq<DropdownOption>)
    ensures |r| == |LaunchSites(data)| + 1
    ensures r[0] == DropdownOption(AllSitesLabel, AllSitesValue)
    ensures forall i :: 1 <= i < |r| ==> r[i].caption == r[i].value == LaunchSites(data)[i - 1]
  {
    var sites := LaunchSites(data);
    [DropdownOption(AllSitesLabel, AllSitesValue)]
      + seq(|sites|, i requires 0 <= i < |sites| => DropdownOption(sites[i], sites[i]))
  }

  /**
   The dropdown lists "All Sites" first, then each site of the table exactly
   once, labelled by its own name, in strictly ascending order.
   */
  lemma SiteOptionsListing(data: Dataset)
    ensures var opts := SiteOptions(data);
      && opts[0] == DropdownOption(AllSitesLabel, AllSitesValue)
      && (forall i :: 1 <= i < |opts| ==> opts[i].caption == opts[i].value)
      && (forall i, j :: 1 <= i < j < |opts| ==> Less(opts[i].value, opts[j].value))
      && (forall s :: HasSite(data, s) <==> exists i :: 1 <= i < |opts| && opts[i].value == s)
  {
    var opts := SiteOptions(data);
    var sites := LaunchSites(data);
    forall s | HasSite(data, s) ensures exists i :: 1 <= i < |opts| && opts[i].value == s {
      var k :| 0 <= k < |sites| && sites[k] == s;
      assert opts[k + 1].value == s;
    }
    forall s | exists i :: 1 <= i < |opts| && opts[i].value == s ensures HasSite(data, s) {
      var i :| 1 <= i < |opts| && opts[i].value == s;
      assert sites[i - 1] == s;
    }
  }

  /**
   The option values are pairwise distinct exactly when no site is itself
   called "ALL"; such a site would be indistinguishable from "All Sites".
   */
  lemma SiteOptionValuesDistinct(data: Dataset)
    ensures var opts := SiteOptions(data);
      (forall i, j :: 0 <= i < j < |opts| ==> opts[i].value != opts[j].value)
      <==> !HasSite(data, AllSitesValue)
  {
    var opts := SiteOptions(data);
    var sites := LaunchSites(data);
    if HasSite(data, AllSitesValue) {
      var k :| 0 <= k < |sites| && sites[k] == AllSitesValue;
      assert opts[0].value == opts[k + 1].value;
    } else {
      forall i, j | 0 <= i < j < |opts| ensures opts[i].value != opts[j].value {
        if i == 0 {
          assert opts[j].value == sites[j - 1];
        } else {
          StrictlySortedHasNoDuplicates(sites, i - 1, j - 1);
        }
      }
    }
  }
}
