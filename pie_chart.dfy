/**
 The numbers behind the success pie chart. For the "ALL" value of the site
 dropdown the chart has one slice per launch site, sized by the sum of the
 `class` column over that site's rows; for any other value it has two
 slices, the number of successful and of failed launches at that site.
 */
module PieChart {
  import opened StringOrder
  import opened LaunchData

  /** One slice of the all-sites chart. */
  datatype SiteSuccesses = SiteSuccesses(site: string, successes: int)

  datatype PieData =
    | BySite(slices: seq<SiteSuccesses>)
    | SuccessFailure(success: nat, failure: nat)

  /** The sum of the `class` column. */
  function OutcomeSum(rows: Dataset): int
  {
    if rows == [] then 0 else rows[0].outcome + OutcomeSum(rows[1..])
  }

  /** The number of rows whose `class` equals `c`. */
  function CountOutcome(rows: Dataset, c: int): nat
  {
    if rows == [] then 0
    else (if rows[0].outcome == c then 1 else 0) + CountOutcome(rows[1..], c)
  }

  /** One slice per entry of `sites`: the `class` sum over that site's rows. */
  function GroupSums(data: Dataset, sites: seq<string>): (r: seq<SiteSuccesses>)
    ensures |r| == |sites|
    ensures forall i :: 0 <= i < |sites| ==> r[i].site == sites[i]
  {
    if sites == [] then []
    else [SiteSuccesses(sites[0], OutcomeSum(AtSite(data, Some(sites[0]))))] + GroupSums(data, sites[1..])
  }

  function TotalSuccesses(slices: seq<SiteSuccesses>): int
  {
    if slices == [] then 0 else slices[0].successes + TotalSuccesses(slices[1..])
  }

  /**
   The pie for dropdown value `entered`; `None` is a cleared dropdown, which
   matches no site.
   */
  function Pie(data: Dataset, entered: Option<string>): (r: PieData)
    ensures r.BySite? <==> entered == Some(AllSitesValue)
    ensures r.BySite? ==> |r.slices| == |LaunchSites(data)|
    ensures r.BySite? ==> forall i :: 0 <= i < |r.slices| ==> r.slices[i].site == LaunchSites(data)[i]
    ensures r.SuccessFailure? ==> r.success + r.failure <= |AtSite(data, entered)|
    ensures r.SuccessFailure? && BinaryOutcomes(data) ==> r.success + r.failure == |AtSite(data, entered)|
  {
    if entered == Some(AllSitesValue) then
      BySite(GroupSums(data, LaunchSites(data)))
    else
      var rows := AtSite(data, entered);
      SuccessesPlusFailures(rows);
      SuccessFailure(CountOutcome(rows, 1), CountOutcome(rows, 0))
  }

  // ---------------------------------------------------------------------
  // Counting
  // ---------------------------------------------------------------------

  /** With 0/1 outcomes, the `class` sum is the number of successes. */
  lemma {:induction false} OutcomeSumCountsSuccesses(rows: Dataset)
    requires BinaryOutcomes(rows)
    ensures OutcomeSum(rows) == CountOutcome(rows, 1)
  {
    if rows != [] {
      assert rows[0] in rows;
      assert BinaryOutcomes(rows[1..]) by {
        forall x | x in rows[1..] ensures x in rows { }
      }
      OutcomeSumCountsSuccesses(rows[1..]);
    }
  }

  /**
   Successes and failures never exceed the rows counted, and with 0/1
   outcomes they add up to exactly those rows.
   */
  lemma {:induction false} SuccessesPlusFailures(rows: Dataset)
    ensures CountOutcome(rows, 1) + CountOutcome(rows, 0) <= |rows|
    ensures BinaryOutcomes(rows) ==> CountOutcome(rows, 1) + CountOutcome(rows, 0) == |rows|
  {
    if rows != [] {
      assert rows[0] in rows;
      assert BinaryOutcomes(rows) ==> BinaryOutcomes(rows[1..]) by {
        forall x | x in rows[1..] ensures x in rows { }
      }
      SuccessesPlusFailures(rows[1..]);
    }
  }

  // ---------------------------------------------------------------------
  // One site
  // ---------------------------------------------------------------------

  /**
   For a specific site the pie holds that site's success and failure counts:
   they add up to the site's launches (0/1 outcomes) and are both zero for a
   site without launches.
   */
  lemma SiteBreakdown(data: Dataset, site: string)
    requires site != AllSitesValue
    ensures var pie := Pie(data, Some(site));
      && pie.SuccessFailure?
      && pie.success == CountOutcome(AtSite(data, Some(site)), 1)
      && pie.failure == CountOutcome(AtSite(data, Some(site)), 0)
      && pie.success + pie.failure <= |AtSite(data, Some(site))|
      && (BinaryOutcomes(data) ==> pie.success + pie.failure == |AtSite(data, Some(site))|)
      && (!HasSite(data, site) ==> pie.success == 0 && pie.failure == 0)
  {
    var rows := AtSite(data, Some(site));
    SuccessesPlusFailures(rows);
    if !HasSite(data, site) {
      AtSiteEmpty(data, Some(site));
    }
  }

  /** A cleared dropdown shows zero successes and zero failures, not an error. */
  lemma ClearedDropdown(data: Dataset)
    ensures Pie(data, None) == SuccessFailure(0, 0)
  {
    AtSiteEmpty(data, None);
  }

  // ---------------------------------------------------------------------
  // All sites
  // ---------------------------------------------------------------------

  lemma {:induction false} AtSiteFirst(data: Dataset, site: string)
    requires data != []
    ensures OutcomeSum(AtSite(data, Some(site)))
         == (if data[0].site == site then data[0].outcome else 0) + OutcomeSum(AtSite(data[1..], Some(site)))
  {
  }

  /** Summing the slices over distinct sites sees the first row at most once. */
  lemma {:induction false} GroupSumsFirst(data: Dataset, sites: seq<string>)
    requires data != [] && StrictlySorted(sites)
    ensures TotalSuccesses(GroupSums(data, sites))
         == (if data[0].site in sites then data[0].outcome else 0)
          + TotalSuccesses(GroupSums(data[1..], sites))
  {
    if sites != [] {
      GroupSumsFirst(data, sites[1..]);
      AtSiteFirst(data, sites[0]);
      if data[0].site == sites[0] {
        if data[0].site in sites[1..] {
          var k :| 0 <= k < |sites| - 1 && sites[1..][k] == data[0].site;
          StrictlySortedHasNoDuplicates(sites, 0, k + 1);
        }
      }
    }
  }

  /** Slices over a set of distinct sites covering every row add up to the whole `class` column. */
  lemma {:induction false} GroupSumsTotal(data: Dataset, sites: seq<string>)
    requires StrictlySorted(sites)
    requires forall i :: 0 <= i < |data| ==> data[i].site in sites
    ensures TotalSuccesses(GroupSums(data, sites)) == OutcomeSum(data)
  {
    if data == [] {
      GroupSumsOfEmpty(sites);
    } else {
      GroupSumsFirst(data, sites);
      GroupSumsTotal(data[1..], sites);
    }
  }

  lemma {:induction false} GroupSumsOfEmpty(sites: seq<string>)
    ensures TotalSuccesses(GroupSums([], sites)) == 0
  {
    if sites != [] {
      GroupSumsOfEmpty(sites[1..]);
    }
  }

  /**
   For "ALL" the pie has exactly one slice per distinct site, in ascending
   site order, and each slice is that site's `class` sum, which with 0/1
   outcomes is its number of successful launches.
   */
  lemma AllSitesSlices(data: Dataset)
    ensures var pie := Pie(data, Some(AllSitesValue));
      && pie.BySite?
      && |pie.slices| == |LaunchSites(data)|
      && (forall i, j :: 0 <= i < j < |pie.slices| ==> Less(pie.slices[i].site, pie.slices[j].site))
      && (forall s :: HasSite(data, s) <==> exists i :: 0 <= i < |pie.slices| && pie.slices[i].site == s)
      && (forall i :: 0 <= i < |pie.slices| ==>
            pie.slices[i].successes == OutcomeSum(AtSite(data, Some(pie.slices[i].site))))
      && (BinaryOutcomes(data) ==> forall i :: 0 <= i < |pie.slices| ==>
            pie.slices[i].successes == CountOutcome(AtSite(data, Some(pie.slices[i].site)), 1))
  {
    var sites := LaunchSites(data);
    var slices := GroupSums(data, sites);
    forall i | 0 <= i < |slices|
      ensures slices[i].successes == OutcomeSum(AtSite(data, Some(slices[i].site)))
    {
      GroupSumsAt(data, sites, i);
    }
    forall s | HasSite(data, s) ensures exists i :: 0 <= i < |slices| && slices[i].site == s {
      var k :| 0 <= k < |sites| && sites[k] == s;
      assert slices[k].site == s;
    }
    if BinaryOutcomes(data) {
      forall i | 0 <= i < |slices|
        ensures slices[i].successes == CountOutcome(AtSite(data, Some(slices[i].site)), 1)
      {
        OutcomeSumCountsSuccesses(AtSite(data, Some(slices[i].site)));
      }
    }
  }

  lemma {:induction false} GroupSumsAt(data: Dataset, sites: seq<string>, i: int)
    requires 0 <= i < |sites|
    ensures GroupSums(data, sites)[i].successes == OutcomeSum(AtSite(data, Some(sites[i])))
  {
    if i > 0 {
      GroupSumsAt(data, sites[1..], i - 1);
    }
  }

  /**
   The all-sites slices add up to the `class` sum of the whole table, which
   with 0/1 outcomes is the table's number of successful launches.
   */
  lemma AllSitesTotal(data: Dataset)
    ensures Pie(data, Some(AllSitesValue)).BySite?
    ensures TotalSuccesses(Pie(data, Some(AllSitesValue)).slices) == OutcomeSum(data)
    ensures BinaryOutcomes(data) ==>
      TotalSuccesses(Pie(data, Some(AllSitesValue)).slices) == CountOutcome(data, 1)
  {
    var sites := LaunchSites(data);
    forall i | 0 <= i < |data| ensures data[i].site in sites {
      assert HasSite(data, data[i].site);
    }
    GroupSumsTotal(data, sites);
    if BinaryOutcomes(data) {
      OutcomeSumCountsSuccesses(data);
    }
  }
}
