/** Parameter normalisation of the diplotype clustering entry points:
    the sort-flag default, the metric-name lookup and the cohort-size
    override of the advanced plot. */
module Params {
  import opened Wrappers

  /** The two dendrogram sort flags as passed on to the dendrogram. */
  datatype SortFlags = SortFlags(countSort: Option<bool>, distanceSort: Option<bool>)

  /** When the caller gives neither flag, count-sort is switched on and
      distance-sort off; when either is given, both pass through untouched. */
  function NormaliseSortFlags(countSort: Option<bool>, distanceSort: Option<bool>): (r: SortFlags)
    ensures countSort == None && distanceSort == None ==> r == SortFlags(Some(true), Some(false))
    ensures countSort != None || distanceSort != None ==> r == SortFlags(countSort, distanceSort)
    ensures r.countSort != None || r.distanceSort != None
  {
    if countSort.None? && distanceSort.None? then SortFlags(Some(true), Some(false))
    else SortFlags(countSort, distanceSort)
  }

  /** Normalising a second time changes nothing. */
  lemma NormaliseSortFlagsIdempotent(countSort: Option<bool>, distanceSort: Option<bool>)
    ensures var f := NormaliseSortFlags(countSort, distanceSort);
            NormaliseSortFlags(f.countSort, f.distanceSort) == f
  {
  }

  /** The two pairwise kernels of the utility module; their arithmetic is
      not part of this model. */
  datatype Kernel = MeanCityblock | MeanSqEuclidean

  /** The metric names the lookup recognises, one per kernel. */
  function MetricName(k: Kernel): (name: string)
    ensures name == "cityblock" || name == "euclidean"
  {
    match k
    case MeanCityblock => "cityblock"
    case MeanSqEuclidean => "euclidean"
  }

  /** The string-to-kernel lookup. It has no fallback: any other name
      leaves the kernel unbound, which is None here. */
  function SelectMetric(distanceMetric: string): (r: Option<Kernel>)
    ensures r == Some(MeanCityblock) <==> distanceMetric == "cityblock"
    ensures r == Some(MeanSqEuclidean) <==> distanceMetric == "euclidean"
    ensures r == None <==> distanceMetric != "cityblock" && distanceMetric != "euclidean"
  {
    if distanceMetric == "cityblock" then Some(MeanCityblock)
    else if distanceMetric == "euclidean" then Some(MeanSqEuclidean)
    else None
  }

  /** The lookup and the enumeration of names are inverse to each other:
      a name selects a kernel exactly when it is that kernel's name. */
  lemma {:induction false} SelectMetricInvertsMetricName(distanceMetric: string, k: Kernel)
    ensures SelectMetric(distanceMetric) == Some(k) <==> MetricName(k) == distanceMetric
  {
    match k
    case MeanCityblock =>
      assert MetricName(k) == "cityblock";
    case MeanSqEuclidean =>
      assert MetricName(k) == "euclidean";
      assert "euclidean" != "cityblock";
  }

  /** The advanced plot drops the cohort size when the amino-acid track
      is requested; a cohort size of 0 is falsy and is left as it is. */
  function OverrideCohortSize(cohortSize: Option<int>, aminoAcids: bool): (r: Option<int>)
    ensures r == None || r == cohortSize
    ensures aminoAcids ==> r == None || r == Some(0)
    ensures !aminoAcids ==> r == cohortSize
    ensures cohortSize == None || cohortSize == Some(0) ==> r == cohortSize
  {
    if cohortSize.Some? && cohortSize.value != 0 && aminoAcids then None else cohortSize
  }
}
