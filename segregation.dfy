/** The distance step: allele counting, removal of non-segregating sites,
    per-sample dosage vectors and the call into the pairwise-distance
    routine. The allele-counting library calls are stated here by the
    contract the code relies on; the distance kernels stay uninterpreted. */
module Segregation {
  import opened Wrappers
  import opened Params
  import opened Selection

  /** Alleles 0..MaxAllele are counted (max_allele=3); every other call,
      the missing-call sentinel -1 included, is not. */
  const MaxAllele: int := 3
  const NumAlleles: nat := 4

  /** The calls of one sample at one site, one per chromosome copy. */
  type Diplotype = seq<int>
  /** A genotype array, indexed [site][sample][ploidy]. */
  type Genotypes = seq<seq<Diplotype>>
  /** A dosage array, indexed [sample][site][allele]. */
  type Dosages = seq<seq<seq<nat>>>

  /** What numpy guarantees of a genotype array: every site has the same
      number of samples and every call the same ploidy. */
  predicate Rectangular(gt: Genotypes, nSamples: nat, ploidy: nat) {
    && (forall v :: 0 <= v < |gt| ==> |gt[v]| == nSamples)
    && (forall v, s :: 0 <= v < |gt| && 0 <= s < |gt[v]| ==> |gt[v][s]| == ploidy)
  }

  /** Genotype calls as loaded for a region: the array and its sample ids. */
  datatype SnpCalls = SnpCalls(gt: Genotypes, sampleIds: seq<string>, ploidy: nat)
  type CallSet = c: SnpCalls | Rectangular(c.gt, |c.sampleIds|, c.ploidy)
    witness SnpCalls([], [], 2)

  /** Number of calls in `d` equal to allele `a`. */
  function Occurrences(d: Diplotype, a: int): (n: nat)
    ensures n <= |d|
    ensures n > 0 <==> a in d
  {
    if d == [] then 0 else (if d[0] == a then 1 else 0) + Occurrences(d[1..], a)
  }

  /** Number of calls in `d` that no allele count includes. */
  function Uncounted(d: Diplotype): nat {
    if d == [] then 0
    else (if 0 <= d[0] <= MaxAllele then 0 else 1) + Uncounted(d[1..])
  }

  function Sum(xs: seq<nat>): nat {
    if xs == [] then 0 else xs[0] + Sum(xs[1..])
  }

  /** to_allele_counts(max_allele=3) for one call: the dosage vector. */
  function ToAlleleCounts(d: Diplotype): (c: seq<nat>)
    ensures |c| == NumAlleles
    // Each allele's dosage is at most the ploidy, and positive exactly when
    // the call carries that allele.
    ensures forall a :: 0 <= a < NumAlleles ==> c[a] <= |d| && (c[a] > 0 <==> a in d)
  {
    seq(NumAlleles, a requires 0 <= a < NumAlleles => Occurrences(d, a))
  }

  /** Total count of allele `a` over all samples at one site. */
  function AlleleCount(site: seq<Diplotype>, a: int): nat {
    if site == [] then 0
    else AlleleCount(site[..|site| - 1], a) + Occurrences(site[|site| - 1], a)
  }

  /** Allele `a` is carried by some sample's call at the site. */
  predicate Observed(site: seq<Diplotype>, a: int) {
    exists s :: 0 <= s < |site| && a in site[s]
  }

  lemma {:induction false} AlleleCountPositive(site: seq<Diplotype>, a: int)
    ensures AlleleCount(site, a) > 0 <==> Observed(site, a)
  {
    if site != [] {
      var init := site[..|site| - 1];
      AlleleCountPositive(init, a);
      if Observed(init, a) {
        var s :| 0 <= s < |init| && a in init[s];
        assert a in site[s];
      }
      if Observed(site, a) {
        var s :| 0 <= s < |site| && a in site[s];
        if s < |init| {
          assert a in init[s];
        }
      }
    }
  }

  /** count_alleles(max_allele=3) for one site: an allele's count is
      positive exactly when some sample carries it. */
  function CountAlleles(site: seq<Diplotype>): (ac: seq<nat>)
    ensures |ac| == NumAlleles
    ensures forall a :: 0 <= a < NumAlleles ==> (ac[a] > 0 <==> Observed(site, a))
  {
    forall a | 0 <= a < NumAlleles ensures AlleleCount(site, a) > 0 <==> Observed(site, a) {
      AlleleCountPositive(site, a);
    }
    seq(NumAlleles, a requires 0 <= a < NumAlleles => AlleleCount(site, a))
  }

  /** Number of alleles with a positive count. */
  function Allelism(ac: seq<nat>): nat {
    if ac == [] then 0 else (if ac[0] > 0 then 1 else 0) + Allelism(ac[1..])
  }

  /** is_segregating: more than one allele is observed at the site. */
  predicate IsSegregating(site: seq<Diplotype>): (b: bool)
    ensures b <==> exists a, c :: 0 <= a < c < NumAlleles && Observed(site, a) && Observed(site, c)
  {
    var ac := CountAlleles(site);
    AllelismAboveOne(ac);
    Allelism(ac) > 1
  }

  /** The allelism test means exactly that two different alleles have a
      positive count. */
  lemma {:induction false} AllelismAboveOne(ac: seq<nat>)
    ensures Allelism(ac) > 1 <==> exists a, b :: 0 <= a < b < |ac| && ac[a] > 0 && ac[b] > 0
  {
    if ac != [] {
      AllelismAboveOne(ac[1..]);
      AllelismPositive(ac[1..]);
      if Allelism(ac) > 1 {
        if ac[0] > 0 {
          var b :| 0 <= b < |ac[1..]| && ac[1..][b] > 0;
          assert ac[0] > 0 && ac[b + 1] > 0;
        } else {
          var a, b :| 0 <= a < b < |ac[1..]| && ac[1..][a] > 0 && ac[1..][b] > 0;
          assert ac[a + 1] > 0 && ac[b + 1] > 0;
        }
      }
      if exists a, b :: 0 <= a < b < |ac| && ac[a] > 0 && ac[b] > 0 {
        var a, b :| 0 <= a < b < |ac| && ac[a] > 0 && ac[b] > 0;
        if a == 0 {
          assert ac[1..][b - 1] > 0;
        } else {
          assert ac[1..][a - 1] > 0 && ac[1..][b - 1] > 0;
        }
      }
    }
  }

  lemma {:induction false} AllelismPositive(ac: seq<nat>)
    ensures Allelism(ac) > 0 <==> exists b :: 0 <= b < |ac| && ac[b] > 0
  {
    if ac != [] {
      AllelismPositive(ac[1..]);
      if Allelism(ac[1..]) > 0 {
        var b :| 0 <= b < |ac[1..]| && ac[1..][b] > 0;
        assert ac[b + 1] > 0;
      }
      if exists b :: 0 <= b < |ac| && ac[b] > 0 {
        var b :| 0 <= b < |ac| && ac[b] > 0;
        if b > 0 { assert ac[1..][b - 1] > 0; }
      }
    }
  }

  /** gt.compress(is_segregating, axis=0): the segregating sites, in order. */
  function Compress(gt: Genotypes): (r: Genotypes)
    ensures |r| <= |gt|
    ensures forall site :: site in r ==> site in gt && IsSegregating(site)
    ensures forall v :: 0 <= v < |gt| && IsSegregating(gt[v]) ==> gt[v] in r
  {
    if gt == [] then []
    else
      var rest := Compress(gt[..|gt| - 1]);
      assert forall v :: 0 <= v < |gt| - 1 ==> gt[v] == gt[..|gt| - 1][v];
      if IsSegregating(gt[|gt| - 1]) then rest + [gt[|gt| - 1]] else rest
  }

  /** Indices of the segregating sites. */
  ghost function SegregatingSites(gt: Genotypes): set<nat> {
    set v: nat | v < |gt| && IsSegregating(gt[v])
  }

  /** Adding a site adds its index exactly when it segregates. */
  lemma SegregatingSitesSnoc(gt: Genotypes)
    requires gt != []
    ensures var n := |gt| - 1;
      SegregatingSites(gt) == SegregatingSites(gt[..n]) + (if IsSegregating(gt[n]) then {n} else {})
  {
    var n := |gt| - 1;
    var init := gt[..n];
    forall v: nat | v < n ensures gt[v] == init[v] {
    }
  }

  /** n_snps: the number of sites kept is the number of segregating sites. */
  lemma {:induction false} CompressCount(gt: Genotypes)
    ensures |Compress(gt)| == |SegregatingSites(gt)|
  {
    if gt != [] {
      var n := |gt| - 1;
      CompressCount(gt[..n]);
      SegregatingSitesSnoc(gt);
      var before := SegregatingSites(gt[..n]);
      assert n !in before;
      var extra: set<nat> := if IsSegregating(gt[n]) then {n} else {};
      assert |before + extra| == |before| + |extra|;
    }
  }

  /** ac.is_segregating(): one flag per site. */
  function SegregatingMask(gt: Genotypes): (mask: seq<bool>)
    ensures |mask| == |gt| && forall v :: 0 <= v < |gt| ==> (mask[v] <==> IsSegregating(gt[v]))
  {
    seq(|gt|, v requires 0 <= v < |gt| => IsSegregating(gt[v]))
  }

  /** gt.compress(mask, axis=0) is gt[mask]: exactly the segregating sites,
      in their original order and multiplicity. */
  lemma {:induction false} CompressInOrder(gt: Genotypes)
    ensures Selected(Compress(gt), gt, SegregatingMask(gt))
  {
    if gt != [] {
      var n := |gt| - 1;
      CompressInOrder(gt[..n]);
      assert SegregatingMask(gt)[..n] == SegregatingMask(gt[..n]);
      SelectedSnoc(Compress(gt[..n]), gt, SegregatingMask(gt));
    } else {
      assert Positions(SegregatingMask(gt)) == [];
    }
  }

  /** Shape is kept by the filter. */
  lemma CompressRectangular(gt: Genotypes, nSamples: nat, ploidy: nat)
    requires Rectangular(gt, nSamples, ploidy)
    ensures Rectangular(Compress(gt), nSamples, ploidy)
  {
    var r := Compress(gt);
    forall v | 0 <= v < |r| ensures |r[v]| == nSamples {
      assert r[v] in r;
    }
    forall v, s | 0 <= v < |r| && 0 <= s < |r[v]| ensures |r[v][s]| == ploidy {
      assert r[v] in r;
    }
  }

  /** np.swapaxes of the per-call dosage vectors: [site][sample] becomes
      [sample][site]. */
  function DosageArray(gtSeg: Genotypes, nSamples: nat): (x: Dosages)
    requires forall v :: 0 <= v < |gtSeg| ==> |gtSeg[v]| == nSamples
    ensures |x| == nSamples
    ensures forall s :: 0 <= s < nSamples ==> |x[s]| == |gtSeg|
    ensures forall s, v :: 0 <= s < nSamples && 0 <= v < |gtSeg| ==> x[s][v] == ToAlleleCounts(gtSeg[v][s])
  {
    seq(nSamples, s requires 0 <= s < nSamples =>
      seq(|gtSeg|, v requires 0 <= v < |gtSeg| => ToAlleleCounts(gtSeg[v][s])))
  }

  /** The four allele counts of one call cover every call except the ones
      outside 0..MaxAllele. */
  lemma {:induction false} OccurrencesCover(d: Diplotype)
    ensures Occurrences(d, 0) + Occurrences(d, 1) + Occurrences(d, 2) + Occurrences(d, 3) + Uncounted(d) == |d|
  {
    if d != [] {
      OccurrencesCover(d[1..]);
    }
  }

  /** A dosage vector sums to the ploidy less the uncounted calls, hence
      never to more than the ploidy, and exactly to it when every call is
      one of the counted alleles. */
  lemma DosageSum(d: Diplotype)
    ensures Sum(ToAlleleCounts(d)) + Uncounted(d) == |d|
    ensures Sum(ToAlleleCounts(d)) <= |d|
  {
    var c := ToAlleleCounts(d);
    OccurrencesCover(d);
    SumOfFour(c);
  }

  lemma SumOfFour(c: seq<nat>)
    requires |c| == 4
    ensures Sum(c) == c[0] + c[1] + c[2] + c[3]
  {
    assert Sum(c) == c[0] + Sum(c[1..]);
    assert Sum(c[1..]) == c[1] + Sum(c[2..]) by { assert c[1..][1..] == c[2..]; }
    assert Sum(c[2..]) == c[2] + Sum(c[3..]) by { assert c[2..][1..] == c[3..]; }
    assert Sum(c[3..]) == c[3] by { assert c[3..][1..] == []; }
  }

  /** Every dosage vector of the dosage array sums to at most the ploidy. */
  lemma DosagesWithinPloidy(gt: Genotypes, nSamples: nat, ploidy: nat)
    requires Rectangular(gt, nSamples, ploidy)
    ensures var gtSeg := Compress(gt);
            Rectangular(gtSeg, nSamples, ploidy) &&
            var x := DosageArray(gtSeg, nSamples);
            forall s, v :: 0 <= s < nSamples && 0 <= v < |gtSeg| ==> Sum(x[s][v]) <= ploidy
  {
    var gtSeg := Compress(gt);
    CompressRectangular(gt, nSamples, ploidy);
    var x := DosageArray(gtSeg, nSamples);
    forall s, v | 0 <= s < nSamples && 0 <= v < |gtSeg| ensures Sum(x[s][v]) <= ploidy {
      DosageSum(gtSeg[v][s]);
    }
  }

  /** Sum over the first n samples of the dosage of allele a at site v. */
  function SampleTotal(x: Dosages, v: nat, a: nat, n: nat): nat
    requires n <= |x|
    requires forall s :: 0 <= s < |x| ==> v < |x[s]| && a < |x[s][v]|
  {
    if n == 0 then 0 else SampleTotal(x, v, a, n - 1) + x[n - 1][v][a]
  }

  /** The per-sample dosages at a kept site add up to the site's allele
      counts: the two library calls agree. */
  lemma {:induction false} DosagesAddUpToAlleleCounts(gtSeg: Genotypes, nSamples: nat, v: nat, a: nat, n: nat)
    requires forall w :: 0 <= w < |gtSeg| ==> |gtSeg[w]| == nSamples
    requires v < |gtSeg| && a < NumAlleles && n <= nSamples
    ensures SampleTotal(DosageArray(gtSeg, nSamples), v, a, n) == AlleleCount(gtSeg[v][..n], a)
  {
    if n > 0 {
      DosagesAddUpToAlleleCounts(gtSeg, nSamples, v, a, n - 1);
      assert gtSeg[v][..n][..n - 1] == gtSeg[v][..n - 1];
    }
  }

  /** At a kept site two different alleles have positive total dosage. */
  lemma KeptSiteHasTwoAlleles(gtSeg: Genotypes, nSamples: nat, v: nat)
    requires forall w :: 0 <= w < |gtSeg| ==> |gtSeg[w]| == nSamples
    requires v < |gtSeg| && IsSegregating(gtSeg[v])
    ensures var x := DosageArray(gtSeg, nSamples);
            exists a, b :: 0 <= a < b < NumAlleles &&
              SampleTotal(x, v, a, nSamples) > 0 && SampleTotal(x, v, b, nSamples) > 0
  {
    var x := DosageArray(gtSeg, nSamples);
    var ac := CountAlleles(gtSeg[v]);
    AllelismAboveOne(ac);
    var a, b :| 0 <= a < b < |ac| && ac[a] > 0 && ac[b] > 0;
    assert gtSeg[v][..nSamples] == gtSeg[v];
    DosagesAddUpToAlleleCounts(gtSeg, nSamples, v, a, nSamples);
    DosagesAddUpToAlleleCounts(gtSeg, nSamples, v, b, nSamples);
  }

  /** The dosage array X of the segregating sites: one row per sample,
      one column per kept site, one dosage vector of NumAlleles per cell. */
  function SegregatingDosages(calls: CallSet): (x: Dosages)
    ensures |x| == |calls.sampleIds|
    ensures forall s :: 0 <= s < |x| ==> |x[s]| == |SegregatingSites(calls.gt)|
    ensures forall s, v :: 0 <= s < |x| && 0 <= v < |x[s]| ==>
      |x[s][v]| == NumAlleles && Sum(x[s][v]) <= calls.ploidy
  {
    DosagesWithinPloidy(calls.gt, |calls.sampleIds|, calls.ploidy);
    CompressCount(calls.gt);
    DosageArray(Compress(calls.gt), |calls.sampleIds|)
  }

  /** The triple the distance step returns and the cache stores. */
  datatype Results = Results(dist: seq<real>, gtSamples: seq<string>, nSnps: nat)

  /** The pairwise-distance routine of the utility module, applied to a
      dosage array with a kernel; its values are not modelled. */
  type PairwiseDistance = (Dosages, Kernel) -> seq<real>

  /** _diplotype_pairwise_distances once the calls are loaded. */
  function DistancesFromCalls(calls: CallSet, distanceMetric: string, pdist: PairwiseDistance): (r: Result<Results>)
    ensures r.Err? <==> SelectMetric(distanceMetric) == None
    ensures r.Err? ==> r.error == UnboundMetric
    ensures r.Ok? ==> r.value.gtSamples == calls.sampleIds
    ensures r.Ok? ==> r.value.nSnps == |SegregatingSites(calls.gt)|
    ensures r.Ok? ==> r.value.dist == pdist(SegregatingDosages(calls), SelectMetric(distanceMetric).value)
  {
    var metric := SelectMetric(distanceMetric);
    var x := SegregatingDosages(calls);
    CompressCount(calls.gt);
    if metric.None? then Err(UnboundMetric)
    else Ok(Results(pdist(x, metric.value), calls.sampleIds, |Compress(calls.gt)|))
  }
}
