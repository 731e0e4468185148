# Diplotype clustering: a Dafny model

This project models the diplotype clustering component of `malariagen_data`
(`malariagen_data/anoph/dipclust.py`). The component computes pairwise
distances between the diplotypes of a set of mosquito samples over a genomic
region and draws them as a dendrogram. The "advanced" variant adds tracks
under the dendrogram, each aligned to its leaf order: per-sample
heterozygosity, one copy-number (CNV) bar per gene, and amino-acid variant
allele counts.

The model covers the parts of that component that compute rather than draw:

- `Params`: the defaults and parameter rules. Without sort flags the
  dendrogram uses count sorting. The two distance kernels are looked up by
  name; any other name leaves the kernel unbound. A cohort size is dropped
  when amino-acid variants are asked for.
- `Selection`: boolean-mask selection as numpy and pandas do it: the
  elements at the positions where the mask holds, in order. The site
  filter, the missing-sample list, `filter(like=)` and the frequency
  filter are each proved to be such a selection.
- `Segregation`: allele counting at `max_allele=3`, removal of
  non-segregating sites, the per-sample allele-dosage array and the SNP
  count. The distance kernel itself is a parameter.
- `Caching`: the memoised `diplotype_pairwise_distances` as a class
  holding a map of stored results, keyed by a versioned name and the
  normalised parameters.
- `LeafOrder`: `extract_dendro_sample_order` as a method with the source's
  loop. It is followed by the sort by leaf position, which yields
  `x_range` and `dendro_sample_id_order`.
- `Tracks`: the re-indexing of the heterozygosity, CNV and amino-acid
  frames in dendrogram order, as pandas `.loc` does it. This includes
  filling in the samples with no CNV call, the `count_` column selection,
  the minor-allele-frequency row filter and the amino-acid row height.
- `Composite`: the `figures` and `row_heights` lists of the advanced plot,
  held in a class whose methods append to both in lock-step, and the driver
  that builds them track by track.
- `Titles`: the two title formats, including Python's thousands grouping
  `{:,}`.

Python exceptions become the `Err` side of a `Result`. The constructors of
`Wrappers.Exception` name them: `UnboundLocalError` for an unknown metric;
the `ValueError` of `np.concatenate([])` and of a frame built from columns of
unequal length; the `KeyError` of `.loc`; and the `IndexError` of
`CN_mode.values[0]` when there is no gene.

## Model

| member | source | states |
|---|---|---|
| Params.NormaliseSortFlags | malariagen_data/anoph/dipclust.py:90-92 | with neither flag given, count sorting is on and distance sorting off; any given flag is kept as given; the result never has both flags absent |
| Params.NormaliseSortFlagsIdempotent | malariagen_data/anoph/dipclust.py:90-92 | applying the default a second time changes nothing |
| Params.SelectMetric | malariagen_data/anoph/dipclust.py:256-259 | "cityblock" selects the mean city-block kernel, "euclidean" the mean squared-Euclidean kernel, and any other name selects nothing |
| Params.SelectMetricInvertsMetricName | malariagen_data/anoph/dipclust.py:256-259 | a name selects a kernel exactly when it is that kernel's name |
| Params.OverrideCohortSize | malariagen_data/anoph/dipclust.py:558-559 | with amino acids requested, a non-zero cohort size is dropped; without them, or with no cohort size or a cohort size of 0 (falsy), the cohort size is unchanged |
| Segregation.ToAlleleCounts | malariagen_data/anoph/dipclust.py:281 | one dosage per allele 0 to 3; each is at most the ploidy, and positive exactly when the call carries that allele |
| Segregation.CountAlleles | malariagen_data/anoph/dipclust.py:279 | one count per allele 0 to 3; a count is positive exactly when some sample carries that allele at the site |
| Segregation.IsSegregating | malariagen_data/anoph/dipclust.py:280 | a site segregates exactly when two different alleles among 0 to 3 are each carried by some sample |
| Segregation.AllelismAboveOne | malariagen_data/anoph/dipclust.py:279-280 | a site is segregating exactly when two different alleles are both observed at it |
| Segregation.Compress | malariagen_data/anoph/dipclust.py:280 | every kept site is a segregating site of the input, every segregating site is kept, and no site is added |
| Segregation.SegregatingMask | malariagen_data/anoph/dipclust.py:280 | one flag per site, true exactly at the segregating sites |
| Segregation.CompressInOrder | malariagen_data/anoph/dipclust.py:280 | the filtered array is gt[mask] for that mask: every segregating site and only those, in their original order and with their multiplicity |
| Selection.PositionsFacts | malariagen_data/anoph/dipclust.py:280 | the positions a mask selects are every position where it holds, only those, in ascending order |
| Segregation.CompressCount | malariagen_data/anoph/dipclust.py:280-295 | n_snps, the number of kept sites, equals the number of segregating sites of the input |
| Segregation.CompressRectangular | malariagen_data/anoph/dipclust.py:280 | removing sites keeps every remaining site at the same number of samples and the same ploidy |
| Segregation.DosageArray | malariagen_data/anoph/dipclust.py:281-282 | the samples-by-sites-by-4 array holds, at each sample and site, the counts of alleles 0 to 3 in that call |
| Segregation.DosagesWithinPloidy | malariagen_data/anoph/dipclust.py:281-282 | at each sample and site the dosages add up to at most the ploidy; missing calls count for nothing |
| Segregation.DosagesAddUpToAlleleCounts | malariagen_data/anoph/dipclust.py:279-282 | summing one allele's dosage over the samples gives that allele's count at the site |
| Segregation.KeptSiteHasTwoAlleles | malariagen_data/anoph/dipclust.py:279-282 | after filtering, every site of the dosage array carries at least two distinct observed alleles |
| Segregation.SegregatingDosages | malariagen_data/anoph/dipclust.py:279-282 | the array given to the distance routine has one row per sample, one entry per segregating site, and four dosages within the ploidy |
| Segregation.DistancesFromCalls | malariagen_data/anoph/dipclust.py:244-296 | an unknown metric fails as an unbound name; otherwise the result holds the distances over the segregating dosages, the loaded sample ids, and the number of segregating sites |
| Caching.Compute | malariagen_data/anoph/dipclust.py:244-296 | fails exactly when the metric is neither "cityblock" nor "euclidean"; otherwise the SNP count is the number of segregating sites and the sample ids those loaded |
| Caching.StoredEntriesAreWellFormed | malariagen_data/anoph/dipclust.py:229-242 | every stored entry was computed with a valid metric; its SNP count is the segregating-site count and its sample ids those loaded |
| Caching.ResultsCache.Get | malariagen_data/anoph/dipclust.py:231 | a hit exactly when the key is stored, returning the stored entry |
| Caching.ResultsCache.Set | malariagen_data/anoph/dipclust.py:235 | the entry under the key is replaced, the others unchanged |
| Caching.ResultsCache.DiplotypePairwiseDistances | malariagen_data/anoph/dipclust.py:213-242 | hit or miss, the answer is the computation's. A hit returns the stored triple and changes nothing. A miss runs the computation once and stores a successful result under the versioned name. The stored entries stay consistent with the computation |
| Caching.RepeatedCall | malariagen_data/anoph/dipclust.py:229-242 | two calls with equal parameters agree; after a success the result is stored; the computation runs at most once between them |
| LeafOrder.DendroOrderData | malariagen_data/anoph/dipclust.py:298-308 | fewer than two traces fail with nothing to concatenate; otherwise the only failure is a length mismatch; a frame has columns of equal length |
| LeafOrder.ExtractDendroSampleOrder | malariagen_data/anoph/dipclust.py:298-308 | fails with fewer than two traces (nothing to concatenate) or with columns of unequal length; otherwise it returns the concatenated x and hover-text arrays of traces 1 onwards, trace 0 skipped |
| LeafOrder.ColumnsStayPaired | malariagen_data/anoph/dipclust.py:302-308 | when every trace's arrays line up, the rows of the frame are the traces' (x, sample) pairs in order |
| LeafOrder.AlignedTracesExtract | malariagen_data/anoph/dipclust.py:298-308 | when the leaf traces (trace 0 skipped) line up, extraction succeeds exactly when there are at least two traces, and the two columns pair every marker's x with its own sample id |
| LeafOrder.SortByX | malariagen_data/anoph/dipclust.py:598-600 | the leaves come out ordered by x and are a permutation of the input leaves |
| LeafOrder.XRange | malariagen_data/anoph/dipclust.py:596 | x_range is ascending and holds the same positions as the frame, with multiplicity |
| LeafOrder.DendroSampleIdOrder | malariagen_data/anoph/dipclust.py:598-600 | the leaf order is a permutation of the frame's sample ids |
| LeafOrder.RangeAndOrderPaired | malariagen_data/anoph/dipclust.py:596-600 | position j of x_range and of the leaf order come from one row of the frame |
| LeafOrder.RangeStrictlySorted | malariagen_data/anoph/dipclust.py:596 | when no two leaves share a position, x_range rises strictly |
| Tracks.Loc | malariagen_data/anoph/dipclust.py:362 | selecting rows by label succeeds exactly when every label is in the index, and otherwise fails with a missing-label error |
| Tracks.LocUnique | malariagen_data/anoph/dipclust.py:362 | on a unique index, the selection is the value stored under each label, in label order |
| Tracks.HeterozygosityTrack | malariagen_data/anoph/dipclust.py:357-363 | a leaf with no heterozygosity value fails the track; a track has one row labelled "Sample Heterozygosity" over x_range |
| Tracks.HeterozygosityAligned | malariagen_data/anoph/dipclust.py:357-363 | with unique sample ids, the track exists exactly when every leaf has a value, and column j holds the value of the j-th leaf |
| Tracks.MissingSamples | malariagen_data/anoph/dipclust.py:440-441 | a sample is in the result exactly when it is clustered and has no CNV call |
| Tracks.MissingMask | malariagen_data/anoph/dipclust.py:440-441 | one flag per clustered sample, true exactly when the sample has no CNV call (the negated mask) |
| Tracks.MissingSamplesInOrder | malariagen_data/anoph/dipclust.py:440-441 | the result is samples[~mask]: the uncalled samples in their original order, duplicates included |
| Tracks.FilledCnvFrameRows | malariagen_data/anoph/dipclust.py:442-446 | the frame holds exactly the called and the clustered samples: the called ones first with their copy numbers, then each uncalled clustered sample with the "NaN" marker |
| Tracks.CnvTrack | malariagen_data/anoph/dipclust.py:419-452 | a leaf in neither the CNV calls nor the sample list fails; a track has one row labelled "CNV " plus the gene id over x_range |
| Tracks.CnvAligned | malariagen_data/anoph/dipclust.py:419-452 | with unique ids, the track exists exactly when every leaf is called or listed; column j holds that leaf's copy number, or the NaN marker when it had no call |
| Tracks.CnvOutcomeGeneIndependent | malariagen_data/anoph/dipclust.py:419-452 | whether a gene's track fails, and how, does not depend on the gene |
| Tracks.FilterLike | malariagen_data/anoph/dipclust.py:646 | a column is kept exactly when its name contains the pattern |
| Tracks.FilterLikeInOrder | malariagen_data/anoph/dipclust.py:646 | the kept columns are the matching ones in their original order, each with its own values |
| Tracks.FilterKeepsLoc | malariagen_data/anoph/dipclust.py:646-648 | filtering columns by a substring and then selecting labels that contain it gives the same result as selecting directly |
| Tracks.CountFilterIrrelevant | malariagen_data/anoph/dipclust.py:646-648 | selecting the count_ columns of the leaf order after filter(like="count_") gives the same result as selecting them from the whole table |
| Tracks.CountColumns | malariagen_data/anoph/dipclust.py:647 | the requested columns are "count_" followed by each leaf id, in leaf order, and every one of them passes the "count_" filter |
| Tracks.AboveMafCrossMultiplied | malariagen_data/anoph/dipclust.py:652-653 | a row passes the frequency filter exactly when there is a column and its allele count exceeds the threshold times twice the columns |
| Tracks.FilterRows | malariagen_data/anoph/dipclust.py:652-653 | the kept rows all pass the filter, every passing row is kept, and labels stay with their rows |
| Tracks.MafMask | malariagen_data/anoph/dipclust.py:652-653 | one flag per row, true exactly when the row passes AboveMaf: there is a column and count / (2 × columns) exceeds filter_min_maf |
| Tracks.FilterRowsInOrder | malariagen_data/anoph/dipclust.py:652-653 | the result is labels[mask] and rows[mask] for the af > filter_min_maf mask: the passing rows in their original order, with their labels |
| Tracks.AminoAcidTrack | malariagen_data/anoph/dipclust.py:646-653 | a leaf without a count column fails; the track lies over x_range with one cell per leaf in every row; with filter_min_maf zero every variant is kept, otherwise every kept row passes the filter |
| Tracks.AminoAcidFilterKeepsPassingRows | malariagen_data/anoph/dipclust.py:646-653 | with the filter on, the track exists exactly when the unfiltered one does, and its rows and labels are the unfiltered ones whose frequency passes, in their order |
| Tracks.AminoAcidsAligned | malariagen_data/anoph/dipclust.py:646-649 | with unique columns, column j of row k is variant k's count for the j-th leaf |
| Tracks.AminoAcidHeight | malariagen_data/anoph/dipclust.py:655 | the height is the larger of 0.2 and the row count over 100 |
| Composite.HeterozygosityStep | malariagen_data/anoph/dipclust.py:606-619 | added exactly when the heterozygosity track succeeds: its panel is that track and its height 0.012; on failure the track's error |
| Composite.CnvPanels | malariagen_data/anoph/dipclust.py:419-459 | the first n genes' tracks in gene order, failing exactly when some gene's track fails, with the first gene's error |
| Composite.CnvStep | malariagen_data/anoph/dipclust.py:400-461 | no CNV data adds nothing; data with no gene fails with an index error; otherwise it succeeds exactly when every gene's track does, panel i is the track of gene i with height 0.012, and a failure carries the first gene's error |
| Composite.AminoAcidStep | malariagen_data/anoph/dipclust.py:646-658 | added exactly when the amino-acid track succeeds: its panel is that track, its height max(rows / 100, 0.2) of that track; on failure the track's error |
| Composite.HetStepFor | malariagen_data/anoph/dipclust.py:606 | without heterozygosity nothing is added; with it, the heterozygosity step |
| Composite.CnvStepFor | malariagen_data/anoph/dipclust.py:621 | without a CNV region nothing is added; with one, the CNV step |
| Composite.AaStepFor | malariagen_data/anoph/dipclust.py:635 | without a transcript and amino acids nothing is added; with them, the amino-acid step |
| Composite.AdvancedLayout | malariagen_data/anoph/dipclust.py:594-658 | a failed leaf extraction fails the plot with its error; otherwise the plot fails exactly when a requested track fails; a plot starts with the dendrogram at height 0.2 |
| Composite.AdvancedLayoutShape | malariagen_data/anoph/dipclust.py:602-658 | figures and row heights have equal length: the dendrogram first at 0.2, then 0.012 per single-row track, and the amino-acid panel last with height max(rows / 100, 0.2) of the track drawn |
| Composite.AdvancedLayoutPanels | malariagen_data/anoph/dipclust.py:602-658 | the panels after the dendrogram are the aligned tracks themselves: the heterozygosity track, the CNV track of each gene in gene order, and the amino-acid track, each when requested |
| Composite.NoCnvDataOmitsPanel | malariagen_data/anoph/dipclust.py:400-416 | a CNV region without CNV data gives the same plot as no CNV region at all |
| Composite.CompositeView.AddHeterozygosity | malariagen_data/anoph/dipclust.py:606-619 | on success, one panel and 0.012 are appended to the two lists; on failure neither changes |
| Composite.CompositeView.AddCnvBars | malariagen_data/anoph/dipclust.py:400-461 | the loop appends one panel and 0.012 per gene, and the lists stay equal in length; on failure neither list changes |
| Composite.CompositeView.AddAminoAcids | malariagen_data/anoph/dipclust.py:646-658 | on success, the amino-acid panel and its height are appended; on failure neither list changes |
| Composite.PlotDiplotypeClusteringAdvanced | malariagen_data/anoph/dipclust.py:594-658 | building the lists step by step gives the layout that AdvancedLayout describes, errors included |
| Titles.Decimal | malariagen_data/anoph/dipclust.py:482 | only digits, with no leading zero |
| Titles.Grouped | malariagen_data/anoph/dipclust.py:151 | a comma appears exactly when the count is at least 1000, and the last group is a comma and three digits |
| Titles.GroupedCommasEveryThree | malariagen_data/anoph/dipclust.py:151 | the grouped count is a first group of one to three digits followed by zero or more groups of a comma and exactly three digits |
| Titles.DecimalRoundTrip | malariagen_data/anoph/dipclust.py:482 | the plain SNP count reads back as the count |
| Titles.GroupedIsDecimalWithCommas | malariagen_data/anoph/dipclust.py:151 | removing the thousands separators from the grouped count gives the plain decimal |
| Titles.GroupedRoundTrip | malariagen_data/anoph/dipclust.py:151 | the grouped count, without its commas, is all digits and reads back as the count |
| Titles.TitleLines | malariagen_data/anoph/dipclust.py:146-151 | one line each for the sample sets and the query when given, in that order, then always the region line last |
| Titles.Join | malariagen_data/anoph/dipclust.py:152 | no lines join to the empty string and a single line to itself |
| Titles.JoinLength | malariagen_data/anoph/dipclust.py:152 | joining adds exactly one separator between neighbouring lines |
| Titles.JoinEnds | malariagen_data/anoph/dipclust.py:152 | the joined text starts with the first line and ends with the last |
| Titles.Title | malariagen_data/anoph/dipclust.py:477-483 | the exact title in each of the four cases: the sample-set line and the query line when given, in that order, then the region line, separated by "<br>" |
| Titles.DendrogramTitle | malariagen_data/anoph/dipclust.py:145-152 | only an automatic title is replaced by the composed one; any other title argument passes through unchanged |

## Left out

- Rendering: `plot_dendrogram`, `plotly_imshow`, `make_subplots`,
  `concat_subplots`, the
  hover and colour set-up, the grey lines on the amino-acid panel, figure
  sizing and `show`/`renderer`. A panel in this model is the data it
  would draw.
- Data access: `snp_calls`, `gene_cnv`, `aa_allele_counts` and
  `sample_metadata` are inputs. The genotype calls come from a loader
  parameter, and the other tables are arguments of the driver.
- Composite.AdvancedLayout: `concat_subplots` sets the x-axis range with
  `np.max(x_range)`, which raises a ValueError when the dendrogram has no
  leaves. The model stops before `concat_subplots` and returns Ok there.
- The distance kernels and `multiallelic_diplotype_pdist` are an
  uninterpreted parameter, as is the hierarchical clustering that
  produces the dendrogram traces.
- The heterozygosity values (`is_het().mean`) are floating point and are
  taken as given per-sample reals, with no computation.
- Segregation.Compress: scikit-allel's `count_alleles` and
  `is_segregating` are modelled from their documented meaning: alleles
  0 to 3 are counted, and missing or out-of-range calls are ignored.
- LeafOrder.SortByX: pandas `sort_values` defaults to quicksort, which is
  not stable. The model's sort is a stable insertion sort, so it fixes the
  order of leaves with equal positions, which pandas leaves unspecified.
  `RangeStrictlySorted` covers the case where positions are distinct.
- Caching.ResultsCache: the cache starts empty. Persistence to disk and
  the parameter normalisation (`_prep_sample_sets_param`,
  `_prep_region_cache_param`) are left out, since the parameters are
  taken as already normalised.
- Segregation.DistancesFromCalls: in the source the unknown-metric error
  surfaces only after the genotypes are loaded. Without I/O the model has
  nothing that observes that order.
- Segregation.DistancesFromCalls: the code has no guard for a region
  with no segregating site. `n_snps` is then 0, and the distance
  routine receives an empty site axis. The model follows the code and
  passes that case through.
- HeterozygosityAligned, CnvAligned and AminoAcidsAligned assume unique
  sample ids and column names. With duplicates, `.loc` returns every
  match; `Tracks.Loc` models that, but these lemmas do not state it.
- Tracks.MissingSamples: with no clustered samples, `np.array([])` is a float array and `~mask` raises a TypeError; the model returns an empty list. No caller reaches this, since a dendrogram cannot be built from zero samples.
- Sample ids are strings; the `"U"` dtype conversion is not modelled.
- The recursion-limit increase, progress spinners and the returned
  figure object are left out; the composite title is the `Titles`
  function with the `Composite` style.
- Titles: sample sets and region are taken as already-formatted strings;
  Python's formatting of lists and region objects is not modelled.
- The heterozygosity track's own `snp_calls` reload is an input
  (`HetTable`), so its sample list need not match the clustering's.
