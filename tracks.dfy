/** The track aligner: per-sample values, keyed by sample id, laid out in
    the dendrogram's leaf order with the leaf positions as column labels.
    A frame here is an index of labels with one value per label; looking
    up a list of labels behaves as pandas .loc does. */
module Tracks {
  import opened Wrappers
  import opened Selection

  /** A one-column frame: an index of labels and the value of each row. */
  datatype Frame<V> = Frame(index: seq<string>, values: seq<V>)

  predicate WellFormed<V>(f: Frame<V>) {
    |f.index| == |f.values|
  }

  predicate Distinct(ids: seq<string>) {
    forall i, j :: 0 <= i < j < |ids| ==> ids[i] != ids[j]
  }

  /** A plotted track: row labels, column labels (leaf positions), cells
      indexed [row][column]. */
  datatype Heatmap<V> = Heatmap(rowLabels: seq<string>, columns: seq<real>, cells: seq<seq<V>>)

  /** The rows of `f` whose label is `key`, in index order. */
  function Matches<V>(f: Frame<V>, key: string): (r: seq<V>)
    requires WellFormed(f)
    ensures key !in f.index ==> r == []
    ensures key in f.index ==> |r| >= 1
    decreases |f.index|
  {
    if f.index == [] then []
    else (if f.index[0] == key then [f.values[0]] else []) + Matches(Frame(f.index[1..], f.values[1..]), key)
  }

  /** With a unique index a label that is present matches exactly its own row. */
  lemma {:induction false} MatchesUnique<V>(f: Frame<V>, k: nat)
    requires WellFormed(f) && Distinct(f.index) && k < |f.index|
    ensures Matches(f, f.index[k]) == [f.values[k]]
    decreases |f.index|
  {
    var tail := Frame(f.index[1..], f.values[1..]);
    assert Distinct(tail.index);
    if k == 0 {
      assert f.index[0] !in tail.index;
    } else {
      MatchesUnique(tail, k - 1);
    }
  }

  /** .loc with a list of labels: the matching rows label by label; a
      KeyError when some label is absent from the index. */
  function Loc<V>(f: Frame<V>, labels: seq<string>): (r: Result<seq<V>>)
    requires WellFormed(f)
    ensures r.Ok? <==> forall j :: 0 <= j < |labels| ==> labels[j] in f.index
    ensures r.Err? ==> r.error == MissingLabel
    ensures r.Ok? ==> |r.value| >= |labels|
  {
    if labels == [] then Ok([])
    else if labels[0] !in f.index then Err(MissingLabel)
    else
      match Loc(f, labels[1..])
      case Err(e) => Err(e)
      case Ok(rest) => Ok(Matches(f, labels[0]) + rest)
  }

  /** With a unique index, .loc picks one row per label: position j holds
      the value stored under labels[j]. */
  lemma {:induction false} LocUnique<V>(f: Frame<V>, labels: seq<string>)
    requires WellFormed(f) && Distinct(f.index)
    requires forall j :: 0 <= j < |labels| ==> labels[j] in f.index
    ensures Loc(f, labels).Ok?
    ensures |Loc(f, labels).value| == |labels|
    ensures forall j, k :: 0 <= j < |labels| && 0 <= k < |f.index| && f.index[k] == labels[j] ==>
      Loc(f, labels).value[j] == f.values[k]
  {
    if labels != [] {
      LocUnique(f, labels[1..]);
      var k0 :| 0 <= k0 < |f.index| && f.index[k0] == labels[0];
      MatchesUnique(f, k0);
      var r := Loc(f, labels).value;
      var rest := Loc(f, labels[1..]).value;
      assert r == [f.values[k0]] + rest;
      forall j, k | 0 <= j < |labels| && 0 <= k < |f.index| && f.index[k] == labels[j]
        ensures r[j] == f.values[k]
      {
        if j == 0 {
          assert k == k0;
        } else {
          assert labels[1..][j - 1] == labels[j];
        }
      }
    }
  }

  /** Setting the columns of a frame transposed to one row: the row must
      have one value per column label. */
  function RowTrack<V>(key: string, row: seq<V>, xRange: seq<real>): (r: Result<Heatmap<V>>)
    ensures r.Ok? <==> |row| == |xRange|
    ensures r.Err? ==> r.error == LengthMismatch
    ensures r.Ok? ==> r.value == Heatmap([key], xRange, [row])
  {
    if |row| != |xRange| then Err(LengthMismatch) else Ok(Heatmap([key], xRange, [row]))
  }

  // ---------------------------------------------------------------- heterozygosity

  const HeterozygosityLabel: string := "Sample Heterozygosity"

  /** The heterozygosity track: the per-sample values, frame indexed by
      sample id, taken in dendrogram order and labelled by x_range. */
  function HeterozygosityTrack(samples: seq<string>, het: seq<real>, order: seq<string>, xRange: seq<real>)
    : (r: Result<Heatmap<real>>)
    requires |samples| == |het|
    ensures (exists j :: 0 <= j < |order| && order[j] !in samples) ==> r == Err(MissingLabel)
    ensures r.Ok? ==> r.value.rowLabels == [HeterozygosityLabel] && r.value.columns == xRange
    ensures r.Ok? ==> |r.value.cells| == 1 && |r.value.cells[0]| == |xRange|
  {
    var frame := Frame(samples, het);
    match Loc(frame, order)
    case Err(e) => Err(e)
    case Ok(row) => RowTrack(HeterozygosityLabel, row, xRange)
  }

  /** With unique sample ids the heterozygosity row is exactly the values
      re-indexed in dendrogram order, one column per leaf, and it exists
      exactly when every leaf has a value. */
  lemma HeterozygosityAligned(samples: seq<string>, het: seq<real>, order: seq<string>, xRange: seq<real>)
    requires |samples| == |het| && Distinct(samples) && |order| == |xRange|
    ensures HeterozygosityTrack(samples, het, order, xRange).Ok? <==> forall j :: 0 <= j < |order| ==> order[j] in samples
    ensures var r := HeterozygosityTrack(samples, het, order, xRange);
      r.Ok? ==> forall j, k :: 0 <= j < |order| && 0 <= k < |samples| && samples[k] == order[j] ==>
        r.value.cells[0][j] == het[k]
  {
    if forall j :: 0 <= j < |order| ==> order[j] in samples {
      LocUnique(Frame(samples, het), order);
    }
  }

  // ---------------------------------------------------------------- copy number

  /** One cell of a CNV track: a modal copy number, or the "NaN" marker
      written for samples that have no CNV call. */
  datatype CnValue = Copies(n: int) | NaNMarker

  /** What gene_cnv returns: gene ids, sample ids and the modal copy
      number indexed [gene][sample]. */
  datatype GeneCnv = GeneCnv(geneIds: seq<string>, sampleIds: seq<string>, cnMode: seq<seq<int>>)

  /** The dataset's dimensions agree, as xarray guarantees. */
  predicate Shaped(d: GeneCnv) {
    |d.cnMode| == |d.geneIds| && forall i :: 0 <= i < |d.cnMode| ==> |d.cnMode[i]| == |d.sampleIds|
  }

  type CnvCalls = d: GeneCnv | Shaped(d) witness GeneCnv([], [], [])

  function ToCopies(ns: seq<int>): (r: seq<CnValue>)
    ensures |r| == |ns| && forall k :: 0 <= k < |ns| ==> r[k] == Copies(ns[k])
  {
    seq(|ns|, k requires 0 <= k < |ns| => Copies(ns[k]))
  }

  /** samples[~mask]: the clustered samples without a CNV call, in order. */
  function MissingSamples(samples: seq<string>, called: seq<string>): (r: seq<string>)
    ensures forall s :: s in r <==> s in samples && s !in called
  {
    if samples == [] then []
    else (if samples[0] in called then [] else [samples[0]]) + MissingSamples(samples[1..], called)
  }

  /** ~mask: true for each clustered sample without a CNV call. */
  function MissingMask(samples: seq<string>, called: seq<string>): (mask: seq<bool>)
    ensures |mask| == |samples| && forall i :: 0 <= i < |samples| ==> (mask[i] <==> samples[i] !in called)
  {
    seq(|samples|, i requires 0 <= i < |samples| => samples[i] !in called)
  }

  /** samples[~mask] keeps the uncalled samples in their order, duplicates
      included. */
  lemma {:induction false} MissingSamplesInOrder(samples: seq<string>, called: seq<string>)
    ensures Selected(MissingSamples(samples, called), samples, MissingMask(samples, called))
  {
    if samples != [] {
      MissingSamplesInOrder(samples[1..], called);
      assert MissingMask(samples, called)[1..] == MissingMask(samples[1..], called);
      SelectedCons(MissingSamples(samples[1..], called), samples, MissingMask(samples, called));
    } else {
      assert Positions(MissingMask(samples, called)) == [];
    }
  }

  lemma {:induction false} MissingSamplesDistinct(samples: seq<string>, called: seq<string>)
    requires Distinct(samples)
    ensures Distinct(MissingSamples(samples, called))
  {
    if samples != [] {
      assert Distinct(samples[1..]);
      MissingSamplesDistinct(samples[1..], called);
      assert samples[0] !in samples[1..];
    }
  }

  /** The called samples' copy numbers for gene i, followed by the "NaN"
      marker for each clustered sample without a call (pd.concat). */
  function FilledCnvFrame(d: CnvCalls, i: nat, samples: seq<string>): (f: Frame<CnValue>)
    requires i < |d.geneIds|
    ensures WellFormed(f)
  {
    var missing := MissingSamples(samples, d.sampleIds);
    Frame(d.sampleIds + missing, ToCopies(d.cnMode[i]) + seq(|missing|, _ => NaNMarker))
  }

  /** What the filled frame holds: a label is in it exactly when it is a
      called or a clustered sample; the called samples come first with
      their copy numbers, then each uncalled clustered sample with the
      marker. */
  lemma FilledCnvFrameRows(d: CnvCalls, i: nat, samples: seq<string>)
    requires i < |d.geneIds|
    ensures var f := FilledCnvFrame(d, i, samples);
      && (forall s :: s in f.index <==> s in d.sampleIds || s in samples)
      && |d.sampleIds| <= |f.index|
      && (forall k :: 0 <= k < |d.sampleIds| ==> f.index[k] == d.sampleIds[k] && f.values[k] == Copies(d.cnMode[i][k]))
      && (forall k :: |d.sampleIds| <= k < |f.index| ==>
            f.index[k] !in d.sampleIds && f.index[k] in samples && f.values[k] == NaNMarker)
  {
    var missing := MissingSamples(samples, d.sampleIds);
    assert forall k :: 0 <= k < |missing| ==> missing[k] in missing;
  }

  /** The CNV track of gene i: the filled frame in dendrogram order, with
      row label "CNV <gene>". */
  function CnvTrack(d: CnvCalls, i: nat, samples: seq<string>, order: seq<string>, xRange: seq<real>)
    : (r: Result<Heatmap<CnValue>>)
    requires i < |d.geneIds|
    ensures (exists j :: 0 <= j < |order| && order[j] !in d.sampleIds && order[j] !in samples) ==>
      r == Err(MissingLabel)
    ensures r.Ok? ==> r.value.rowLabels == ["CNV " + d.geneIds[i]] && r.value.columns == xRange
    ensures r.Ok? ==> |r.value.cells| == 1 && |r.value.cells[0]| == |xRange|
  {
    var f := FilledCnvFrame(d, i, samples);
    match Loc(f, order)
    case Err(e) => Err(e)
    case Ok(row) => RowTrack("CNV " + d.geneIds[i], row, xRange)
  }

  lemma DistinctConcat(a: seq<string>, b: seq<string>)
    requires Distinct(a) && Distinct(b)
    requires forall s :: s in b ==> s !in a
    ensures Distinct(a + b)
  {
    var c := a + b;
    forall i, j | 0 <= i < j < |c| ensures c[i] != c[j] {
      if i < |a| && j >= |a| {
        assert c[j] == b[j - |a|];
        assert c[j] in b;
      }
    }
  }

  /** The filled frame: unique labels, the called and the clustered
      samples, copy numbers under called samples and the marker after them. */
  lemma FilledFrameFacts(d: CnvCalls, i: nat, samples: seq<string>)
    requires i < |d.geneIds|
    requires Distinct(d.sampleIds) && Distinct(samples)
    ensures var f := FilledCnvFrame(d, i, samples);
      && Distinct(f.index)
      && (forall s :: s in f.index <==> s in d.sampleIds || s in samples)
      && (forall k :: 0 <= k < |d.sampleIds| ==> f.index[k] == d.sampleIds[k] && f.values[k] == Copies(d.cnMode[i][k]))
      && (forall k :: |d.sampleIds| <= k < |f.index| ==> f.index[k] !in d.sampleIds && f.values[k] == NaNMarker)
  {
    var f := FilledCnvFrame(d, i, samples);
    var missing := MissingSamples(samples, d.sampleIds);
    MissingSamplesDistinct(samples, d.sampleIds);
    DistinctConcat(d.sampleIds, missing);
    forall k | |d.sampleIds| <= k < |f.index| ensures f.index[k] !in d.sampleIds {
      assert f.index[k] == missing[k - |d.sampleIds|];
    }
  }

  /** The CNV row of gene i in dendrogram order, cell by cell. */
  lemma CnvRowAligned(d: CnvCalls, i: nat, samples: seq<string>, order: seq<string>)
    requires i < |d.geneIds|
    requires Distinct(d.sampleIds) && Distinct(samples)
    requires forall j :: 0 <= j < |order| ==> order[j] in d.sampleIds || order[j] in samples
    ensures var row := Loc(FilledCnvFrame(d, i, samples), order);
      && row.Ok? && |row.value| == |order|
      && (forall j :: 0 <= j < |order| ==> (row.value[j] == NaNMarker <==> order[j] !in d.sampleIds))
      && (forall j, k :: 0 <= j < |order| && 0 <= k < |d.sampleIds| && d.sampleIds[k] == order[j] ==>
            row.value[j] == Copies(d.cnMode[i][k]))
  {
    var f := FilledCnvFrame(d, i, samples);
    FilledFrameFacts(d, i, samples);
    LocUnique(f, order);
    var row := Loc(f, order).value;
    forall j | 0 <= j < |order| ensures (row[j] == NaNMarker <==> order[j] !in d.sampleIds) {
      var k :| 0 <= k < |f.index| && f.index[k] == order[j];
      assert row[j] == f.values[k];
    }
  }

  /** With unique ids, the CNV track of a gene exists exactly when every
      leaf is a clustered or a called sample; a leaf holds the "NaN" marker
      exactly when it has no CNV call, and otherwise its own copy number. */
  lemma CnvAligned(d: CnvCalls, i: nat, samples: seq<string>, order: seq<string>, xRange: seq<real>)
    requires i < |d.geneIds|
    requires Distinct(d.sampleIds) && Distinct(samples) && |order| == |xRange|
    ensures CnvTrack(d, i, samples, order, xRange).Ok? <==>
      forall j :: 0 <= j < |order| ==> order[j] in d.sampleIds || order[j] in samples
    ensures var r := CnvTrack(d, i, samples, order, xRange);
      r.Ok? ==>
        && (forall j :: 0 <= j < |order| ==> (r.value.cells[0][j] == NaNMarker <==> order[j] !in d.sampleIds))
        && (forall j, k :: 0 <= j < |order| && 0 <= k < |d.sampleIds| && d.sampleIds[k] == order[j] ==>
              r.value.cells[0][j] == Copies(d.cnMode[i][k]))
  {
    FilledFrameFacts(d, i, samples);
    if forall j :: 0 <= j < |order| ==> order[j] in d.sampleIds || order[j] in samples {
      CnvRowAligned(d, i, samples, order);
    }
  }

  /** Two frames with the same index succeed or fail alike under .loc
      and give rows of the same length. */
  lemma {:induction false} MatchesSameIndex<V>(f: Frame<V>, g: Frame<V>, key: string)
    requires WellFormed(f) && WellFormed(g) && f.index == g.index
    ensures |Matches(f, key)| == |Matches(g, key)|
    decreases |f.index|
  {
    if f.index != [] {
      MatchesSameIndex(Frame(f.index[1..], f.values[1..]), Frame(g.index[1..], g.values[1..]), key);
    }
  }

  lemma {:induction false} LocSameIndex<V>(f: Frame<V>, g: Frame<V>, labels: seq<string>)
    requires WellFormed(f) && WellFormed(g) && f.index == g.index
    ensures Loc(f, labels).Ok? == Loc(g, labels).Ok?
    ensures Loc(f, labels).Ok? ==> |Loc(f, labels).value| == |Loc(g, labels).value|
  {
    if labels != [] {
      LocSameIndex(f, g, labels[1..]);
      MatchesSameIndex(f, g, labels[0]);
    }
  }

  /** Whether a gene's CNV track can be built does not depend on the gene,
      nor does the error it ends in: the filled frame's labels are the
      same for every gene. */
  lemma CnvOutcomeGeneIndependent(d: CnvCalls, i: nat, i': nat, samples: seq<string>, order: seq<string>, xRange: seq<real>)
    requires i < |d.geneIds| && i' < |d.geneIds|
    ensures CnvTrack(d, i, samples, order, xRange).Ok? == CnvTrack(d, i', samples, order, xRange).Ok?
    ensures CnvTrack(d, i, samples, order, xRange).Err? ==>
      CnvTrack(d, i, samples, order, xRange).error == CnvTrack(d, i', samples, order, xRange).error
  {
    LocSameIndex(FilledCnvFrame(d, i, samples), FilledCnvFrame(d, i', samples), order);
  }

  // ---------------------------------------------------------------- amino acids

  /** What aa_allele_counts returns, indexed by amino-acid change: named
      columns (the count_<sample> columns among others), each holding one
      count per row. */
  datatype AaCounts = AaCounts(aaChange: seq<string>, colNames: seq<string>, colValues: seq<seq<int>>)

  predicate AaShaped(t: AaCounts) {
    |t.colNames| == |t.colValues| && forall c :: 0 <= c < |t.colValues| ==> |t.colValues[c]| == |t.aaChange|
  }

  type AaTable = t: AaCounts | AaShaped(t) witness AaCounts([], [], [])

  const CountPrefix: string := "count_"

  predicate OccursAt(s: string, p: string, i: int) {
    0 <= i <= |s| - |p| && s[i..i + |p|] == p
  }

  /** p is a substring of s. */
  predicate Contains(s: string, p: string) {
    exists i :: 0 <= i <= |s| && OccursAt(s, p, i)
  }

  /** filter(like=p): the columns whose name contains p, in order. */
  function FilterLike<V>(f: Frame<V>, p: string): (r: Frame<V>)
    requires WellFormed(f)
    ensures WellFormed(r)
    ensures forall s :: s in r.index <==> s in f.index && Contains(s, p)
    decreases |f.index|
  {
    if f.index == [] then f
    else
      var rest := FilterLike(Frame(f.index[1..], f.values[1..]), p);
      if Contains(f.index[0], p) then Frame([f.index[0]] + rest.index, [f.values[0]] + rest.values)
      else rest
  }

  /** One flag per label: does it contain p. */
  function ContainsMask(index: seq<string>, p: string): (mask: seq<bool>)
    ensures |mask| == |index| && forall i :: 0 <= i < |index| ==> (mask[i] <==> Contains(index[i], p))
  {
    seq(|index|, i requires 0 <= i < |index| => Contains(index[i], p))
  }

  /** filter(like=p) keeps the matching columns in their order, each with
      its own values. */
  lemma {:induction false} FilterLikeInOrder<V>(f: Frame<V>, p: string)
    requires WellFormed(f)
    ensures Selected(FilterLike(f, p).index, f.index, ContainsMask(f.index, p))
    ensures Selected(FilterLike(f, p).values, f.values, ContainsMask(f.index, p))
    decreases |f.index|
  {
    var mask := ContainsMask(f.index, p);
    if f.index != [] {
      var tail := Frame(f.index[1..], f.values[1..]);
      FilterLikeInOrder(tail, p);
      assert mask[1..] == ContainsMask(tail.index, p);
      SelectedCons(FilterLike(tail, p).index, f.index, mask);
      SelectedCons(FilterLike(tail, p).values, f.values, mask);
    } else {
      assert Positions(mask) == [];
    }
  }

  /** filter(like=p) keeps every column a name containing p matches:
      the rows labelled `key` are the same before and after. */
  lemma {:induction false} FilterKeepsMatches<V>(f: Frame<V>, p: string, key: string)
    requires WellFormed(f) && Contains(key, p)
    ensures Matches(FilterLike(f, p), key) == Matches(f, key)
    decreases |f.index|
  {
    if f.index != [] {
      var tail := Frame(f.index[1..], f.values[1..]);
      FilterKeepsMatches(tail, p, key);
      var rest := FilterLike(tail, p);
      if Contains(f.index[0], p) {
        var g := Frame([f.index[0]] + rest.index, [f.values[0]] + rest.values);
        assert Frame(g.index[1..], g.values[1..]) == rest;
      } else {
        assert f.index[0] != key;
      }
    }
  }

  lemma {:induction false} FilterKeepsLoc<V>(f: Frame<V>, p: string, labels: seq<string>)
    requires WellFormed(f)
    requires forall j :: 0 <= j < |labels| ==> Contains(labels[j], p)
    ensures Loc(FilterLike(f, p), labels) == Loc(f, labels)
  {
    if labels != [] {
      FilterKeepsLoc(f, p, labels[1..]);
      FilterKeepsMatches(f, p, labels[0]);
    }
  }

  /** The requested column names, "count_" + s for each s in order. */
  function CountColumns(order: seq<string>): (r: seq<string>)
    ensures |r| == |order| && forall j :: 0 <= j < |order| ==> r[j] == CountPrefix + order[j]
    // Every requested name passes filter(like="count_").
    ensures forall j :: 0 <= j < |order| ==> Contains(r[j], CountPrefix)
  {
    var r := seq(|order|, j requires 0 <= j < |order| => CountPrefix + order[j]);
    forall j | 0 <= j < |order| ensures Contains(r[j], CountPrefix) {
      assert r[j][0..|CountPrefix|] == CountPrefix;
      assert OccursAt(r[j], CountPrefix, 0);
    }
    r
  }

  /** The count_<sample> filter never matters: selecting the requested
      count columns from the filtered frame is selecting them from the
      whole table. */
  lemma CountFilterIrrelevant(t: AaTable, order: seq<string>)
    ensures Loc(FilterLike(Frame(t.colNames, t.colValues), CountPrefix), CountColumns(order))
         == Loc(Frame(t.colNames, t.colValues), CountColumns(order))
  {
    FilterKeepsLoc(Frame(t.colNames, t.colValues), CountPrefix, CountColumns(order));
  }

  function RowSum(row: seq<int>): int {
    if row == [] then 0 else row[0] + RowSum(row[1..])
  }

  /** The allele-frequency test of one row with nCols sample columns:
      sum / (2 * nCols) > minMaf. With no column the frequency is 0/0,
      NaN, which is never greater, so the row is dropped. */
  predicate AboveMaf(row: seq<int>, nCols: nat, minMaf: real) {
    nCols > 0 && (RowSum(row) as real) / ((2 * nCols) as real) > minMaf
  }

  /** The same test by cross-multiplication. */
  lemma AboveMafCrossMultiplied(row: seq<int>, nCols: nat, minMaf: real)
    ensures AboveMaf(row, nCols, minMaf) <==> nCols > 0 && (RowSum(row) as real) > minMaf * ((2 * nCols) as real)
  {
    if nCols > 0 {
      var d := (2 * nCols) as real;
      var q := (RowSum(row) as real) / d;
      assert q * d == RowSum(row) as real;
      ScaleByPositive(q, minMaf, d);
    }
  }

  lemma ScaleByPositive(a: real, b: real, d: real)
    requires d > 0.0
    ensures a > b <==> a * d > b * d
  {
    if a > b {
      assert (a - b) * d > 0.0;
    } else {
      assert (b - a) * d >= 0.0;
    }
  }

  /** query("af > @filter_min_maf"): the rows, with their labels, that pass. */
  function FilterRows(labels: seq<string>, rows: seq<seq<int>>, nCols: nat, minMaf: real)
    : (r: (seq<string>, seq<seq<int>>))
    requires |labels| == |rows|
    ensures |r.0| == |r.1| <= |rows|
    ensures forall k :: 0 <= k < |r.1| ==> AboveMaf(r.1[k], nCols, minMaf)
    ensures forall k :: 0 <= k < |rows| && AboveMaf(rows[k], nCols, minMaf) ==> (labels[k], rows[k]) in Pairs(r.0, r.1)
    ensures forall k :: 0 <= k < |r.1| ==> (r.0[k], r.1[k]) in Pairs(labels, rows)
  {
    if rows == [] then ([], [])
    else
      var rest := FilterRows(labels[1..], rows[1..], nCols, minMaf);
      assert forall k :: 1 <= k < |rows| ==> labels[k] == labels[1..][k - 1] && rows[k] == rows[1..][k - 1];
      if AboveMaf(rows[0], nCols, minMaf) then
        assert Pairs([labels[0]] + rest.0, [rows[0]] + rest.1) == [(labels[0], rows[0])] + Pairs(rest.0, rest.1);
        ([labels[0]] + rest.0, [rows[0]] + rest.1)
      else rest
  }

  /** The af > filter_min_maf flags, one per row. */
  function MafMask(rows: seq<seq<int>>, nCols: nat, minMaf: real): (mask: seq<bool>)
    ensures |mask| == |rows| && forall k :: 0 <= k < |rows| ==> (mask[k] <==> AboveMaf(rows[k], nCols, minMaf))
  {
    seq(|rows|, k requires 0 <= k < |rows| => AboveMaf(rows[k], nCols, minMaf))
  }

  /** query keeps the passing rows in their order, each with its own
      label: the result is labels[mask], rows[mask]. */
  lemma {:induction false} FilterRowsInOrder(labels: seq<string>, rows: seq<seq<int>>, nCols: nat, minMaf: real)
    requires |labels| == |rows|
    ensures var r := FilterRows(labels, rows, nCols, minMaf);
      Selected(r.0, labels, MafMask(rows, nCols, minMaf)) && Selected(r.1, rows, MafMask(rows, nCols, minMaf))
  {
    var mask := MafMask(rows, nCols, minMaf);
    if rows != [] {
      FilterRowsInOrder(labels[1..], rows[1..], nCols, minMaf);
      var rest := FilterRows(labels[1..], rows[1..], nCols, minMaf);
      assert mask[1..] == MafMask(rows[1..], nCols, minMaf);
      SelectedCons(rest.0, labels, mask);
      SelectedCons(rest.1, rows, mask);
    } else {
      assert Positions(mask) == [];
    }
  }

  function Pairs(labels: seq<string>, rows: seq<seq<int>>): (r: seq<(string, seq<int>)>)
    requires |labels| == |rows|
    ensures |r| == |rows| && forall k :: 0 <= k < |rows| ==> r[k] == (labels[k], rows[k])
  {
    seq(|rows|, k requires 0 <= k < |rows| => (labels[k], rows[k]))
  }

  /** Transpose selected columns [column][row] to rows [row][column]. */
  function Transpose(cols: seq<seq<int>>, nRows: nat): (r: seq<seq<int>>)
    requires forall c :: 0 <= c < |cols| ==> |cols[c]| == nRows
    ensures |r| == nRows
    ensures forall k, c :: 0 <= k < nRows && 0 <= c < |cols| ==> |r[k]| == |cols| && r[k][c] == cols[c][k]
  {
    seq(nRows, k requires 0 <= k < nRows => seq(|cols|, c requires 0 <= c < |cols| => cols[c][k]))
  }

  lemma {:induction false} MatchesFromColumns(f: Frame<seq<int>>, key: string, n: nat)
    requires WellFormed(f) && forall c :: 0 <= c < |f.values| ==> |f.values[c]| == n
    ensures forall c :: 0 <= c < |Matches(f, key)| ==> |Matches(f, key)[c]| == n
    decreases |f.index|
  {
    if f.index != [] {
      MatchesFromColumns(Frame(f.index[1..], f.values[1..]), key, n);
    }
  }

  lemma {:induction false} LocColumnsShaped(f: Frame<seq<int>>, labels: seq<string>, n: nat)
    requires WellFormed(f) && forall c :: 0 <= c < |f.values| ==> |f.values[c]| == n
    requires Loc(f, labels).Ok?
    ensures forall c :: 0 <= c < |Loc(f, labels).value| ==> |Loc(f, labels).value[c]| == n
  {
    if labels != [] {
      LocColumnsShaped(f, labels[1..], n);
      MatchesFromColumns(f, labels[0], n);
    }
  }

  /** The amino-acid heatmap of the advanced plot: the count_<sample>
      columns in dendrogram order, labelled by x_range, then (when
      filterMinMaf is non-zero) only the rows whose allele frequency is
      above it. */
  function AminoAcidTrack(t: AaTable, order: seq<string>, xRange: seq<real>, filterMinMaf: real)
    : (r: Result<Heatmap<int>>)
    ensures (exists j :: 0 <= j < |order| && CountPrefix + order[j] !in t.colNames) ==> r == Err(MissingLabel)
    ensures r.Ok? ==> r.value.columns == xRange && |r.value.rowLabels| == |r.value.cells| <= |t.aaChange|
    ensures r.Ok? ==> forall k :: 0 <= k < |r.value.cells| ==> |r.value.cells[k]| == |xRange|
    ensures r.Ok? && filterMinMaf != 0.0 ==>
      forall k :: 0 <= k < |r.value.cells| ==> AboveMaf(r.value.cells[k], |xRange|, filterMinMaf)
    ensures r.Ok? && filterMinMaf == 0.0 ==> r.value.rowLabels == t.aaChange
  {
    var all := Frame(t.colNames, t.colValues);
    CountFilterIrrelevant(t, order);
    var names := CountColumns(order);
    assert forall j :: 0 <= j < |order| ==> names[j] == CountPrefix + order[j];
    match Loc(FilterLike(all, CountPrefix), names)
    case Err(e) => Err(e)
    case Ok(cols) =>
      if |cols| != |xRange| then Err(LengthMismatch)
      else
        LocColumnsShaped(all, names, |t.aaChange|);
        var rows := Transpose(cols, |t.aaChange|);
        if filterMinMaf != 0.0 then
          var kept := FilterRows(t.aaChange, rows, |cols|, filterMinMaf);
          Ok(Heatmap(kept.0, xRange, kept.1))
        else Ok(Heatmap(t.aaChange, xRange, rows))
  }

  /** With unique column names and every leaf's count column present, the
      unfiltered heatmap holds in row k, column j the count of the leaf's
      column "count_" + order[j]. */
  lemma AminoAcidsAligned(t: AaTable, order: seq<string>, xRange: seq<real>)
    requires Distinct(t.colNames) && |order| == |xRange|
    requires forall j :: 0 <= j < |order| ==> CountPrefix + order[j] in t.colNames
    ensures AminoAcidTrack(t, order, xRange, 0.0).Ok?
    ensures var h := AminoAcidTrack(t, order, xRange, 0.0).value;
      h.rowLabels == t.aaChange && |h.cells| == |t.aaChange| &&
      forall k, j, c ::
        (0 <= k < |t.aaChange| && 0 <= j < |order| && 0 <= c < |t.colNames| && t.colNames[c] == CountPrefix + order[j])
        ==> h.cells[k][j] == t.colValues[c][k]
  {
    var all := Frame(t.colNames, t.colValues);
    var names := CountColumns(order);
    CountFilterIrrelevant(t, order);
    LocUnique(all, names);
    LocColumnsShaped(all, names, |t.aaChange|);
  }

  /** With the filter on, the track exists exactly when the unfiltered one
      does, and its rows are the unfiltered rows whose frequency passes,
      in their order and with their labels. */
  lemma AminoAcidFilterKeepsPassingRows(t: AaTable, order: seq<string>, xRange: seq<real>, filterMinMaf: real)
    requires filterMinMaf != 0.0
    ensures AminoAcidTrack(t, order, xRange, filterMinMaf).Ok? <==> AminoAcidTrack(t, order, xRange, 0.0).Ok?
    ensures AminoAcidTrack(t, order, xRange, 0.0).Ok? ==>
      var u := AminoAcidTrack(t, order, xRange, 0.0).value;
      var h := AminoAcidTrack(t, order, xRange, filterMinMaf).value;
      var keep := MafMask(u.cells, |xRange|, filterMinMaf);
      h.columns == xRange && Selected(h.rowLabels, u.rowLabels, keep) && Selected(h.cells, u.cells, keep)
  {
    var all := Frame(t.colNames, t.colValues);
    CountFilterIrrelevant(t, order);
    var names := CountColumns(order);
    var sel := Loc(FilterLike(all, CountPrefix), names);
    if sel.Ok? && |sel.value| == |xRange| {
      LocColumnsShaped(all, names, |t.aaChange|);
      var rows := Transpose(sel.value, |t.aaChange|);
      FilterRowsInOrder(t.aaChange, rows, |xRange|, filterMinMaf);
    }
  }

  /** The panel height of the amino-acid track: one hundredth per row,
      never below 0.2. */
  function AminoAcidHeight(nRows: nat): (h: real)
    ensures h >= 0.2
    ensures h >= (nRows as real) / 100.0
    ensures h == 0.2 || h == (nRows as real) / 100.0
  {
    if (nRows as real) / 100.0 > 0.2 then (nRows as real) / 100.0 else 0.2
  }
}
