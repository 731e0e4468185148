/** The advanced diplotype clustering plot: the dendrogram and the tracks
    aligned to its leaf order, collected in lock-step with their row
    heights. Rendering the panels is not part of this model; a panel here
    is the data it would draw. The class CompositeView appends to the two
    lists in place, one method per track; each method is specified by the
    matching step function (HeterozygosityStep, CnvStep, AminoAcidStep),
    and the driver PlotDiplotypeClusteringAdvanced by AdvancedLayout. */
module Composite {
  import opened Wrappers
  import opened LeafOrder
  import opened Tracks

  /** Row height of the dendrogram panel. */
  const DendrogramHeight: real := 0.2
  /** Row height of a single-row track (heterozygosity, each CNV gene). */
  const TrackHeight: real := 0.012

  datatype Panel =
    | DendrogramPanel(traces: seq<Trace>)
    | HeterozygosityPanel(het: Heatmap<real>)
    | CnvPanel(cnv: Heatmap<CnValue>)
    | AminoAcidPanel(aa: Heatmap<int>)

  /** The figures and row_heights lists. */
  datatype Layout = Layout(figures: seq<Panel>, rowHeights: seq<real>)

  /** What a track step appends to the two lists. */
  datatype Extension = Extension(panels: seq<Panel>, heights: seq<real>)

  /** Per-sample heterozygosity as computed from the genotype calls. */
  datatype HetValues = HetValues(samples: seq<string>, values: seq<real>)
  type HetTable = h: HetValues | |h.samples| == |h.values| witness HetValues([], [])

  /** The outcome of gene_cnv for the CNV region: ValueError (no CNV
      data) or the called copy numbers. */
  datatype GeneCnvOutcome = NoCnvData | CnvLoaded(calls: CnvCalls)

  function Repeat(x: real, n: nat): (r: seq<real>)
    ensures |r| == n && forall k :: 0 <= k < n ==> r[k] == x
  {
    seq(n, _ => x)
  }

  /** The heterozygosity step: the heterozygosity track as one panel, one
      height of 0.012. */
  function HeterozygosityStep(het: HetTable, order: seq<string>, xRange: seq<real>): (r: Result<Extension>)
    ensures r.Ok? <==> HeterozygosityTrack(het.samples, het.values, order, xRange).Ok?
    ensures r.Ok? ==> r.value.panels == [HeterozygosityPanel(HeterozygosityTrack(het.samples, het.values, order, xRange).value)]
    ensures r.Ok? ==> r.value.heights == [TrackHeight]
    ensures r.Err? ==> r.error == HeterozygosityTrack(het.samples, het.values, order, xRange).error
  {
    match HeterozygosityTrack(het.samples, het.values, order, xRange)
    case Err(e) => Err(e)
    case Ok(h) => Ok(Extension([HeterozygosityPanel(h)], [TrackHeight]))
  }

  /** The CNV tracks of the first n genes, in gene order. */
  function CnvPanels(d: CnvCalls, samples: seq<string>, order: seq<string>, xRange: seq<real>, n: nat)
    : (r: Result<seq<Panel>>)
    requires n <= |d.geneIds|
    ensures r.Ok? <==> forall i :: 0 <= i < n ==> CnvTrack(d, i, samples, order, xRange).Ok?
    ensures r.Ok? ==> |r.value| == n
    ensures r.Ok? ==> forall i {:trigger CnvTrack(d, i, samples, order, xRange)} :: 0 <= i < n ==>
      r.value[i] == CnvPanel(CnvTrack(d, i, samples, order, xRange).value)
    ensures r.Err? ==> n > 0 && CnvTrack(d, 0, samples, order, xRange).Err? &&
                       r.error == CnvTrack(d, 0, samples, order, xRange).error
  {
    if n == 0 then Ok([])
    else
      match CnvPanels(d, samples, order, xRange, n - 1)
      case Err(e) => Err(e)
      case Ok(ps) =>
        match CnvTrack(d, n - 1, samples, order, xRange)
        case Err(e) =>
          CnvOutcomeGeneIndependent(d, n - 1, 0, samples, order, xRange);
          Err(e)
        case Ok(h) =>
          var qs := ps + [CnvPanel(h)];
          assert forall i {:trigger CnvTrack(d, i, samples, order, xRange)} :: 0 <= i < n - 1 ==>
            qs[i] == CnvPanel(CnvTrack(d, i, samples, order, xRange).value);
          Ok(qs)
  }

  /** The CNV step (_plot_dendro_cnv_bar): nothing when there is no CNV
      data; an IndexError when the data has no gene; otherwise one panel
      and one height of 0.012 per gene. */
  function CnvStep(outcome: GeneCnvOutcome, samples: seq<string>, order: seq<string>, xRange: seq<real>)
    : (r: Result<Extension>)
    ensures outcome.NoCnvData? ==> r == Ok(Extension([], []))
    ensures outcome.CnvLoaded? && |outcome.calls.geneIds| == 0 ==> r == Err(EmptyGeneAxis)
    ensures r.Ok? && outcome.CnvLoaded? ==>
      |r.value.panels| == |outcome.calls.geneIds| && r.value.heights == Repeat(TrackHeight, |outcome.calls.geneIds|)
    // With genes, it is CnvPanels over every gene: it succeeds exactly when
    // every gene's track does, panel i is the track of gene i, and a
    // failure carries the first gene's error.
    ensures outcome.CnvLoaded? && |outcome.calls.geneIds| > 0 ==>
      var ps := CnvPanels(outcome.calls, samples, order, xRange, |outcome.calls.geneIds|);
      && (r.Ok? <==> ps.Ok?)
      && (r.Ok? ==> r.value.panels == ps.value)
      && (r.Err? ==> r.error == ps.error)
  {
    match outcome
    case NoCnvData => Ok(Extension([], []))
    case CnvLoaded(d) =>
      if |d.geneIds| == 0 then Err(EmptyGeneAxis)
      else
        match CnvPanels(d, samples, order, xRange, |d.geneIds|)
        case Err(e) => Err(e)
        case Ok(ps) => Ok(Extension(ps, Repeat(TrackHeight, |d.geneIds|)))
  }

  /** The amino-acid step: the amino-acid track as one panel, whose height
      grows with its rows. */
  function AminoAcidStep(t: AaTable, order: seq<string>, xRange: seq<real>, filterMinMaf: real)
    : (r: Result<Extension>)
    ensures r.Ok? <==> AminoAcidTrack(t, order, xRange, filterMinMaf).Ok?
    ensures r.Ok? ==> var h := AminoAcidTrack(t, order, xRange, filterMinMaf).value;
      r.value.panels == [AminoAcidPanel(h)] && r.value.heights == [AminoAcidHeight(|h.cells|)]
    ensures r.Ok? ==> r.value.heights[0] >= 0.2
    ensures r.Err? ==> r.error == AminoAcidTrack(t, order, xRange, filterMinMaf).error
  {
    match AminoAcidTrack(t, order, xRange, filterMinMaf)
    case Err(e) => Err(e)
    case Ok(h) => Ok(Extension([AminoAcidPanel(h)], [AminoAcidHeight(|h.cells|)]))
  }

  /** Append a step's panels and heights; the first error wins. */
  function Extend(l: Result<Layout>, step: Result<Extension>): (r: Result<Layout>)
    ensures r.Ok? <==> l.Ok? && step.Ok?
    ensures step == Nothing ==> r == l
    ensures l.Err? ==> r == l
    ensures l.Ok? && step.Err? ==> r.Err? && r.error == step.error
    ensures r.Ok? ==> r.value.figures == l.value.figures + step.value.panels
    ensures r.Ok? ==> r.value.rowHeights == l.value.rowHeights + step.value.heights
  {
    match l
    case Err(e) => Err(e)
    case Ok(layout) =>
      match step
      case Err(e) => Err(e)
      case Ok(ext) =>
        assert ext.panels == [] ==> layout.figures + ext.panels == layout.figures;
        assert ext.heights == [] ==> layout.rowHeights + ext.heights == layout.rowHeights;
        Ok(Layout(layout.figures + ext.panels, layout.rowHeights + ext.heights))
  }

  /** A step that appends nothing. */
  const Nothing: Result<Extension> := Ok(Extension([], []))

  /** The three optional steps: a track is added only when it is
      requested, and an absent input adds nothing. */
  function HetStepFor(het: Option<HetTable>, order: seq<string>, xRange: seq<real>): (r: Result<Extension>)
    ensures het.None? ==> r == Nothing
    ensures het.Some? ==> r == HeterozygosityStep(het.value, order, xRange)
  {
    if het.None? then Nothing else HeterozygosityStep(het.value, order, xRange)
  }

  function CnvStepFor(cnv: Option<GeneCnvOutcome>, samples: seq<string>, order: seq<string>, xRange: seq<real>)
    : (r: Result<Extension>)
    ensures cnv.None? ==> r == Nothing
    ensures cnv.Some? ==> r == CnvStep(cnv.value, samples, order, xRange)
  {
    if cnv.None? then Nothing else CnvStep(cnv.value, samples, order, xRange)
  }

  function AaStepFor(aa: Option<AaTable>, order: seq<string>, xRange: seq<real>, filterMinMaf: real)
    : (r: Result<Extension>)
    ensures aa.None? ==> r == Nothing
    ensures aa.Some? ==> r == AminoAcidStep(aa.value, order, xRange, filterMinMaf)
  {
    if aa.None? then Nothing else AminoAcidStep(aa.value, order, xRange, filterMinMaf)
  }

  /** The layout of the advanced plot, as a value: the dendrogram with row
      height 0.2, then the heterozygosity track, the CNV tracks and the
      amino-acid track, each when its input is present. */
  function AdvancedLayout(dendro: seq<Trace>, samples: seq<string>, het: Option<HetTable>,
                          cnv: Option<GeneCnvOutcome>, aa: Option<AaTable>, filterMinMaf: real): (r: Result<Layout>)
    ensures DendroOrderData(dendro).Err? ==> r == Err(DendroOrderData(dendro).error)
    // The plot fails exactly when one of the requested tracks fails.
    ensures DendroOrderData(dendro).Ok? ==>
      var od := DendroOrderData(dendro).value;
      var xRange := XRange(od);
      var order := DendroSampleIdOrder(od);
      (r.Ok? <==> HetStepFor(het, order, xRange).Ok? && CnvStepFor(cnv, samples, order, xRange).Ok?
                  && AaStepFor(aa, order, xRange, filterMinMaf).Ok?)
    ensures r.Ok? ==> r.value.figures != [] && r.value.rowHeights != []
    ensures r.Ok? ==> r.value.figures[0] == DendrogramPanel(dendro) && r.value.rowHeights[0] == DendrogramHeight
  {
    match DendroOrderData(dendro)
    case Err(e) => Err(e)
    case Ok(od) =>
      var xRange := XRange(od);
      var order := DendroSampleIdOrder(od);
      var start := Ok(Layout([DendrogramPanel(dendro)], [DendrogramHeight]));
      var withHet := Extend(start, HetStepFor(het, order, xRange));
      var withCnv := Extend(withHet, CnvStepFor(cnv, samples, order, xRange));
      Extend(withCnv, AaStepFor(aa, order, xRange, filterMinMaf))
  }

  /** The two lists grow in lock-step: one row height per panel, the
      dendrogram first at 0.2, then 0.012 for every single-row track, and
      the amino-acid panel last when it is there. */
  lemma AdvancedLayoutShape(dendro: seq<Trace>, samples: seq<string>, het: Option<HetTable>,
                            cnv: Option<GeneCnvOutcome>, aa: Option<AaTable>, filterMinMaf: real)
    ensures var r := AdvancedLayout(dendro, samples, het, cnv, aa, filterMinMaf);
      r.Ok? ==>
        var nCnv := if cnv.Some? && cnv.value.CnvLoaded? then |cnv.value.calls.geneIds| else 0;
        var nHet := if het.Some? then 1 else 0;
        var nAa := if aa.Some? then 1 else 0;
        && |r.value.figures| == |r.value.rowHeights| == 1 + nHet + nCnv + nAa
        && r.value.figures[0] == DendrogramPanel(dendro)
        && r.value.rowHeights[0] == DendrogramHeight
        && (forall k :: 1 <= k < 1 + nHet + nCnv ==> r.value.rowHeights[k] == TrackHeight)
        && (aa.Some? ==> r.value.figures[|r.value.figures| - 1].AminoAcidPanel? && r.value.rowHeights[|r.value.rowHeights| - 1] >= 0.2)
        // The amino-acid row height is max(rows / 100, 0.2) of the track drawn.
        && (aa.Some? ==>
              var od := DendroOrderData(dendro).value;
              var h := AminoAcidTrack(aa.value, DendroSampleIdOrder(od), XRange(od), filterMinMaf);
              h.Ok? && r.value.rowHeights[|r.value.rowHeights| - 1] == AminoAcidHeight(|h.value.cells|))
  {
    var r := AdvancedLayout(dendro, samples, het, cnv, aa, filterMinMaf);
    if r.Ok? {
      var od := DendroOrderData(dendro).value;
      var xRange := XRange(od);
      var order := DendroSampleIdOrder(od);
      var s1 := HetStepFor(het, order, xRange);
      var s2 := CnvStepFor(cnv, samples, order, xRange);
      var s3 := AaStepFor(aa, order, xRange, filterMinMaf);
      AdvancedLayoutSteps(dendro, samples, het, cnv, aa, filterMinMaf);
      ThreeSteps(dendro, s1, s2, s3);
      HetStepShape(het, order, xRange);
      CnvStepShape(cnv, samples, order, xRange);
      AaStepShape(aa, order, xRange, filterMinMaf);
      HeightsOfSteps(s1.value.heights, s2.value.heights, s3.value.heights, |s1.value.heights|, |s2.value.heights|);
      EndsOfSteps(DendrogramPanel(dendro), s1.value.panels, s2.value.panels, s3.value.panels);
    }
  }

  /** The heights after the dendrogram's: the single-row tracks' 0.012s,
      then the last step's. */
  lemma HeightsOfSteps(h1: seq<real>, h2: seq<real>, h3: seq<real>, n1: nat, n2: nat)
    requires h1 == Repeat(TrackHeight, n1) && h2 == Repeat(TrackHeight, n2)
    ensures var hs := [DendrogramHeight] + h1 + h2 + h3;
      && |hs| == 1 + n1 + n2 + |h3|
      && hs[0] == DendrogramHeight
      && (forall k :: 1 <= k < 1 + n1 + n2 ==> hs[k] == TrackHeight)
      && (h3 != [] ==> hs[|hs| - 1] == h3[|h3| - 1])
  {
    var hs := [DendrogramHeight] + h1 + h2 + h3;
    forall k | 1 <= k < 1 + n1 + n2 ensures hs[k] == TrackHeight {
      if k <= n1 {
        assert hs[k] == h1[k - 1];
      } else {
        assert hs[k] == h2[k - 1 - n1];
      }
    }
  }

  /** The first and the last panel of the figure list. */
  lemma EndsOfSteps(first: Panel, p1: seq<Panel>, p2: seq<Panel>, p3: seq<Panel>)
    ensures var fs := [first] + p1 + p2 + p3;
      && fs[0] == first
      && (p1 != [] ==> fs[1] == p1[0])
      && (p3 != [] ==> fs[|fs| - 1] == p3[|p3| - 1])
  {
  }

  lemma HetStepShape(het: Option<HetTable>, order: seq<string>, xRange: seq<real>)
    ensures var s := HetStepFor(het, order, xRange);
      s.Ok? ==> var n := if het.Some? then 1 else 0;
        |s.value.panels| == |s.value.heights| == n && s.value.heights == Repeat(TrackHeight, n)
  {
  }

  lemma CnvStepShape(cnv: Option<GeneCnvOutcome>, samples: seq<string>, order: seq<string>, xRange: seq<real>)
    ensures var s := CnvStepFor(cnv, samples, order, xRange);
      s.Ok? ==> var n := if cnv.Some? && cnv.value.CnvLoaded? then |cnv.value.calls.geneIds| else 0;
        |s.value.panels| == |s.value.heights| == n && s.value.heights == Repeat(TrackHeight, n)
  {
  }

  lemma AaStepShape(aa: Option<AaTable>, order: seq<string>, xRange: seq<real>, filterMinMaf: real)
    ensures var s := AaStepFor(aa, order, xRange, filterMinMaf);
      s.Ok? ==> var n := if aa.Some? then 1 else 0;
        && |s.value.panels| == |s.value.heights| == n
        && (aa.Some? ==> s.value.panels[0].AminoAcidPanel? && s.value.heights[0] >= 0.2)
        && (aa.Some? ==>
              var h := AminoAcidTrack(aa.value, order, xRange, filterMinMaf);
              h.Ok? && s.value.heights[0] == AminoAcidHeight(|h.value.cells|))
  {
  }

  /** The panels are the aligned tracks themselves: after the dendrogram
      come the heterozygosity track, the CNV track of each gene in gene
      order, and the amino-acid track, each when requested. */
  lemma AdvancedLayoutPanels(dendro: seq<Trace>, samples: seq<string>, het: Option<HetTable>,
      cnv: Option<GeneCnvOutcome>, aa: Option<AaTable>, filterMinMaf: real)
    ensures var r := AdvancedLayout(dendro, samples, het, cnv, aa, filterMinMaf);
      r.Ok? ==>
        var od := DendroOrderData(dendro).value;
        var xRange := XRange(od);
        var order := DendroSampleIdOrder(od);
        var nCnv := if cnv.Some? && cnv.value.CnvLoaded? then |cnv.value.calls.geneIds| else 0;
        var nHet := if het.Some? then 1 else 0;
        var nAa := if aa.Some? then 1 else 0;
        && |r.value.figures| == 1 + nHet + nCnv + nAa
        && (het.Some? ==> var h := HeterozygosityTrack(het.value.samples, het.value.values, order, xRange);
              h.Ok? && r.value.figures[1] == HeterozygosityPanel(h.value))
        && (cnv.Some? && cnv.value.CnvLoaded? ==> forall i :: 0 <= i < nCnv ==>
              CnvTrack(cnv.value.calls, i, samples, order, xRange).Ok? &&
              r.value.figures[1 + nHet + i] == CnvPanel(CnvTrack(cnv.value.calls, i, samples, order, xRange).value))
        && (aa.Some? ==> var h := AminoAcidTrack(aa.value, order, xRange, filterMinMaf);
              h.Ok? && r.value.figures[|r.value.figures| - 1] == AminoAcidPanel(h.value))
  {
    AdvancedLayoutShape(dendro, samples, het, cnv, aa, filterMinMaf);
    HetPanelInLayout(dendro, samples, het, cnv, aa, filterMinMaf);
    CnvPanelsInLayout(dendro, samples, het, cnv, aa, filterMinMaf);
    AaPanelInLayout(dendro, samples, het, cnv, aa, filterMinMaf);
  }

  lemma HetPanelInLayout(dendro: seq<Trace>, samples: seq<string>, het: Option<HetTable>,
      cnv: Option<GeneCnvOutcome>, aa: Option<AaTable>, filterMinMaf: real)
    ensures var r := AdvancedLayout(dendro, samples, het, cnv, aa, filterMinMaf);
      r.Ok? && het.Some? ==>
        var od := DendroOrderData(dendro).value;
        var h := HeterozygosityTrack(het.value.samples, het.value.values, DendroSampleIdOrder(od), XRange(od));
        |r.value.figures| > 1 && h.Ok? && r.value.figures[1] == HeterozygosityPanel(h.value)
  {
    var r := AdvancedLayout(dendro, samples, het, cnv, aa, filterMinMaf);
    if r.Ok? {
      var od := DendroOrderData(dendro).value;
      var xRange := XRange(od);
      var order := DendroSampleIdOrder(od);
      var s1 := HetStepFor(het, order, xRange);
      var s2 := CnvStepFor(cnv, samples, order, xRange);
      var s3 := AaStepFor(aa, order, xRange, filterMinMaf);
      AdvancedLayoutSteps(dendro, samples, het, cnv, aa, filterMinMaf);
      ThreeSteps(dendro, s1, s2, s3);
      var p1, p2, p3 := s1.value.panels, s2.value.panels, s3.value.panels;
      EndsOfSteps(DendrogramPanel(dendro), p1, p2, p3);
      HetStepShape(het, order, xRange);
    }
  }

  /** From figure off on, the figures are the CNV tracks of the genes of
      d, one per gene in gene order. */
  predicate CnvPanelsAt(figs: seq<Panel>, off: nat, d: CnvCalls, samples: seq<string>, order: seq<string>, xRange: seq<real>) {
    && |figs| >= off + |d.geneIds|
    && forall i :: 0 <= i < |d.geneIds| ==>
         CnvTrack(d, i, samples, order, xRange).Ok? &&
         figs[off + i] == CnvPanel(CnvTrack(d, i, samples, order, xRange).value)
  }

  lemma CnvPanelsInLayout(dendro: seq<Trace>, samples: seq<string>, het: Option<HetTable>,
      cnv: Option<GeneCnvOutcome>, aa: Option<AaTable>, filterMinMaf: real)
    ensures var r := AdvancedLayout(dendro, samples, het, cnv, aa, filterMinMaf);
      r.Ok? && cnv.Some? && cnv.value.CnvLoaded? ==>
        var od := DendroOrderData(dendro).value;
        CnvPanelsAt(r.value.figures, 1 + (if het.Some? then 1 else 0), cnv.value.calls,
                    samples, DendroSampleIdOrder(od), XRange(od))
  {
    var r := AdvancedLayout(dendro, samples, het, cnv, aa, filterMinMaf);
    if r.Ok? && cnv.Some? && cnv.value.CnvLoaded? {
      var od := DendroOrderData(dendro).value;
      var xRange := XRange(od);
      var order := DendroSampleIdOrder(od);
      var s1 := HetStepFor(het, order, xRange);
      var s2 := CnvStepFor(cnv, samples, order, xRange);
      var s3 := AaStepFor(aa, order, xRange, filterMinMaf);
      AdvancedLayoutSteps(dendro, samples, het, cnv, aa, filterMinMaf);
      HetStepShape(het, order, xRange);
      CnvPanelsAfterSteps(dendro, s1, s2, s3, r, if het.Some? then 1 else 0, cnv.value.calls, samples, order, xRange);
    }
  }

  /** The CNV panels of a loaded outcome sit after the dendrogram and the
      first step's panels, gene by gene. */
  lemma CnvPanelsAfterSteps(dendro: seq<Trace>, s1: Result<Extension>, s2: Result<Extension>, s3: Result<Extension>,
      r: Result<Layout>, n1: nat, d: CnvCalls, samples: seq<string>, order: seq<string>, xRange: seq<real>)
    requires s1.Ok? ==> |s1.value.panels| == n1
    requires s2 == CnvStep(CnvLoaded(d), samples, order, xRange)
    requires r == Extend(Extend(Extend(Ok(Layout([DendrogramPanel(dendro)], [DendrogramHeight])), s1), s2), s3)
    ensures r.Ok? ==> CnvPanelsAt(r.value.figures, 1 + n1, d, samples, order, xRange)
  {
    SecondStepAt(dendro, s1, s2, s3, n1);
    CnvStepPanels(d, samples, order, xRange);
  }

  /** The second step's panels follow the dendrogram and the first step's. */
  lemma SecondStepAt(dendro: seq<Trace>, s1: Result<Extension>, s2: Result<Extension>, s3: Result<Extension>, n1: nat)
    requires s1.Ok? ==> |s1.value.panels| == n1
    ensures var r := Extend(Extend(Extend(Ok(Layout([DendrogramPanel(dendro)], [DendrogramHeight])), s1), s2), s3);
      r.Ok? ==> && s2.Ok?
                && |r.value.figures| >= 1 + n1 + |s2.value.panels|
                && forall i :: 0 <= i < |s2.value.panels| ==> r.value.figures[1 + n1 + i] == s2.value.panels[i]
  {
    var r := Extend(Extend(Extend(Ok(Layout([DendrogramPanel(dendro)], [DendrogramHeight])), s1), s2), s3);
    ThreeSteps(dendro, s1, s2, s3);
    if r.Ok? {
      var pre := [DendrogramPanel(dendro)] + s1.value.panels;
      forall i | 0 <= i < |s2.value.panels| ensures r.value.figures[|pre| + i] == s2.value.panels[i] {
        ConcatIndex(pre, s2.value.panels, s3.value.panels, i);
      }
    }
  }

  /** A successful CNV step holds each gene's track, in gene order. */
  lemma CnvStepPanels(d: CnvCalls, samples: seq<string>, order: seq<string>, xRange: seq<real>)
    ensures var s := CnvStep(CnvLoaded(d), samples, order, xRange);
      s.Ok? ==> && |s.value.panels| == |d.geneIds|
                && forall i :: 0 <= i < |d.geneIds| ==>
                     CnvTrack(d, i, samples, order, xRange).Ok? &&
                     s.value.panels[i] == CnvPanel(CnvTrack(d, i, samples, order, xRange).value)
  {
    var s := CnvStep(CnvLoaded(d), samples, order, xRange);
    if s.Ok? {
      assert |d.geneIds| > 0;
      assert s.value.panels == CnvPanels(d, samples, order, xRange, |d.geneIds|).value;
    }
  }

  /** Once the leaf order is extracted, the layout is the dendrogram
      extended by the three steps in turn. */
  lemma AdvancedLayoutSteps(dendro: seq<Trace>, samples: seq<string>, het: Option<HetTable>,
                            cnv: Option<GeneCnvOutcome>, aa: Option<AaTable>, filterMinMaf: real)
    requires DendroOrderData(dendro).Ok?
    ensures var od := DendroOrderData(dendro).value;
      var xRange := XRange(od);
      var order := DendroSampleIdOrder(od);
      AdvancedLayout(dendro, samples, het, cnv, aa, filterMinMaf)
        == Extend(Extend(Extend(Ok(Layout([DendrogramPanel(dendro)], [DendrogramHeight])), HetStepFor(het, order, xRange)),
                         CnvStepFor(cnv, samples, order, xRange)),
                  AaStepFor(aa, order, xRange, filterMinMaf))
  {
  }

  lemma ConcatIndex<T>(a: seq<T>, b: seq<T>, c: seq<T>, i: nat)
    requires i < |b|
    ensures |a + b + c| > |a| + i && (a + b + c)[|a| + i] == b[i]
  {
  }

  lemma AaPanelInLayout(dendro: seq<Trace>, samples: seq<string>, het: Option<HetTable>,
      cnv: Option<GeneCnvOutcome>, aa: Option<AaTable>, filterMinMaf: real)
    ensures var r := AdvancedLayout(dendro, samples, het, cnv, aa, filterMinMaf);
      r.Ok? && aa.Some? ==>
        var od := DendroOrderData(dendro).value;
        var h := AminoAcidTrack(aa.value, DendroSampleIdOrder(od), XRange(od), filterMinMaf);
        r.value.figures != [] && h.Ok? && r.value.figures[|r.value.figures| - 1] == AminoAcidPanel(h.value)
  {
    var r := AdvancedLayout(dendro, samples, het, cnv, aa, filterMinMaf);
    if r.Ok? {
      var od := DendroOrderData(dendro).value;
      var xRange := XRange(od);
      var order := DendroSampleIdOrder(od);
      var s1 := HetStepFor(het, order, xRange);
      var s2 := CnvStepFor(cnv, samples, order, xRange);
      var s3 := AaStepFor(aa, order, xRange, filterMinMaf);
      AdvancedLayoutSteps(dendro, samples, het, cnv, aa, filterMinMaf);
      ThreeSteps(dendro, s1, s2, s3);
      var p1, p2, p3 := s1.value.panels, s2.value.panels, s3.value.panels;
      EndsOfSteps(DendrogramPanel(dendro), p1, p2, p3);
      AaStepShape(aa, order, xRange, filterMinMaf);
    }
  }

  /** Three successful steps after the dendrogram append their panels and
      heights in order. */
  lemma ThreeSteps(dendro: seq<Trace>, s1: Result<Extension>, s2: Result<Extension>, s3: Result<Extension>)
    ensures var r := Extend(Extend(Extend(Ok(Layout([DendrogramPanel(dendro)], [DendrogramHeight])), s1), s2), s3);
      r.Ok? ==> && s1.Ok? && s2.Ok? && s3.Ok?
                && r.value.figures == [DendrogramPanel(dendro)] + s1.value.panels + s2.value.panels + s3.value.panels
                && r.value.rowHeights == [DendrogramHeight] + s1.value.heights + s2.value.heights + s3.value.heights
  {
  }

  /** A CNV region without CNV data leaves the plot exactly as if no CNV
      region had been asked for: the panel is omitted, the rest intact. */
  lemma NoCnvDataOmitsPanel(dendro: seq<Trace>, samples: seq<string>, het: Option<HetTable>,
                            aa: Option<AaTable>, filterMinMaf: real)
    ensures AdvancedLayout(dendro, samples, het, Some(NoCnvData), aa, filterMinMaf)
         == AdvancedLayout(dendro, samples, het, None, aa, filterMinMaf)
  {
    if DendroOrderData(dendro).Ok? {
      var od := DendroOrderData(dendro).value;
      var order := DendroSampleIdOrder(od);
      var xRange := XRange(od);
      var start := Ok(Layout([DendrogramPanel(dendro)], [DendrogramHeight]));
      var withHet := Extend(start, HetStepFor(het, order, xRange));
      assert CnvStepFor(Some(NoCnvData), samples, order, xRange) == Nothing;
      if withHet.Ok? {
        assert withHet.value.figures + [] == withHet.value.figures;
        assert withHet.value.rowHeights + [] == withHet.value.rowHeights;
      }
    }
  }

  /** The figures and row_heights lists of the advanced plot, updated in
      place as each track is added. */
  class CompositeView {
    var figures: seq<Panel>
    var rowHeights: seq<real>

    ghost predicate Valid()
      reads this
    {
      |figures| == |rowHeights|
    }

    /** figures = [fig_dendro]; row_heights = [0.2]. */
    constructor (dendro: seq<Trace>)
      ensures Valid()
      ensures figures == [DendrogramPanel(dendro)] && rowHeights == [DendrogramHeight]
    {
      figures := [DendrogramPanel(dendro)];
      rowHeights := [DendrogramHeight];
    }

    /** Append the heterozygosity track. */
    method AddHeterozygosity(het: HetTable, order: seq<string>, xRange: seq<real>) returns (r: Result<nat>)
      requires Valid()
      modifies this
      ensures Valid()
      ensures r.Ok? <==> HeterozygosityStep(het, order, xRange).Ok?
      ensures r.Ok? ==> var ext := HeterozygosityStep(het, order, xRange).value;
        figures == old(figures) + ext.panels && rowHeights == old(rowHeights) + ext.heights
      ensures r.Err? ==> r.error == HeterozygosityStep(het, order, xRange).error
      ensures r.Err? ==> figures == old(figures) && rowHeights == old(rowHeights)
    {
      var track := HeterozygosityTrack(het.samples, het.values, order, xRange);
      if track.Err? {
        return Err(track.error);
      }
      figures := figures + [HeterozygosityPanel(track.value)];
      rowHeights := rowHeights + [TrackHeight];
      r := Ok(1);
    }

    /** _plot_dendro_cnv_bar: one CNV track per gene, appended to both
      lists in the loop. */
    method AddCnvBars(outcome: GeneCnvOutcome, samples: seq<string>, order: seq<string>, xRange: seq<real>)
      returns (r: Result<nat>)
      requires Valid()
      modifies this
      ensures Valid()
      ensures r.Ok? <==> CnvStep(outcome, samples, order, xRange).Ok?
      ensures r.Ok? ==> var ext := CnvStep(outcome, samples, order, xRange).value;
        figures == old(figures) + ext.panels && rowHeights == old(rowHeights) + ext.heights &&
        r.value == |ext.panels|
      ensures r.Err? ==> r.error == CnvStep(outcome, samples, order, xRange).error
      ensures r.Err? ==> figures == old(figures) && rowHeights == old(rowHeights)
    {
      if outcome.NoCnvData? {
        return Ok(0);
      }
      var d := outcome.calls;
      if |d.geneIds| == 0 {
        return Err(EmptyGeneAxis);
      }
      var i := 0;
      while i < |d.geneIds|
        invariant 0 <= i <= |d.geneIds|
        invariant CnvPanels(d, samples, order, xRange, i).Ok?
        invariant figures == old(figures) + CnvPanels(d, samples, order, xRange, i).value
        invariant rowHeights == old(rowHeights) + Repeat(TrackHeight, i)
      {
        var track := CnvTrack(d, i, samples, order, xRange);
        if track.Err? {
          // The first gene would have failed the same way: nothing was appended.
          if i > 0 {
            CnvOutcomeGeneIndependent(d, 0, i, samples, order, xRange);
            assert false;
          }
          CnvOutcomeGeneIndependent(d, i, |d.geneIds| - 1, samples, order, xRange);
          return Err(track.error);
        }
        figures := figures + [CnvPanel(track.value)];
        rowHeights := rowHeights + [TrackHeight];
        i := i + 1;
      }
      r := Ok(i);
    }

    /** Append the amino-acid track with its height. */
    method AddAminoAcids(t: AaTable, order: seq<string>, xRange: seq<real>, filterMinMaf: real) returns (r: Result<nat>)
      requires Valid()
      modifies this
      ensures Valid()
      ensures r.Ok? <==> AminoAcidStep(t, order, xRange, filterMinMaf).Ok?
      ensures r.Ok? ==> var ext := AminoAcidStep(t, order, xRange, filterMinMaf).value;
        figures == old(figures) + ext.panels && rowHeights == old(rowHeights) + ext.heights
      ensures r.Err? ==> r.error == AminoAcidStep(t, order, xRange, filterMinMaf).error
      ensures r.Err? ==> figures == old(figures) && rowHeights == old(rowHeights)
    {
      var track := AminoAcidTrack(t, order, xRange, filterMinMaf);
      if track.Err? {
        return Err(track.error);
      }
      figures := figures + [AminoAcidPanel(track.value)];
      rowHeights := rowHeights + [AminoAcidHeight(|track.value.cells|)];
      r := Ok(|track.value.cells|);
    }
  }

  /** plot_diplotype_clustering_advanced from the dendrogram on: extract
      the leaf order, sort it, then build the lists track by track. An
      input is present exactly when its track is requested (heterozygosity,
      a CNV region, a transcript with amino_acids). */
  method PlotDiplotypeClusteringAdvanced(dendro: seq<Trace>, samples: seq<string>, het: Option<HetTable>,
                                         cnv: Option<GeneCnvOutcome>, aa: Option<AaTable>, filterMinMaf: real)
    returns (r: Result<Layout>)
    ensures r == AdvancedLayout(dendro, samples, het, cnv, aa, filterMinMaf)
  {
    var orderData := ExtractDendroSampleOrder(dendro);
    if orderData.Err? {
      return Err(orderData.error);
    }
    var od := orderData.value;
    var xRange := XRange(od);
    var order := DendroSampleIdOrder(od);
    var view := new CompositeView(dendro);
    ghost var start := Layout([DendrogramPanel(dendro)], [DendrogramHeight]);
    ghost var s1 := HetStepFor(het, order, xRange);
    ghost var s2 := CnvStepFor(cnv, samples, order, xRange);
    ghost var s3 := AaStepFor(aa, order, xRange, filterMinMaf);
    assert AdvancedLayout(dendro, samples, het, cnv, aa, filterMinMaf) == Extend(Extend(Extend(Ok(start), s1), s2), s3);
    if het.Some? {
      var added := view.AddHeterozygosity(het.value, order, xRange);
      if added.Err? {
        return Err(added.error);
      }
    }
    ghost var l1 := Layout(view.figures, view.rowHeights);
    assert Extend(Ok(start), s1) == Ok(l1);
    if cnv.Some? {
      var added := view.AddCnvBars(cnv.value, samples, order, xRange);
      if added.Err? {
        return Err(added.error);
      }
    }
    ghost var l2 := Layout(view.figures, view.rowHeights);
    assert Extend(Ok(l1), s2) == Ok(l2);
    if aa.Some? {
      var added := view.AddAminoAcids(aa.value, order, xRange, filterMinMaf);
      if added.Err? {
        return Err(added.error);
      }
    }
    r := Ok(Layout(view.figures, view.rowHeights));
  }
}
