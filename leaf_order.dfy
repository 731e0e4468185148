/** The dendrogram's leaf order: the positions and sample ids read off the
    rendered figure's traces, and their sort by position, which gives the
    coordinate system every track is laid out in. The loop of
    extract_dendro_sample_order is the method ExtractDendroSampleOrder;
    DendroOrderData is the function that specifies it. */
module LeafOrder {
  import opened Wrappers

  /** One trace of the dendrogram figure: x coordinates and hover texts.
      Trace 0 is the tree itself; each further trace holds leaf markers. */
  datatype Trace = Trace(x: seq<real>, hovertext: seq<string>)

  /** The two-column frame of leaf positions ("xs") and sample ids. */
  datatype OrderData = OrderData(xs: seq<real>, sampleIds: seq<string>)

  /** One row of that frame. */
  datatype Leaf = Leaf(x: real, sampleId: string)

  /** np.concatenate of a list of arrays. */
  function Concat<T>(parts: seq<seq<T>>): seq<T> {
    if parts == [] then [] else parts[0] + Concat(parts[1..])
  }

  lemma {:induction false} ConcatAppend<T>(parts: seq<seq<T>>, p: seq<T>)
    ensures Concat(parts + [p]) == Concat(parts) + p
  {
    if parts == [] {
      assert [] + [p] == [p];
    } else {
      assert (parts + [p])[1..] == parts[1..] + [p];
      ConcatAppend(parts[1..], p);
    }
  }

  function TraceXs(ts: seq<Trace>): seq<seq<real>> {
    seq(|ts|, k requires 0 <= k < |ts| => ts[k].x)
  }

  function TraceTexts(ts: seq<Trace>): seq<seq<string>> {
    seq(|ts|, k requires 0 <= k < |ts| => ts[k].hovertext)
  }

  /** The leaf traces: every trace but the first. */
  function LeafTraces(traces: seq<Trace>): seq<Trace> {
    if |traces| <= 1 then [] else traces[1..]
  }

  /** The x column: the leaf traces' x arrays, concatenated in order. */
  function LeafXs(traces: seq<Trace>): seq<real> {
    Concat(TraceXs(LeafTraces(traces)))
  }

  /** The sample-id column: the leaf traces' hover texts, in order. */
  function LeafTexts(traces: seq<Trace>): seq<string> {
    Concat(TraceTexts(LeafTraces(traces)))
  }

  /** The frame extraction as a value: an error when there is no leaf
      trace or when the columns differ in length, else the two columns. */
  function DendroOrderData(traces: seq<Trace>): (r: Result<OrderData>)
    ensures |traces| <= 1 ==> r == Err(NothingToConcatenate)
    ensures |traces| >= 2 && r.Err? ==> r.error == LengthMismatch
    ensures r.Ok? ==> |r.value.xs| == |r.value.sampleIds|
  {
    if |traces| <= 1 then Err(NothingToConcatenate)
    else if |LeafXs(traces)| != |LeafTexts(traces)| then Err(LengthMismatch)
    else Ok(OrderData(LeafXs(traces), LeafTexts(traces)))
  }

  /** extract_dendro_sample_order: collect the x and hover-text arrays of
      traces 1..n-1 and concatenate them into a two-column frame. With no
      leaf trace, np.concatenate has nothing to join; with columns of
      different lengths the frame cannot be built. */
  method ExtractDendroSampleOrder(traces: seq<Trace>) returns (r: Result<OrderData>)
    ensures |traces| <= 1 ==> r == Err(NothingToConcatenate)
    ensures r.Ok? <==> |traces| >= 2 && |LeafXs(traces)| == |LeafTexts(traces)|
    ensures r.Ok? ==> r.value == OrderData(LeafXs(traces), LeafTexts(traces))
    ensures r.Ok? ==> |r.value.xs| == |r.value.sampleIds|
    ensures r == DendroOrderData(traces)
  {
    var xs: seq<seq<real>> := [];
    var samples: seq<seq<string>> := [];
    var i := 1;
    while i < |traces|
      invariant 1 <= i
      invariant i <= |traces| || i == 1
      invariant |traces| >= 1 ==> xs == TraceXs(traces[1..i]) && samples == TraceTexts(traces[1..i])
      invariant |traces| == 0 ==> xs == [] && samples == []
    {
      assert traces[1..i + 1] == traces[1..i] + [traces[i]];
      xs := xs + [traces[i].x];
      samples := samples + [traces[i].hovertext];
      i := i + 1;
    }
    if |traces| >= 1 {
      assert traces[1..i] == traces[1..];
    }
    if xs == [] {
      r := Err(NothingToConcatenate);
    } else {
      var xsFlat := Concat(xs);
      var samplesFlat := Concat(samples);
      if |xsFlat| != |samplesFlat| {
        r := Err(LengthMismatch);
      } else {
        r := Ok(OrderData(xsFlat, samplesFlat));
      }
    }
  }

  /** A trace whose marker arrays line up, as the dendrogram draws them. */
  predicate Aligned(t: Trace) {
    |t.x| == |t.hovertext|
  }

  function Zip(xs: seq<real>, ids: seq<string>): (r: seq<Leaf>)
    requires |xs| == |ids|
    ensures |r| == |xs|
    ensures forall k :: 0 <= k < |r| ==> r[k] == Leaf(xs[k], ids[k])
  {
    seq(|xs|, k requires 0 <= k < |xs| => Leaf(xs[k], ids[k]))
  }

  /** The leaves of one trace, each x with its own hover text. */
  function TraceLeaves(t: Trace): seq<Leaf>
    requires Aligned(t)
  {
    Zip(t.x, t.hovertext)
  }

  function AllLeaves(ts: seq<Trace>): seq<Leaf>
    requires forall k :: 0 <= k < |ts| ==> Aligned(ts[k])
  {
    if ts == [] then [] else TraceLeaves(ts[0]) + AllLeaves(ts[1..])
  }

  /** When every leaf trace lines up, the two concatenated columns have
      equal length and row k pairs the k-th marker's x with that same
      marker's sample id: concatenating the columns separately keeps the
      rows together. */
  lemma {:induction false} ColumnsStayPaired(ts: seq<Trace>)
    requires forall k :: 0 <= k < |ts| ==> Aligned(ts[k])
    ensures |Concat(TraceXs(ts))| == |Concat(TraceTexts(ts))|
    ensures Zip(Concat(TraceXs(ts)), Concat(TraceTexts(ts))) == AllLeaves(ts)
  {
    if ts != [] {
      ColumnsStayPaired(ts[1..]);
      assert TraceXs(ts) == [ts[0].x] + TraceXs(ts[1..]);
      assert TraceTexts(ts) == [ts[0].hovertext] + TraceTexts(ts[1..]);
      var restX, restT := Concat(TraceXs(ts[1..])), Concat(TraceTexts(ts[1..]));
      assert Concat(TraceXs(ts)) == ts[0].x + restX;
      assert Concat(TraceTexts(ts)) == ts[0].hovertext + restT;
      var z := Zip(ts[0].x + restX, ts[0].hovertext + restT);
      assert z == TraceLeaves(ts[0]) + Zip(restX, restT);
    }
  }

  /** Extraction from a dendrogram whose leaf traces line up succeeds
      exactly when there is at least one leaf trace, and each row pairs a
      marker's x with its own hover text. */
  lemma AlignedTracesExtract(traces: seq<Trace>)
    requires forall k :: 1 <= k < |traces| ==> Aligned(traces[k])
    ensures DendroOrderData(traces).Ok? <==> |traces| >= 2
    ensures |LeafXs(traces)| == |LeafTexts(traces)|
    ensures Zip(LeafXs(traces), LeafTexts(traces)) == AllLeaves(LeafTraces(traces))
  {
    var ts := LeafTraces(traces);
    assert forall k :: 0 <= k < |ts| ==> ts[k] == traces[k + 1];
    ColumnsStayPaired(ts);
  }

  /** Projections of a sequence of leaves on its two columns. */
  function Xs(s: seq<Leaf>): (r: seq<real>)
    ensures |r| == |s|
  {
    if s == [] then [] else [s[0].x] + Xs(s[1..])
  }

  function Ids(s: seq<Leaf>): (r: seq<string>)
    ensures |r| == |s|
  {
    if s == [] then [] else [s[0].sampleId] + Ids(s[1..])
  }

  lemma {:induction false} ProjectionsOfZip(xs: seq<real>, ids: seq<string>)
    requires |xs| == |ids|
    ensures Xs(Zip(xs, ids)) == xs && Ids(Zip(xs, ids)) == ids
  {
    if xs != [] {
      ProjectionsOfZip(xs[1..], ids[1..]);
      assert Zip(xs, ids)[1..] == Zip(xs[1..], ids[1..]);
    }
  }

  lemma {:induction false} ProjectionAt(s: seq<Leaf>, k: nat)
    requires k < |s|
    ensures Xs(s)[k] == s[k].x && Ids(s)[k] == s[k].sampleId
  {
    if k > 0 { ProjectionAt(s[1..], k - 1); }
  }

  ghost predicate SortedByX(s: seq<Leaf>) {
    forall i, j :: 0 <= i < j < |s| ==> s[i].x <= s[j].x
  }

  /** Insert a leaf into a sorted sequence ahead of the first leaf that is
      not to its left. */
  function Insert(l: Leaf, s: seq<Leaf>): (r: seq<Leaf>)
    ensures |r| == |s| + 1
    ensures multiset(r) == multiset(s) + multiset{l}
    ensures r[0] == l || (s != [] && r[0] == s[0])
  {
    if s == [] || l.x <= s[0].x then [l] + s
    else
      assert s == [s[0]] + s[1..];
      [s[0]] + Insert(l, s[1..])
  }

  /** Inserting keeps a lower bound that the leaf and the sequence share. */
  lemma {:induction false} InsertLowerBound(l: Leaf, s: seq<Leaf>, b: real)
    requires b <= l.x
    requires forall k :: 0 <= k < |s| ==> b <= s[k].x
    ensures forall k :: 0 <= k < |s| + 1 ==> b <= Insert(l, s)[k].x
  {
    if s != [] && l.x > s[0].x {
      InsertLowerBound(l, s[1..], b);
      assert Insert(l, s) == [s[0]] + Insert(l, s[1..]);
    }
  }

  lemma {:induction false} InsertSorted(l: Leaf, s: seq<Leaf>)
    requires SortedByX(s)
    ensures SortedByX(Insert(l, s))
  {
    if s != [] && l.x > s[0].x {
      var rest := Insert(l, s[1..]);
      InsertSorted(l, s[1..]);
      InsertLowerBound(l, s[1..], s[0].x);
      assert Insert(l, s) == [s[0]] + rest;
    }
  }

  lemma {:induction false} InsertKeepsXs(l: Leaf, s: seq<Leaf>)
    ensures multiset(Xs(Insert(l, s))) == multiset(Xs(s)) + multiset{l.x}
  {
    var r := Insert(l, s);
    if s != [] && l.x > s[0].x {
      InsertKeepsXs(l, s[1..]);
      assert r[1..] == Insert(l, s[1..]);
      assert Xs(r) == [s[0].x] + Xs(r[1..]);
      assert Xs(s) == [s[0].x] + Xs(s[1..]);
    } else {
      assert Xs(r) == [l.x] + Xs(s);
    }
  }

  lemma {:induction false} InsertKeepsIds(l: Leaf, s: seq<Leaf>)
    ensures multiset(Ids(Insert(l, s))) == multiset(Ids(s)) + multiset{l.sampleId}
  {
    var r := Insert(l, s);
    if s != [] && l.x > s[0].x {
      InsertKeepsIds(l, s[1..]);
      assert r[1..] == Insert(l, s[1..]);
      assert Ids(r) == [s[0].sampleId] + Ids(r[1..]);
      assert Ids(s) == [s[0].sampleId] + Ids(s[1..]);
    } else {
      assert Ids(r) == [l.sampleId] + Ids(s);
    }
  }

  /** Sort the frame's rows by x (sort_values("xs")). */
  function SortByX(s: seq<Leaf>): (r: seq<Leaf>)
    ensures |r| == |s|
    ensures SortedByX(r)
    ensures multiset(r) == multiset(s)
  {
    if s == [] then []
    else
      assert s == [s[0]] + s[1..];
      InsertSorted(s[0], SortByX(s[1..]));
      Insert(s[0], SortByX(s[1..]))
  }

  lemma {:induction false} SortKeepsXs(s: seq<Leaf>)
    ensures multiset(Xs(SortByX(s))) == multiset(Xs(s))
  {
    if s != [] {
      var t := SortByX(s[1..]);
      assert SortByX(s) == Insert(s[0], t);
      SortKeepsXs(s[1..]);
      InsertKeepsXs(s[0], t);
      assert Xs(s) == [s[0].x] + Xs(s[1..]);
    }
  }

  lemma {:induction false} SortKeepsIds(s: seq<Leaf>)
    ensures multiset(Ids(SortByX(s))) == multiset(Ids(s))
  {
    if s != [] {
      var t := SortByX(s[1..]);
      assert SortByX(s) == Insert(s[0], t);
      SortKeepsIds(s[1..]);
      InsertKeepsIds(s[0], t);
      assert Ids(s) == [s[0].sampleId] + Ids(s[1..]);
    }
  }

  lemma SortProjections(s: seq<Leaf>)
    ensures multiset(Xs(SortByX(s))) == multiset(Xs(s))
    ensures multiset(Ids(SortByX(s))) == multiset(Ids(s))
  {
    SortKeepsXs(s);
    SortKeepsIds(s);
  }

  /** The sorted rows of the leaf-order frame. */
  function SortedLeaves(od: OrderData): seq<Leaf>
    requires |od.xs| == |od.sampleIds|
  {
    SortByX(Zip(od.xs, od.sampleIds))
  }

  /** x_range: the positions in ascending order, as many as there are
      leaves, and the same values as the frame's x column. */
  function XRange(od: OrderData): (r: seq<real>)
    requires |od.xs| == |od.sampleIds|
    ensures |r| == |od.xs|
    ensures forall i, j :: 0 <= i < j < |r| ==> r[i] <= r[j]
    ensures multiset(r) == multiset(od.xs)
  {
    var s := SortedLeaves(od);
    ProjectionsOfZip(od.xs, od.sampleIds);
    SortProjections(Zip(od.xs, od.sampleIds));
    forall i, j | 0 <= i < j < |s| ensures Xs(s)[i] <= Xs(s)[j] {
      ProjectionAt(s, i);
      ProjectionAt(s, j);
    }
    Xs(s)
  }

  /** dendro_sample_id_order: the sample ids ordered by position, a
      permutation of the frame's sample-id column. */
  function DendroSampleIdOrder(od: OrderData): (r: seq<string>)
    requires |od.xs| == |od.sampleIds|
    ensures |r| == |od.sampleIds|
    ensures multiset(r) == multiset(od.sampleIds)
  {
    ProjectionsOfZip(od.xs, od.sampleIds);
    SortProjections(Zip(od.xs, od.sampleIds));
    Ids(SortedLeaves(od))
  }

  /** Position j of the range and of the order come from the same row of
      the frame: the column labelled x_range[j] is that sample's leaf. */
  lemma RangeAndOrderPaired(od: OrderData, j: nat)
    requires |od.xs| == |od.sampleIds|
    requires j < |od.xs|
    ensures Leaf(XRange(od)[j], DendroSampleIdOrder(od)[j]) in multiset(Zip(od.xs, od.sampleIds))
  {
    var s := SortedLeaves(od);
    ProjectionAt(s, j);
    assert s[j] in multiset(s);
  }

  /** When no two leaves share a position, x_range rises strictly. */
  lemma RangeStrictlySorted(od: OrderData)
    requires |od.xs| == |od.sampleIds|
    requires forall i, j :: 0 <= i < j < |od.xs| ==> od.xs[i] != od.xs[j]
    ensures forall i, j :: 0 <= i < j < |XRange(od)| ==> XRange(od)[i] < XRange(od)[j]
  {
    var r := XRange(od);
    forall i, j | 0 <= i < j < |r| ensures r[i] < r[j] {
      if r[i] == r[j] {
        TwoOccurrences(r, i, j);
        DistinctCount(od.xs, r[i]);
      }
    }
  }

  lemma TwoOccurrences(r: seq<real>, i: nat, j: nat)
    requires i < j < |r| && r[i] == r[j]
    ensures multiset(r)[r[i]] >= 2
  {
    assert r == r[..i] + [r[i]] + r[i + 1..j] + [r[j]] + r[j + 1..];
  }

  lemma {:induction false} DistinctCount(xs: seq<real>, v: real)
    requires forall i, j :: 0 <= i < j < |xs| ==> xs[i] != xs[j]
    ensures multiset(xs)[v] <= 1
  {
    if xs != [] {
      DistinctCount(xs[1..], v);
      assert xs == [xs[0]] + xs[1..];
      if xs[0] == v {
        assert v !in xs[1..];
      }
    }
  }
}
