/**
 * Plot titles. The plain dendrogram builds its title only when the caller
 * asks for the automatic one; the lines are "Sample sets: ...", "Sample
 * query: ..." (each only when given) and "Genomic region: R (N SNPs)",
 * with N grouped in thousands ("12,345"). The composite figure always
 * builds a title, with lower-case labels and N written plainly. Lines are
 * joined with "<br>".
 */
module Titles {
  import opened Wrappers

  const LineBreak := "<br>"

  predicate IsDigit(c: char) { '0' <= c <= '9' }

  function Digit(d: nat): (c: char)
    requires d < 10
    ensures IsDigit(c)
  {
    ['0', '1', '2', '3', '4', '5', '6', '7', '8', '9'][d]
  }

  function DigitValue(c: char): nat
    requires IsDigit(c)
  {
    (c as int - '0' as int) as nat
  }

  lemma DigitValueInvertsDigit(d: nat)
    requires d < 10
    ensures DigitValue(Digit(d)) == d
  {
  }

  /** Python's str(n) for a non-negative int: decimal, no leading zeros. */
  function Decimal(n: nat): (s: string)
    ensures |s| >= 1
    ensures forall i :: 0 <= i < |s| ==> IsDigit(s[i])
    ensures |s| > 1 ==> s[0] != '0'
  {
    if n < 10 then [Digit(n)] else Decimal(n / 10) + [Digit(n % 10)]
  }

  /** Reads a string of digits back as a number. */
  function ValueOf(s: string): nat
    requires forall i :: 0 <= i < |s| ==> IsDigit(s[i])
  {
    if s == [] then 0 else 10 * ValueOf(s[..|s| - 1]) + DigitValue(s[|s| - 1])
  }

  lemma {:induction false} DecimalRoundTrip(n: nat)
    ensures ValueOf(Decimal(n)) == n
  {
    var s := Decimal(n);
    if n < 10 {
      assert s[..0] == [];
      DigitValueInvertsDigit(n);
    } else {
      assert s[..|s| - 1] == Decimal(n / 10);
      DecimalRoundTrip(n / 10);
      DigitValueInvertsDigit(n % 10);
    }
  }

  /** The last three digits of a group, zero-padded. */
  function ThreeDigits(m: nat): (s: string)
    requires m < 1000
    ensures |s| == 3 && forall i :: 0 <= i < 3 ==> IsDigit(s[i])
  {
    [Digit(m / 100), Digit(m / 10 % 10), Digit(m % 10)]
  }

  /** Python's f"{n:,}": decimal with a comma before every group of three digits. */
  function Grouped(n: nat): (s: string)
    ensures |s| >= 1
    ensures n < 1000 <==> ',' !in s
    // The last group is a comma followed by exactly three digits.
    ensures n >= 1000 ==> |s| >= 5 && s[|s| - 4] == ',' && forall i :: |s| - 3 <= i < |s| ==> IsDigit(s[i])
  {
    if n < 1000 then Decimal(n) else Grouped(n / 1000) + "," + ThreeDigits(n % 1000)
  }

  predicate AllDigits(s: string) {
    forall i :: 0 <= i < |s| ==> IsDigit(s[i])
  }

  /** The layout of f"{n:,}": a first group of one to three digits, then
      groups of exactly three digits, each after a comma. */
  predicate GroupedByThousands(s: string)
    decreases |s|
  {
    if |s| <= 3 then 1 <= |s| && AllDigits(s)
    else |s| >= 5 && s[|s| - 4] == ',' && AllDigits(s[|s| - 3..]) && GroupedByThousands(s[..|s| - 4])
  }

  lemma DecimalBelowHundred(n: nat)
    requires n < 100
    ensures |Decimal(n)| <= 2
  {
    if n >= 10 {
      assert n / 10 < 10;
    }
  }

  lemma DecimalBelowThousand(n: nat)
    requires n < 1000
    ensures |Decimal(n)| <= 3
  {
    if n >= 10 {
      assert n / 10 < 100;
      DecimalBelowHundred(n / 10);
    }
  }

  lemma {:induction false} GroupedCommasEveryThree(n: nat)
    ensures GroupedByThousands(Grouped(n))
  {
    var s := Grouped(n);
    if n < 1000 {
      DecimalBelowThousand(n);
    } else {
      var g := Grouped(n / 1000);
      var t := ThreeDigits(n % 1000);
      GroupedCommasEveryThree(n / 1000);
      assert s == g + "," + t;
      assert s[..|s| - 4] == g;
      assert s[|s| - 3..] == t;
    }
  }

  function WithoutCommas(s: string): (r: string)
    ensures ',' !in r
    ensures |r| <= |s|
  {
    if s == [] then []
    else (if s[0] == ',' then [] else [s[0]]) + WithoutCommas(s[1..])
  }

  lemma WithoutCommasOfDigits(s: string)
    requires forall i :: 0 <= i < |s| ==> IsDigit(s[i])
    ensures WithoutCommas(s) == s
  {
  }

  /** Splitting off three digits at once, the way grouping does. */
  lemma DecimalSplitsAtThousands(n: nat)
    requires n >= 1000
    ensures Decimal(n) == Decimal(n / 1000) + ThreeDigits(n % 1000)
  {
    var q := n / 10;
    var q2 := q / 10;
    assert q2 / 10 == n / 1000;
    assert n % 10 == n % 1000 % 10;
    assert q % 10 == n % 1000 / 10 % 10;
    assert q2 % 10 == n % 1000 / 100;
    assert Decimal(n) == Decimal(q) + [Digit(n % 10)];
    assert Decimal(q) == Decimal(q2) + [Digit(q % 10)];
    assert Decimal(q2) == Decimal(q2 / 10) + [Digit(q2 % 10)];
  }

  /** Dropping the separators from the grouped form gives the plain decimal. */
  lemma {:induction false} WithoutCommasJoin(g: string, t: string)
    requires AllDigits(t)
    ensures WithoutCommas(g + "," + t) == WithoutCommas(g) + t
  {
    var s := g + "," + t;
    if g == [] {
      assert s[0] == ',' && s[1..] == t;
      WithoutCommasOfDigits(t);
    } else {
      assert s[0] == g[0] && s[1..] == g[1..] + "," + t;
      WithoutCommasJoin(g[1..], t);
    }
  }

  lemma {:induction false} GroupedIsDecimalWithCommas(n: nat)
    ensures WithoutCommas(Grouped(n)) == Decimal(n)
  {
    if n < 1000 {
      WithoutCommasOfDigits(Decimal(n));
    } else {
      GroupedIsDecimalWithCommas(n / 1000);
      WithoutCommasJoin(Grouped(n / 1000), ThreeDigits(n % 1000));
      DecimalSplitsAtThousands(n);
    }
  }

  /** So the grouped count still reads back as the count. */
  lemma GroupedRoundTrip(n: nat)
    ensures var plain := WithoutCommas(Grouped(n));
            (forall i :: 0 <= i < |plain| ==> IsDigit(plain[i])) && ValueOf(plain) == n
  {
    GroupedIsDecimalWithCommas(n);
    DecimalRoundTrip(n);
  }

  /** "<br>".join(lines). */
  function Join(lines: seq<string>, sep: string): (r: string)
    ensures lines == [] ==> r == []
    ensures |lines| == 1 ==> r == lines[0]
  {
    if lines == [] then []
    else if |lines| == 1 then lines[0]
    else Join(lines[..|lines| - 1], sep) + sep + lines[|lines| - 1]
  }

  function TotalLength(lines: seq<string>): nat
  {
    if lines == [] then 0 else TotalLength(lines[..|lines| - 1]) + |lines[|lines| - 1]|
  }

  /** Joining adds exactly one separator between neighbouring lines. */
  lemma {:induction false} JoinLength(lines: seq<string>, sep: string)
    requires lines != []
    ensures |Join(lines, sep)| == TotalLength(lines) + (|lines| - 1) * |sep|
  {
    var last := lines[|lines| - 1];
    var front := lines[..|lines| - 1];
    assert TotalLength(lines) == TotalLength(front) + |last|;
    if |lines| > 1 {
      JoinLength(front, sep);
      assert Join(lines, sep) == Join(front, sep) + sep + last;
      assert (|lines| - 1) * |sep| == (|front| - 1) * |sep| + |sep|;
    } else {
      assert front == [];
    }
  }

  /** The joined text begins with the first line and ends with the last. */
  lemma {:induction false} JoinEnds(lines: seq<string>, sep: string)
    requires lines != []
    ensures lines[0] <= Join(lines, sep)
    ensures Join(lines, sep)[|Join(lines, sep)| - |lines[|lines| - 1]|..] == lines[|lines| - 1]
  {
    if |lines| > 1 {
      var front := lines[..|lines| - 1];
      JoinEnds(front, sep);
      assert front[0] == lines[0];
      var j := Join(front, sep);
      assert Join(lines, sep) == j + sep + lines[|lines| - 1];
      assert lines[0] <= j;
      assert (j + sep + lines[|lines| - 1])[..|lines[0]|] == j[..|lines[0]|];
    }
  }

  datatype Style = Dendrogram | Composite

  function RegionLine(style: Style, region: string, nSnps: nat): string
  {
    match style
    case Dendrogram => "Genomic region: " + region + " (" + Grouped(nSnps) + " SNPs)"
    case Composite => "genomic region: " + region + " (" + Decimal(nSnps) + " SNPs)"
  }

  function SampleSetsLine(style: Style, sampleSets: string): string
  {
    (if style == Dendrogram then "Sample sets: " else "sample sets: ") + sampleSets
  }

  function SampleQueryLine(style: Style, sampleQuery: string): string
  {
    (if style == Dendrogram then "Sample query: " else "sample query: ") + sampleQuery
  }

  /**
   * The title lines: the sample-set line when sample sets were given, the
   * query line when a query was given, and always the region line last.
   */
  function TitleLines(style: Style, sampleSets: Option<string>, sampleQuery: Option<string>,
                      region: string, nSnps: nat): (lines: seq<string>)
    ensures |lines| == 1 + (if sampleSets.Some? then 1 else 0) + (if sampleQuery.Some? then 1 else 0)
    ensures lines[|lines| - 1] == RegionLine(style, region, nSnps)
    ensures sampleSets.Some? ==> lines[0] == SampleSetsLine(style, sampleSets.value)
    ensures sampleSets.None? && sampleQuery.Some? ==> lines[0] == SampleQueryLine(style, sampleQuery.value)
    ensures sampleSets.Some? && sampleQuery.Some? ==> lines[1] == SampleQueryLine(style, sampleQuery.value)
  {
    (if sampleSets.Some? then [SampleSetsLine(style, sampleSets.value)] else [])
    + (if sampleQuery.Some? then [SampleQueryLine(style, sampleQuery.value)] else [])
    + [RegionLine(style, region, nSnps)]
  }

  /** The title: the given lines joined with "<br>", region line last. */
  function Title(style: Style, sampleSets: Option<string>, sampleQuery: Option<string>,
                 region: string, nSnps: nat): (t: string)
    ensures sampleSets.None? && sampleQuery.None? ==> t == RegionLine(style, region, nSnps)
    ensures sampleSets.Some? && sampleQuery.None? ==>
      t == SampleSetsLine(style, sampleSets.value) + LineBreak + RegionLine(style, region, nSnps)
    ensures sampleSets.None? && sampleQuery.Some? ==>
      t == SampleQueryLine(style, sampleQuery.value) + LineBreak + RegionLine(style, region, nSnps)
    ensures sampleSets.Some? && sampleQuery.Some? ==>
      t == SampleSetsLine(style, sampleSets.value) + LineBreak + SampleQueryLine(style, sampleQuery.value)
           + LineBreak + RegionLine(style, region, nSnps)
  {
    var lines := TitleLines(style, sampleSets, sampleQuery, region, nSnps);
    assert |lines| >= 2 ==> lines[..|lines| - 1][..|lines| - 2] == lines[..|lines| - 2];
    assert |lines| == 3 ==> Join(lines[..2], LineBreak) == lines[0] + LineBreak + lines[1] by {
      if |lines| == 3 {
        assert lines[..2][..1] == [lines[0]];
      }
    }
    Join(lines, LineBreak)
  }

  /** The title argument of the plain dendrogram: True, a string, or anything else left as given. */
  datatype TitleArg = Automatic | Given(text: string) | NoTitle

  /** The plain dendrogram replaces only an automatic title. */
  function DendrogramTitle(arg: TitleArg, sampleSets: Option<string>, sampleQuery: Option<string>,
                           region: string, nSnps: nat): (t: TitleArg)
    ensures arg.Automatic? ==> t == Given(Title(Dendrogram, sampleSets, sampleQuery, region, nSnps))
    ensures !arg.Automatic? ==> t == arg
  {
    if arg.Automatic? then Given(Title(Dendrogram, sampleSets, sampleQuery, region, nSnps)) else arg
  }
}
