/** Boolean-mask selection, as numpy's `a.compress(mask)` / `a[mask]` and
    pandas' row filters do it: the elements at the positions where the mask
    holds, in their original order and with their multiplicity. */
module Selection {

  function Shift(idx: seq<nat>): (r: seq<nat>)
    ensures |r| == |idx|
  {
    seq(|idx|, k requires 0 <= k < |idx| => idx[k] + 1)
  }

  /** The positions where the mask holds (np.flatnonzero). */
  function Positions(mask: seq<bool>): (idx: seq<nat>)
    ensures |idx| <= |mask|
  {
    if mask == [] then []
    else (if mask[0] then [0] else []) + Shift(Positions(mask[1..]))
  }

  /** One step of Positions: the head position, then the tail's positions
      moved up by one. */
  lemma PositionsStep(mask: seq<bool>, k: nat)
    requires mask != [] && k < |Positions(mask[1..])|
    ensures var head: seq<nat> := if mask[0] then [0] else [];
      Positions(mask)[|head| + k] == Positions(mask[1..])[k] + 1
  {
  }

  /** Every listed position is one where the mask holds. */
  lemma {:induction false} PositionsSound(mask: seq<bool>, k: nat)
    requires k < |Positions(mask)|
    ensures Positions(mask)[k] < |mask| && mask[Positions(mask)[k]]
    decreases |mask|
  {
    var head: seq<nat> := if mask[0] then [0] else [];
    if k >= |head| {
      PositionsSound(mask[1..], k - |head|);
      PositionsStep(mask, k - |head|);
      assert mask[1..][Positions(mask[1..])[k - |head|]] == mask[Positions(mask)[k]];
    }
  }

  /** The positions are strictly ascending. */
  lemma {:induction false} PositionsAscending(mask: seq<bool>, k: nat, l: nat)
    requires k < l < |Positions(mask)|
    ensures Positions(mask)[k] < Positions(mask)[l]
    decreases |mask|
  {
    var head: seq<nat> := if mask[0] then [0] else [];
    PositionsStep(mask, l - |head|);
    if k >= |head| {
      PositionsAscending(mask[1..], k - |head|, l - |head|);
      PositionsStep(mask, k - |head|);
    }
  }

  /** Every position where the mask holds is listed. */
  lemma {:induction false} PositionsComplete(mask: seq<bool>, v: nat)
    requires v < |mask| && mask[v]
    ensures v in Positions(mask)
    decreases |mask|
  {
    var head: seq<nat> := if mask[0] then [0] else [];
    if v > 0 {
      assert mask[1..][v - 1] == mask[v];
      PositionsComplete(mask[1..], v - 1);
      var k :| 0 <= k < |Positions(mask[1..])| && Positions(mask[1..])[k] == v - 1;
      PositionsStep(mask, k);
      assert Positions(mask)[|head| + k] == v;
    }
  }

  /** Together: exactly the positions where the mask holds, ascending. */
  lemma PositionsFacts(mask: seq<bool>)
    ensures var idx := Positions(mask);
      && (forall k :: 0 <= k < |idx| ==> idx[k] < |mask| && mask[idx[k]])
      && (forall k, l :: 0 <= k < l < |idx| ==> idx[k] < idx[l])
      && (forall v :: 0 <= v < |mask| && mask[v] ==> v in idx)
  {
    forall k | 0 <= k < |Positions(mask)| ensures Positions(mask)[k] < |mask| && mask[Positions(mask)[k]] {
      PositionsSound(mask, k);
    }
    forall k, l | 0 <= k < l < |Positions(mask)| ensures Positions(mask)[k] < Positions(mask)[l] {
      PositionsAscending(mask, k, l);
    }
    forall v | 0 <= v < |mask| && mask[v] ensures v in Positions(mask) {
      PositionsComplete(mask, v);
    }
  }

  /** r is s[idx]: the elements of s at the positions idx, in that order. */
  ghost predicate ListsAt<T>(r: seq<T>, s: seq<T>, idx: seq<nat>) {
    |r| == |idx| && forall k :: 0 <= k < |idx| ==> idx[k] < |s| && r[k] == s[idx[k]]
  }

  /** r is s[mask]. */
  ghost predicate Selected<T>(r: seq<T>, s: seq<T>, mask: seq<bool>) {
    ListsAt(r, s, Positions(mask))
  }

  /** Peeling off the first element: a kept head leads the selection, and
      the rest of the selection is taken from the tail. */
  lemma SelectedCons<T>(r: seq<T>, s: seq<T>, mask: seq<bool>)
    requires s != [] && |mask| == |s|
    requires Selected(r, s[1..], mask[1..])
    ensures mask[0] ==> Selected([s[0]] + r, s, mask)
    ensures !mask[0] ==> Selected(r, s, mask)
  {
    var rest := Positions(mask[1..]);
    var sh := Shift(rest);
    assert Positions(mask) == (if mask[0] then [0] else []) + sh;
    forall k | 0 <= k < |rest| ensures sh[k] < |s| && r[k] == s[sh[k]] {
      assert sh[k] == rest[k] + 1;
      assert s[1..][rest[k]] == s[rest[k] + 1];
    }
    if mask[0] {
      var r' := [s[0]] + r;
      var idx := [0] + sh;
      forall k | 0 <= k < |idx| ensures idx[k] < |s| && r'[k] == s[idx[k]] {
        if k > 0 {
          assert idx[k] == sh[k - 1] && r'[k] == r[k - 1];
        }
      }
    }
  }

  lemma ShiftConcat(a: seq<nat>, b: seq<nat>)
    ensures Shift(a + b) == Shift(a) + Shift(b)
  {
  }

  /** Appending one position to the mask appends at most one position. */
  lemma {:induction false} PositionsSnoc(mask: seq<bool>, b: bool)
    ensures Positions(mask + [b]) == Positions(mask) + (if b then [|mask|] else [])
  {
    var m := mask + [b];
    if mask == [] {
      assert m[1..] == [];
      assert Positions(m) == (if b then [0] else []) + Shift([]);
    } else {
      assert m[0] == mask[0];
      assert m[1..] == mask[1..] + [b];
      PositionsSnoc(mask[1..], b);
      var rest := Positions(mask[1..]);
      var tail: seq<nat> := if b then [|mask[1..]|] else [];
      ShiftConcat(rest, tail);
      assert Shift(tail) == if b then [|mask|] else [];
      assert Positions(m) == (if m[0] then [0] else []) + Shift(Positions(m[1..]));
    }
  }

  /** Peeling off the last element, for selections built from the front. */
  lemma SelectedSnoc<T>(r: seq<T>, s: seq<T>, mask: seq<bool>)
    requires s != [] && |mask| == |s|
    requires Selected(r, s[..|s| - 1], mask[..|mask| - 1])
    ensures mask[|s| - 1] ==> Selected(r + [s[|s| - 1]], s, mask)
    ensures !mask[|s| - 1] ==> Selected(r, s, mask)
  {
    var n := |s| - 1;
    assert mask == mask[..n] + [mask[n]];
    PositionsSnoc(mask[..n], mask[n]);
    var front := Positions(mask[..n]);
    forall k | 0 <= k < |front| ensures front[k] < |s| && r[k] == s[front[k]] {
      assert s[..n][front[k]] == s[front[k]];
    }
  }
}
