/**
 * The deterministic augmentations of `Augmentation`: time reversal, the x/y
 * swap and the four-way jitter of turning trajectories.
 */
module Augmentation {
  import opened Trajectories

  // ---------------------------------------------------------------------
  // reverse

  /** One trajectory in reverse time order (np.flip along the time axis). */
  function Flip(s: Traj): (r: Traj)
    ensures |r| == |s|
  {
    if s == [] then [] else Flip(s[1..]) + [s[0]]
  }

  lemma {:induction false} FlipAt(s: Traj, t: nat)
    requires t < |s|
    ensures Flip(s)[t] == s[|s| - 1 - t]
  {
    if t < |s| - 1 {
      FlipAt(s[1..], t);
    }
  }

  lemma FlipBatchAt(b: Batch)
    ensures forall i, t :: 0 <= i < |b| && 0 <= t < |b[i]| ==> Flip(b[i])[t] == b[i][|b[i]| - 1 - t]
  {
    forall i, t | 0 <= i < |b| && 0 <= t < |b[i]| {
      FlipAt(b[i], t);
    }
  }

  /**
   * `Augmentation.reverse`: every trajectory reversed in time; when
   * `concatenated`, the unchanged batch is stacked after the reversed one.
   */
  function Reverse(b: Batch, concatenated: bool): (r: Batch)
    ensures |r| == if concatenated then 2 * |b| else |b|
    ensures forall i :: 0 <= i < |b| ==> |r[i]| == |b[i]|
    ensures forall i, t :: 0 <= i < |b| && 0 <= t < |b[i]| ==> r[i][t] == b[i][|b[i]| - 1 - t]
    ensures concatenated ==> r[|b|..] == b
  {
    FlipBatchAt(b);
    var flipped := seq(|b|, i requires 0 <= i < |b| => Flip(b[i]));
    if concatenated then flipped + b else flipped
  }

  /** Reversing twice (without stacking) gives back the batch. */
  lemma ReverseTwice(b: Batch)
    ensures Reverse(Reverse(b, false), false) == b
  {
    var r := Reverse(b, false);
    var rr := Reverse(r, false);
    forall i | 0 <= i < |b|
      ensures rr[i] == b[i]
    {
      assert |rr[i]| == |b[i]|;
      forall t | 0 <= t < |b[i]|
        ensures rr[i][t] == b[i][t]
      {
        assert rr[i][t] == r[i][|b[i]| - 1 - t];
      }
    }
  }

  /** The stacked result is the reversed batch followed by the original one. */
  lemma ReverseConcatenated(b: Batch)
    ensures Reverse(b, true) == Reverse(b, false) + b
  {
  }

  // ---------------------------------------------------------------------
  // swap_xy

  function Swap(p: Point): Point {
    Point(p.y, p.x)
  }

  /** The batch with the two channels of every point exchanged. */
  function Swapped(b: Batch): (r: Batch)
    ensures |r| == |b|
    ensures forall i :: 0 <= i < |b| ==> |r[i]| == |b[i]|
  {
    seq(|b|, i requires 0 <= i < |b| =>
      seq(|b[i]|, t requires 0 <= t < |b[i]| => Swap(b[i][t])))
  }

  /** Swapping twice is the identity. */
  lemma SwappedTwice(b: Batch)
    ensures Swapped(Swapped(b)) == b
  {
    var s := Swapped(Swapped(b));
    forall i | 0 <= i < |b|
      ensures s[i] == b[i]
    {
      assert |s[i]| == |b[i]|;
    }
  }

  /** Channel `to` of every entry of `dst` gets channel `from` of the matching point of `src` (augment.py:74-75). */
  method CopyChannel(src: Batch, steps: nat, dst: array3<real>, from: nat, to: nat)
    requires Uniform(src, steps) && from < 2 && to < 2
    requires dst.Length0 == |src| && dst.Length1 == steps && dst.Length2 == 2
    modifies dst
    ensures forall i, t :: 0 <= i < |src| && 0 <= t < steps ==> dst[i, t, to] == Channel(src[i][t], from)
    ensures forall i, t, c :: 0 <= i < |src| && 0 <= t < steps && 0 <= c < 2 && c != to ==>
      dst[i, t, c] == old(dst[i, t, c])
  {
    for i := 0 to |src|
      invariant forall i', t :: 0 <= i' < i && 0 <= t < steps ==> dst[i', t, to] == Channel(src[i'][t], from)
      invariant forall i', t, c :: 0 <= i' < |src| && 0 <= t < steps && 0 <= c < 2 && c != to ==>
        dst[i', t, c] == old(dst[i', t, c])
    {
      for t := 0 to steps
        invariant forall i', t' :: 0 <= i' < i && 0 <= t' < steps ==> dst[i', t', to] == Channel(src[i'][t'], from)
        invariant forall t' :: 0 <= t' < t ==> dst[i, t', to] == Channel(src[i][t'], from)
        invariant forall i', t', c :: 0 <= i' < |src| && 0 <= t' < steps && 0 <= c < 2 && c != to ==>
          dst[i', t', c] == old(dst[i', t', c])
      {
        dst[i, t, to] := Channel(src[i][t], from);
      }
    }
  }

  /**
   * `Augmentation.swap_xy`: a fresh [N, steps, 2] buffer whose channel 0 is
   * the input's channel 1 and whose channel 1 is the input's channel 0.
   */
  method SwapXY(b: Batch, steps: nat) returns (r: array3<real>)
    requires Uniform(b, steps)
    ensures fresh(r) && Stores(r, Swapped(b), steps)
  {
    r := new real[|b|, steps, 2]((_, _, _) => 0.0);
    CopyChannel(b, steps, r, 1, 0);
    CopyChannel(b, steps, r, 0, 1);
  }

  // ---------------------------------------------------------------------
  // augment_turning

  /** Positions of the true entries of the mask `rows`, in increasing order. */
  function Selected(rows: seq<bool>): (idx: seq<nat>)
    ensures |idx| <= |rows|
    ensures forall k :: 0 <= k < |idx| ==> idx[k] < |rows|
  {
    if rows == [] then []
    else Selected(rows[..|rows| - 1]) + (if rows[|rows| - 1] then [|rows| - 1] else [])
  }

  /** An index is selected exactly when its mask entry is true. */
  lemma {:induction false} SelectedExactly(rows: seq<bool>, i: nat)
    requires i < |rows|
    ensures rows[i] <==> i in Selected(rows)
  {
    var last := |rows| - 1;
    var front := rows[..last];
    assert Selected(rows) == Selected(front) + (if rows[last] then [last] else []);
    if i < last {
      SelectedExactly(front, i);
      assert last !in Selected(front);
    } else {
      assert i !in Selected(front);
    }
  }

  /** The selected indices keep the order of the batch. */
  lemma {:induction false} SelectedIncreasing(rows: seq<bool>)
    ensures forall k, l :: 0 <= k < l < |Selected(rows)| ==> Selected(rows)[k] < Selected(rows)[l]
  {
    if rows != [] {
      SelectedIncreasing(rows[..|rows| - 1]);
    }
  }

  /** The number of selected trajectories is the number of true entries of the mask. */
  lemma {:induction false} SelectedCount(rows: seq<bool>)
    ensures |Selected(rows)| == multiset(rows)[true]
  {
    if rows != [] {
      var last := |rows| - 1;
      SelectedCount(rows[..last]);
      assert rows == rows[..last] + [rows[last]];
      assert multiset(rows) == multiset(rows[..last]) + multiset{rows[last]};
    }
  }

  /** The trajectories whose mask entry is true, in their original order (boolean indexing, augment.py:112). */
  function Turning(b: Batch, rows: seq<bool>): (r: Batch)
    requires |rows| == |b|
    ensures |r| == |Selected(rows)|
    ensures forall k :: 0 <= k < |r| ==> r[k] == b[Selected(rows)[k]]
  {
    var idx := Selected(rows);
    seq(|idx|, k requires 0 <= k < |idx| => b[idx[k]])
  }

  /** Copy `j` of a point: moved left, right, up and down by 0.1 for j = 0, 1, 2, 3. */
  function Jitter(p: Point, j: nat): Point
    requires j < 4
  {
    if j == 0 then Sub(p, Point(0.1, 0.0))
    else if j == 1 then Add(p, Point(0.1, 0.0))
    else if j == 2 then Sub(p, Point(0.0, 0.1))
    else Add(p, Point(0.0, 0.1))
  }

  /** The 4K-row buffer the source fills by strided writes: row n is copy n % 4 of trajectory n / 4. */
  function Jittered(sel: Batch): (r: Batch)
    ensures |r| == 4 * |sel|
  {
    seq(4 * |sel|, n requires 0 <= n < 4 * |sel| =>
      seq(|sel[n / 4]|, t requires 0 <= t < |sel[n / 4]| => Jitter(sel[n / 4][t], n % 4)))
  }

  /** Row 4k + j of the jittered buffer is copy j of trajectory k, point by point. */
  lemma JitteredAt(sel: Batch, k: nat, j: nat)
    requires k < |sel| && j < 4
    ensures |Jittered(sel)[4 * k + j]| == |sel[k]|
    ensures forall t :: 0 <= t < |sel[k]| ==> Jittered(sel)[4 * k + j][t] == Jitter(sel[k][t], j)
  {
  }

  /** `augment_turning` (proportion 1) returns four rows per true entry of the mask, none when there is none. */
  lemma AugmentedCount(b: Batch, rows: seq<bool>)
    requires |rows| == |b|
    ensures |Jittered(Turning(b, rows))| == 4 * multiset(rows)[true]
  {
    SelectedCount(rows);
  }

  /**
   * What `augment_turning` (proportion 1) returns, in terms of the original
   * batch: row 4k + j is as long as the input's rows and is copy j of the
   * k-th selected trajectory.
   */
  lemma AugmentedRows(b: Batch, rows: seq<bool>, k: nat, j: nat)
    requires |rows| == |b| && k < |Selected(rows)| && j < 4
    ensures |Jittered(Turning(b, rows))[4 * k + j]| == |b[Selected(rows)[k]]|
    ensures forall t :: 0 <= t < |b[Selected(rows)[k]]| ==>
      Jittered(Turning(b, rows))[4 * k + j][t] == Jitter(b[Selected(rows)[k]][t], j)
  {
    JitteredAt(Turning(b, rows), k, j);
  }

  /** With no true entry in the mask the result is empty, and only then. */
  lemma NothingTurning(b: Batch, rows: seq<bool>)
    requires |rows| == |b|
    ensures Jittered(Turning(b, rows)) == [] <==> forall i :: 0 <= i < |rows| ==> !rows[i]
  {
    if Selected(rows) == [] {
      forall i | 0 <= i < |rows| ensures !rows[i] {
        SelectedExactly(rows, i);
      }
    } else {
      var i := Selected(rows)[0];
      SelectedExactly(rows, i);
    }
  }

  /** Rows j, j + 4, j + 8, ... get copy j (offset j) of trajectories 0, 1, 2, ...; other rows are kept (augment.py:120-123). */
  method WriteCopies(sel: Batch, steps: nat, r: array3<real>, j: nat)
    requires Uniform(sel, steps) && j < 4
    requires r.Length0 == 4 * |sel| && r.Length1 == steps && r.Length2 == 2
    modifies r
    ensures forall n, t :: 0 <= n < 4 * |sel| && n % 4 == j && 0 <= t < steps ==>
      r[n, t, 0] == Jitter(sel[n / 4][t], j).x && r[n, t, 1] == Jitter(sel[n / 4][t], j).y
    ensures forall n, t, c :: 0 <= n < 4 * |sel| && n % 4 != j && 0 <= t < steps && 0 <= c < 2 ==>
      r[n, t, c] == old(r[n, t, c])
  {
    for k := 0 to |sel|
      invariant forall n, t :: 0 <= n < 4 * k && n % 4 == j && 0 <= t < steps ==>
        r[n, t, 0] == Jitter(sel[n / 4][t], j).x && r[n, t, 1] == Jitter(sel[n / 4][t], j).y
      invariant forall n, t, c :: 0 <= n < 4 * |sel| && n % 4 != j && 0 <= t < steps && 0 <= c < 2 ==>
        r[n, t, c] == old(r[n, t, c])
    {
      var row := 4 * k + j;
      assert row / 4 == k && row % 4 == j;
      for t := 0 to steps
        invariant forall n, t' :: 0 <= n < 4 * k && n % 4 == j && 0 <= t' < steps ==>
          r[n, t', 0] == Jitter(sel[n / 4][t'], j).x && r[n, t', 1] == Jitter(sel[n / 4][t'], j).y
        invariant forall t' :: 0 <= t' < t ==>
          r[row, t', 0] == Jitter(sel[k][t'], j).x && r[row, t', 1] == Jitter(sel[k][t'], j).y
        invariant forall n, t', c :: 0 <= n < 4 * |sel| && n % 4 != j && 0 <= t' < steps && 0 <= c < 2 ==>
          r[n, t', c] == old(r[n, t', c])
      {
        var q := Jitter(sel[k][t], j);
        r[row, t, 0] := q.x;
        r[row, t, 1] := q.y;
      }
    }
  }

  /**
   * `Augmentation.augment_turning` with proportion 1, the turning mask
   * `rows` given: a fresh [4K, steps, 2] buffer holding the four jittered
   * copies of each selected trajectory.
   */
  method AugmentTurning(b: Batch, steps: nat, rows: seq<bool>) returns (r: array3<real>)
    requires Uniform(b, steps) && |rows| == |b|
    ensures fresh(r) && Stores(r, Jittered(Turning(b, rows)), steps)
  {
    var turning := Turning(b, rows);
    var n := |turning|;
    r := new real[4 * n, steps, 2]((_, _, _) => 0.0);
    WriteCopies(turning, steps, r, 0);
    WriteCopies(turning, steps, r, 1);
    WriteCopies(turning, steps, r, 2);
    WriteCopies(turning, steps, r, 3);
    var out := Jittered(turning);
    forall m | 0 <= m < 4 * n
      ensures |out[m]| == steps
    {
    }
  }
}
