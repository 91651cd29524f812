/**
 * The affine coordinate transforms of `Normalization`: the apply mode of
 * `normalize`, its inverse `unnormalize`, and `nabs_process`, which moves the
 * last observed point of every trajectory to the origin.
 */
module Normalization {
  import opened Trajectories

  function NormalizePoint(p: Point, shiftX: real, shiftY: real, scale: real): Point
    requires scale != 0.0
  {
    Point((p.x - shiftX) / scale, (p.y - shiftY) / scale)
  }

  function UnnormalizePoint(p: Point, shiftX: real, shiftY: real, scale: real): Point {
    Point(p.x * scale + shiftX, p.y * scale + shiftY)
  }

  /** `Normalization.normalize` with shift and scale supplied: `(trajectories - shift) / scale`. */
  function Normalize(b: Batch, shiftX: real, shiftY: real, scale: real): (r: Batch)
    requires scale != 0.0
    ensures |r| == |b|
    ensures forall i :: 0 <= i < |b| ==> |r[i]| == |b[i]|
  {
    seq(|b|, i requires 0 <= i < |b| =>
      seq(|b[i]|, t requires 0 <= t < |b[i]| => NormalizePoint(b[i][t], shiftX, shiftY, scale)))
  }

  /** `Normalization.unnormalize`: `trajectories * scale + shift`. */
  function Unnormalize(b: Batch, shiftX: real, shiftY: real, scale: real): (r: Batch)
    ensures |r| == |b|
    ensures forall i :: 0 <= i < |b| ==> |r[i]| == |b[i]|
  {
    seq(|b|, i requires 0 <= i < |b| =>
      seq(|b[i]|, t requires 0 <= t < |b[i]| => UnnormalizePoint(b[i][t], shiftX, shiftY, scale)))
  }

  /** Unnormalizing with the parameters used to normalize gives back the batch. */
  lemma UnnormalizeNormalize(b: Batch, shiftX: real, shiftY: real, scale: real)
    requires scale != 0.0
    ensures Unnormalize(Normalize(b, shiftX, shiftY, scale), shiftX, shiftY, scale) == b
  {
    var r := Unnormalize(Normalize(b, shiftX, shiftY, scale), shiftX, shiftY, scale);
    forall i | 0 <= i < |b|
      ensures r[i] == b[i]
    {
      forall t | 0 <= t < |b[i]|
        ensures r[i][t] == b[i][t]
      {
        var p := b[i][t];
        assert (p.x - shiftX) / scale * scale == p.x - shiftX;
        assert (p.y - shiftY) / scale * scale == p.y - shiftY;
      }
    }
  }

  /** Normalizing with the parameters used to unnormalize gives back the batch. */
  lemma NormalizeUnnormalize(b: Batch, shiftX: real, shiftY: real, scale: real)
    requires scale != 0.0
    ensures Normalize(Unnormalize(b, shiftX, shiftY, scale), shiftX, shiftY, scale) == b
  {
    var r := Normalize(Unnormalize(b, shiftX, shiftY, scale), shiftX, shiftY, scale);
    forall i | 0 <= i < |b|
      ensures r[i] == b[i]
    {
      forall t | 0 <= t < |b[i]|
        ensures r[i][t] == b[i][t]
      {
        var p := b[i][t];
        assert (p.x * scale + shiftX - shiftX) / scale == p.x;
        assert (p.y * scale + shiftY - shiftY) / scale == p.y;
      }
    }
  }

  /** Every point of `s` moved by minus `d`. */
  function Translate(s: Traj, d: Point): (r: Traj)
    ensures |r| == |s|
  {
    seq(|s|, t requires 0 <= t < |s| => Sub(s[t], d))
  }

  /**
   * `Normalization.nabs_process`: both parts of trajectory i moved by minus the
   * last observed point of trajectory i; the last observed point becomes the origin.
   */
  function NabsProcess(obs: Batch, pred: Batch): (r: (Batch, Batch))
    requires |obs| == |pred|
    requires forall i :: 0 <= i < |obs| ==> |obs[i]| > 0
    ensures |r.0| == |obs| && |r.1| == |pred|
    ensures forall i :: 0 <= i < |obs| ==> |r.0[i]| == |obs[i]| && |r.1[i]| == |pred[i]|
    ensures forall i :: 0 <= i < |obs| ==> r.0[i][|obs[i]| - 1] == Origin
  {
    var last := seq(|obs|, i requires 0 <= i < |obs| => obs[i][|obs[i]| - 1]);
    (seq(|obs|, i requires 0 <= i < |obs| => Translate(obs[i], last[i])),
     seq(|pred|, i requires 0 <= i < |pred| => Translate(pred[i], last[i])))
  }

  /**
   * Both parts of one trajectory are moved by the same vector, and that vector
   * is minus the trajectory's last observed point.
   */
  lemma NabsTranslates(obs: Batch, pred: Batch, i: nat)
    requires |obs| == |pred|
    requires forall i :: 0 <= i < |obs| ==> |obs[i]| > 0
    requires i < |obs|
    ensures var r, d := NabsProcess(obs, pred), obs[i][|obs[i]| - 1];
      (forall t :: 0 <= t < |obs[i]| ==> r.0[i][t] == Sub(obs[i][t], d)) &&
      (forall t :: 0 <= t < |pred[i]| ==> r.1[i][t] == Sub(pred[i][t], d))
  {
  }

  /**
   * Displacements within one trajectory do not change: between two observed
   * points, between a predicted and an observed point, and between two
   * predicted points.
   */
  lemma NabsKeepsDisplacements(obs: Batch, pred: Batch, i: nat, s: nat, t: nat, u: nat)
    requires |obs| == |pred|
    requires forall i :: 0 <= i < |obs| ==> |obs[i]| > 0
    requires i < |obs|
    ensures var r := NabsProcess(obs, pred);
      (s < |obs[i]| && t < |obs[i]| ==> Sub(r.0[i][s], r.0[i][t]) == Sub(obs[i][s], obs[i][t])) &&
      (s < |pred[i]| && t < |obs[i]| ==> Sub(r.1[i][s], r.0[i][t]) == Sub(pred[i][s], obs[i][t])) &&
      (s < |pred[i]| && u < |pred[i]| ==> Sub(r.1[i][s], r.1[i][u]) == Sub(pred[i][s], pred[i][u]))
  {
    NabsTranslates(obs, pred, i);
  }

  /** A second `nabs_process` changes nothing: the last observed points are already at the origin. */
  lemma NabsIdempotent(obs: Batch, pred: Batch)
    requires |obs| == |pred|
    requires forall i :: 0 <= i < |obs| ==> |obs[i]| > 0
    ensures var r := NabsProcess(obs, pred); NabsProcess(r.0, r.1) == r
  {
    var r := NabsProcess(obs, pred);
    var rr := NabsProcess(r.0, r.1);
    forall i | 0 <= i < |obs|
      ensures rr.0[i] == r.0[i] && rr.1[i] == r.1[i]
    {
      NabsTranslates(r.0, r.1, i);
    }
    assert rr.0 == r.0;
    assert rr.1 == r.1;
  }
}
