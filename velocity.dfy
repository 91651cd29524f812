/**
 * Velocity features: `get_vel` (finite differences, the first timestep
 * copying the second) and `process_velocity` (velocity channels appended to
 * the observed part of each trajectory).
 */
module Velocity {
  import opened Trajectories

  /**
   * Velocities of one trajectory, built as the source builds them: zeros,
   * the differences written from timestep 1 on, then timestep 0 overwritten
   * by timestep 1.
   */
  function Velocities(s: Traj): (v: Traj)
    requires |s| >= 2
    ensures |v| == |s|
  {
    var diffs := seq(|s|, t requires 0 <= t < |s| => if t == 0 then Origin else Sub(s[t], s[t - 1]));
    diffs[0 := diffs[1]]
  }

  /** From timestep 1 on, the velocity is the difference to the previous point. */
  lemma VelocityDifference(s: Traj, t: nat)
    requires |s| >= 2 && 1 <= t < |s|
    ensures Velocities(s)[t] == Sub(s[t], s[t - 1])
  {
  }

  /** Timestep 0 repeats timestep 1 instead of being zero. */
  lemma VelocityBoundary(s: Traj)
    requires |s| >= 2
    ensures Velocities(s)[0] == Velocities(s)[1] == Sub(s[1], s[0])
  {
  }

  /** The start point moved by each displacement of `vs` in turn. */
  function Accumulate(p: Point, vs: seq<Point>): Point {
    if vs == [] then p else Add(Accumulate(p, vs[..|vs| - 1]), vs[|vs| - 1])
  }

  /** The velocities lose only the start point: summing them back reconstructs the trajectory. */
  lemma {:induction false} VelocitiesIntegrate(s: Traj, t: nat)
    requires |s| >= 2 && t < |s|
    ensures s[t] == Accumulate(s[0], Velocities(s)[1..t + 1])
  {
    if t > 0 {
      var v := Velocities(s);
      VelocitiesIntegrate(s, t - 1);
      assert v[1..t + 1][..t - 1] == v[1..t];
      assert v[1..t + 1][t - 1] == Sub(s[t], s[t - 1]);
    }
  }

  /** A trajectory on the line a + t * d, for t = 0, 1, ... */
  ghost predicate OnLine(s: Traj, a: Point, d: Point) {
    forall t :: 0 <= t < |s| ==> s[t] == Point(a.x + t as real * d.x, a.y + t as real * d.y)
  }

  /** A linear trajectory has the constant velocity d at every timestep, t = 0 included. */
  lemma LinearVelocity(s: Traj, a: Point, d: Point)
    requires |s| >= 2 && OnLine(s, a, d)
    ensures forall t :: 0 <= t < |s| ==> Velocities(s)[t] == d
  {
    forall t | 1 <= t < |s|
      ensures Velocities(s)[t] == d
    {
      VelocityDifference(s, t);
      LineStep(a, d, t);
    }
  }

  /** One step along the line a + t * d. */
  lemma LineStep(a: Point, d: Point, t: nat)
    requires t >= 1
    ensures Add(Point(a.x + (t - 1) as real * d.x, a.y + (t - 1) as real * d.y), d)
         == Point(a.x + t as real * d.x, a.y + t as real * d.y)
  {
  }

  lemma {:induction false} ConstantVelocityAt(s: Traj, d: Point, t: nat)
    requires |s| >= 2 && t < |s|
    requires forall t :: 0 <= t < |s| ==> Velocities(s)[t] == d
    ensures s[t] == Point(s[0].x + t as real * d.x, s[0].y + t as real * d.y)
  {
    if t > 0 {
      ConstantVelocityAt(s, d, t - 1);
      VelocityDifference(s, t);
      LineStep(s[0], d, t);
    }
  }

  /** Conversely, a constant velocity d means the trajectory is the line s[0] + t * d. */
  lemma ConstantVelocityIsLinear(s: Traj, d: Point)
    requires |s| >= 2
    requires forall t :: 0 <= t < |s| ==> Velocities(s)[t] == d
    ensures OnLine(s, s[0], d)
  {
    forall t | 0 <= t < |s| {
      ConstantVelocityAt(s, d, t);
    }
  }

  /** `get_vel` on a batch: `Velocities` of every trajectory. */
  function BatchVelocities(b: Batch): (v: Batch)
    requires forall i :: 0 <= i < |b| ==> |b[i]| >= 2
    ensures |v| == |b|
  {
    seq(|b|, i requires 0 <= i < |b| => Velocities(b[i]))
  }

  /** Timesteps 1.. of every row get the difference to the previous point (get_velocity.py:19). */
  method WriteDifferences(b: Batch, steps: nat, v: array3<real>)
    requires Uniform(b, steps) && steps >= 2
    requires v.Length0 == |b| && v.Length1 == steps && v.Length2 == 2
    modifies v
    ensures forall i, t :: 0 <= i < |b| && 1 <= t < steps ==>
      v[i, t, 0] == b[i][t].x - b[i][t - 1].x && v[i, t, 1] == b[i][t].y - b[i][t - 1].y
    ensures forall i, c :: 0 <= i < |b| && 0 <= c < 2 ==> v[i, 0, c] == old(v[i, 0, c])
  {
    for i := 0 to |b|
      invariant forall i', t :: 0 <= i' < i && 1 <= t < steps ==>
        v[i', t, 0] == b[i'][t].x - b[i'][t - 1].x && v[i', t, 1] == b[i'][t].y - b[i'][t - 1].y
      invariant forall i', c :: 0 <= i' < |b| && 0 <= c < 2 ==> v[i', 0, c] == old(v[i', 0, c])
    {
      WriteRow(b[i], v, i);
    }
  }

  /** The differences of one trajectory written into row `i` of the buffer. */
  method WriteRow(s: Traj, v: array3<real>, i: nat)
    requires i < v.Length0 && v.Length1 == |s| >= 2 && v.Length2 == 2
    modifies v
    ensures forall t :: 1 <= t < |s| ==> v[i, t, 0] == s[t].x - s[t - 1].x && v[i, t, 1] == s[t].y - s[t - 1].y
    ensures forall i', t, c :: 0 <= i' < v.Length0 && 0 <= t < |s| && 0 <= c < 2 && (i' != i || t == 0) ==>
      v[i', t, c] == old(v[i', t, c])
  {
    for t := 1 to |s|
      invariant forall t' :: 1 <= t' < t ==> v[i, t', 0] == s[t'].x - s[t' - 1].x && v[i, t', 1] == s[t'].y - s[t' - 1].y
      invariant forall i', t', c :: 0 <= i' < v.Length0 && 0 <= t' < |s| && 0 <= c < 2 && (i' != i || t' == 0 || t' >= t) ==>
        v[i', t', c] == old(v[i', t', c])
    {
      v[i, t, 0] := s[t].x - s[t - 1].x;
      v[i, t, 1] := s[t].y - s[t - 1].y;
    }
  }

  /** Timestep 0 of every row gets the velocity of timestep 1; the other timesteps are kept (get_velocity.py:20). */
  method CopyBoundary(b: Batch, steps: nat, v: array3<real>)
    requires steps >= 2 && v.Length0 == |b| && v.Length1 == steps && v.Length2 == 2
    modifies v
    ensures forall i, c :: 0 <= i < |b| && 0 <= c < 2 ==> v[i, 0, c] == old(v[i, 1, c])
    ensures forall i, t, c :: 0 <= i < |b| && 1 <= t < steps && 0 <= c < 2 ==> v[i, t, c] == old(v[i, t, c])
  {
    for i := 0 to |b|
      invariant forall i', c :: 0 <= i' < i && 0 <= c < 2 ==> v[i', 0, c] == old(v[i', 1, c])
      invariant forall i', t, c :: 0 <= i' < |b| && 1 <= t < steps && 0 <= c < 2 ==> v[i', t, c] == old(v[i', t, c])
    {
      v[i, 0, 0] := v[i, 1, 0];
      v[i, 0, 1] := v[i, 1, 1];
    }
  }

  /**
   * `get_vel`: a fresh [N, steps, 2] buffer holding the velocities; the batch
   * needs two timesteps, since the boundary rule reads timestep 1.
   */
  method GetVel(b: Batch, steps: nat) returns (v: array3<real>)
    requires Uniform(b, steps) && steps >= 2
    ensures fresh(v) && Stores(v, BatchVelocities(b), steps)
  {
    v := new real[|b|, steps, 2]((_, _, _) => 0.0);
    WriteDifferences(b, steps, v);
    CopyBoundary(b, steps, v);
    StoresVelocities(v, b, steps);
  }

  /** A buffer holding the differences from timestep 1 on, and at timestep 0 those of timestep 1, holds the velocities. */
  lemma StoresVelocities(v: array3<real>, b: Batch, steps: nat)
    requires Uniform(b, steps) && steps >= 2
    requires v.Length0 == |b| && v.Length1 == steps && v.Length2 == 2
    requires forall i, t :: 0 <= i < |b| && 1 <= t < steps ==>
      v[i, t, 0] == b[i][t].x - b[i][t - 1].x && v[i, t, 1] == b[i][t].y - b[i][t - 1].y
    requires forall i :: 0 <= i < |b| ==>
      v[i, 0, 0] == b[i][1].x - b[i][0].x && v[i, 0, 1] == b[i][1].y - b[i][0].y
    ensures Stores(v, BatchVelocities(b), steps)
  {
  }

  /** One point's four feature channels: x, y, vx, vy (concatenation along the last axis). */
  function Features(p: Point, v: Point): (f: seq<real>)
    ensures |f| == 4
  {
    [p.x, p.y] + [v.x, v.y]
  }

  /**
   * `process_velocity`: input_data pairs every observed point with the
   * velocity of the whole trajectory (observed then predicted) at the same
   * timestep; output_data is `pred` itself.
   */
  function ProcessVelocity(obs: Batch, pred: Batch): (r: (seq<seq<seq<real>>>, Batch))
    requires |obs| == |pred|
    requires forall i :: 0 <= i < |obs| ==> |obs[i]| + |pred[i]| >= 2
    ensures |r.0| == |obs|
    ensures forall i :: 0 <= i < |obs| ==> |r.0[i]| == |obs[i]|
  {
    var trajs := seq(|obs|, i requires 0 <= i < |obs| => obs[i] + pred[i]);
    var vel := BatchVelocities(trajs);
    (seq(|obs|, i requires 0 <= i < |obs| =>
       seq(|obs[i]|, t requires 0 <= t < |obs[i]| => Features(obs[i][t], vel[i][t]))),
     pred)
  }

  /**
   * Channels 0-1 of input_data are the observed points, channels 2-3 the
   * velocity of the concatenated trajectory, and output_data is `pred` unchanged.
   */
  lemma ProcessVelocityChannels(obs: Batch, pred: Batch, i: nat, t: nat)
    requires |obs| == |pred|
    requires forall i :: 0 <= i < |obs| ==> |obs[i]| + |pred[i]| >= 2
    requires i < |obs| && t < |obs[i]|
    ensures var r, v := ProcessVelocity(obs, pred), Velocities(obs[i] + pred[i]);
      r.1 == pred &&
      |r.0[i][t]| == 4 &&
      r.0[i][t][0] == obs[i][t].x && r.0[i][t][1] == obs[i][t].y &&
      r.0[i][t][2] == v[t].x && r.0[i][t][3] == v[t].y
  {
  }

  /** Appending points after the first two timesteps leaves the earlier velocities as they were. */
  lemma VelocitiesPrefix(o: Traj, p: Traj, t: nat)
    requires |o| >= 2 && t < |o|
    ensures Velocities(o + p)[t] == Velocities(o)[t]
  {
  }

  /**
   * With at least two observed timesteps the velocity channels are the
   * velocities of the observed part alone: they do not depend on `pred`.
   */
  lemma ObservedVelocityOnly(obs: Batch, pred: Batch, i: nat, t: nat)
    requires |obs| == |pred|
    requires forall i :: 0 <= i < |obs| ==> |obs[i]| + |pred[i]| >= 2
    requires i < |obs| && |obs[i]| >= 2 && t < |obs[i]|
    ensures var r := ProcessVelocity(obs, pred);
      r.0[i][t][2] == Velocities(obs[i])[t].x && r.0[i][t][3] == Velocities(obs[i])[t].y
  {
  }

  /**
   * With a single observed timestep the boundary rule reaches into `pred`:
   * the one velocity is the first predicted point minus the observed point.
   */
  lemma SingleObservedVelocity(obs: Batch, pred: Batch, i: nat)
    requires |obs| == |pred|
    requires forall i :: 0 <= i < |obs| ==> |obs[i]| + |pred[i]| >= 2
    requires i < |obs| && |obs[i]| == 1
    ensures var r, v := ProcessVelocity(obs, pred), Sub(pred[i][0], obs[i][0]);
      r.0[i][0][2] == v.x && r.0[i][0][3] == v.y
  {
  }
}
