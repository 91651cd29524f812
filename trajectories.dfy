/**
 * Trajectory batches, the one data shape the utilities share: N trajectories,
 * each of T timesteps, each timestep one (x, y) point. The source holds a batch
 * in a float64 array of shape [N, T, 2]; here a batch is a sequence of
 * trajectories and a coordinate is a `real`.
 */
module Trajectories {

  /** One position; channel 0 of the source's last axis is x, channel 1 is y. */
  datatype Point = Point(x: real, y: real)

  const Origin: Point := Point(0.0, 0.0)

  function Add(p: Point, q: Point): Point {
    Point(p.x + q.x, p.y + q.y)
  }

  function Sub(p: Point, q: Point): Point {
    Point(p.x - q.x, p.y - q.y)
  }

  /** The coordinate stored in channel `c` of the last axis. */
  function Channel(p: Point, c: nat): real
    requires c < 2
  {
    if c == 0 then p.x else p.y
  }

  type Traj = seq<Point>

  type Batch = seq<Traj>

  /** Every trajectory of `b` has `steps` timesteps: `b` is a rectangular [N, steps, 2] array. */
  ghost predicate Uniform(b: Batch, steps: nat) {
    forall i :: 0 <= i < |b| ==> |b[i]| == steps
  }

  /**
   * The buffer `a` has shape [|b|, steps, 2] and holds the batch `b`:
   * channel 0 of entry (i, t) is the x of b[i][t], channel 1 its y.
   */
  ghost predicate Stores(a: array3<real>, b: Batch, steps: nat)
    reads a
  {
    a.Length0 == |b| && a.Length1 == steps && a.Length2 == 2 && Uniform(b, steps) &&
    forall i, t :: 0 <= i < |b| && 0 <= t < steps ==>
      a[i, t, 0] == b[i][t].x && a[i, t, 1] == b[i][t].y
  }
}
