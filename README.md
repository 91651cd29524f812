# Trajectory batch transforms, modelled in Dafny

This project models the deterministic core of `pytp`, a small set of
utilities used to prepare trajectory-prediction training data.
A *batch* holds N trajectories of T timesteps, one (x, y) point per timestep.
The source stores it in an `[N, T, 2]` float64 numpy array.
The model covers:

- from `Augmentation`: time reversal, the x/y swap and the four-way jitter of
  turning trajectories;
- from `Normalization`: the apply mode of `normalize`, its inverse
  `unnormalize`, and `nabs_process`;
- from `get_velocity.py`: `get_vel` and `process_velocity`.

Representation:

- `Trajectories.Point(x, y)` holds `real` coordinates, standing in for the
  source's floats.
- A batch is `seq<seq<Point>>`.
- `Uniform(b, steps)` says that every trajectory of a batch has `steps`
  timesteps, i.e. that the batch is a rectangular array.
- Inputs are values, because no operation of the source mutates its input.
- `swap_xy`, `augment_turning` and `get_vel` allocate a zero buffer and fill it
  by slice assignment. They are modelled as methods that allocate a fresh
  `array3<real>` and fill it in loops, one helper method per slice assignment
  of the source. The buffer has shape `[N, steps, 2]` for `swap_xy` and
  `get_vel`, and `[4K, steps, 2]` for `augment_turning`, where K is the number
  of selected trajectories.
- `Stores(a, b, steps)` ties such a buffer to the batch value `b` that a
  specification function computes, so each method is proved against a
  function, and the properties are lemmas about that function.
- The pure code (`reverse`, `normalize`, `unnormalize`, `nabs_process`,
  `process_velocity`) is modelled as functions.
- The `[N, obs_len, 4]` array of `process_velocity` is `seq<seq<seq<real>>>`.
  Each point's innermost sequence is `[x, y] + [vx, vy]`, which is the
  concatenation along the last axis.

The functions accept batches whose trajectories differ in length and state
their results per trajectory. For a rectangular batch this is exactly the
array shape the source produces.

With `return_concated`, `reverse` stacks the reversed batch first and the
original batch after it (augment.py:31).

## Model

| member | source | states |
|---|---|---|
| `Augmentation.Flip` | pytp/utils/augment.py:28 | a reversed trajectory has the same number of timesteps |
| `Augmentation.FlipAt` | pytp/utils/augment.py:28 | timestep t of a flipped trajectory is timestep T-1-t of the original |
| `Augmentation.Reverse` | pytp/utils/augment.py:20-33 | the result has N rows, or 2N when stacked; row i keeps the length of trajectory i and holds it backwards (`r[i][t] == b[i][T-1-t]`); when stacked, rows N..2N-1 are the original batch |
| `Augmentation.ReverseTwice` | pytp/utils/augment.py:27-28 | reversing twice without stacking gives back the batch exactly |
| `Augmentation.ReverseConcatenated` | pytp/utils/augment.py:30-31 | the stacked result is the reversed batch followed by the original batch, in that order |
| `Augmentation.Swapped` | pytp/utils/augment.py:73-75 | the swapped batch has the shape of the input |
| `Augmentation.SwappedTwice` | pytp/utils/augment.py:73-76 | swapping x and y twice is the identity |
| `Augmentation.CopyChannel` | pytp/utils/augment.py:74-75 | after `dst[:, :, to] = src[:, :, from]`, channel `to` of every buffer entry holds channel `from` of the batch point, and the other channel is untouched |
| `Augmentation.SwapXY` | pytp/utils/augment.py:68-76 | returns a fresh `[N, steps, 2]` buffer whose entry (i, t) is `(b[i][t].y, b[i][t].x)` |
| `Augmentation.Selected` | pytp/utils/augment.py:111-112 | the selected positions are valid trajectory indices, at most N of them |
| `Augmentation.SelectedExactly` | pytp/utils/augment.py:111-112 | index i is selected if and only if mask entry i is true |
| `Augmentation.SelectedIncreasing` | pytp/utils/augment.py:112 | selected indices are strictly increasing, so the original relative order is kept |
| `Augmentation.SelectedCount` | pytp/utils/augment.py:112-113 | the number K of selected trajectories is the number of true mask entries |
| `Augmentation.Turning` | pytp/utils/augment.py:112 | `trajs[rows]` has K rows, and row k is the trajectory at the k-th selected index |
| `Augmentation.Jittered` | pytp/utils/augment.py:119 | the jitter buffer has 4K rows |
| `Augmentation.JitteredAt` | pytp/utils/augment.py:119-123 | row 4k+j has the timestep count of trajectory k, and each of its points is point p of trajectory k moved by (-0.1, 0), (+0.1, 0), (0, -0.1) or (0, +0.1) for j = 0, 1, 2, 3 |
| `Augmentation.AugmentedCount` | pytp/utils/augment.py:111-119 | for every mask, the result has 4 times as many rows as the mask has true entries (none when there is none) |
| `Augmentation.AugmentedRows` | pytp/utils/augment.py:111-123 | in terms of the input batch: row 4k+j has the input's timestep count and is copy j of the k-th selected trajectory |
| `Augmentation.NothingTurning` | pytp/utils/augment.py:118-119 | the result is empty if and only if no mask entry is true |
| `Augmentation.WriteCopies` | pytp/utils/augment.py:120-123 | the strided write `new_trajs[j::4] = turning ± offset` fills every row n with n % 4 == j with copy j of trajectory n / 4, and leaves every other row untouched |
| `Augmentation.AugmentTurning` | pytp/utils/augment.py:81-125 | with proportion 1 and the turning mask given, returns a fresh `[4K, steps, 2]` buffer holding exactly the jittered copies of the selected trajectories |
| `Normalization.Normalize` | pytp/utils/normalize.py:47-50 | apply mode returns a single batch, of the input's shape |
| `Normalization.Unnormalize` | pytp/utils/normalize.py:76-78 | the result has the input's shape |
| `Normalization.UnnormalizeNormalize` | pytp/utils/normalize.py:47-78 | for scale ≠ 0, unnormalizing a normalized batch with the same shift and scale gives back the batch exactly |
| `Normalization.NormalizeUnnormalize` | pytp/utils/normalize.py:47-78 | for scale ≠ 0, normalizing an unnormalized batch with the same shift and scale gives back the batch exactly |
| `Normalization.Translate` | pytp/utils/normalize.py:101-102 | a translated trajectory keeps its number of timesteps |
| `Normalization.NabsProcess` | pytp/utils/normalize.py:100-104 | both outputs keep their inputs' shapes (pred's timestep count may differ from obs's), and the last observed point of every trajectory becomes (0, 0) |
| `Normalization.NabsTranslates` | pytp/utils/normalize.py:100-102 | every point of obs[i] and of pred[i] is moved by the same vector, minus the last point of obs[i] |
| `Normalization.NabsKeepsDisplacements` | pytp/utils/normalize.py:100-102 | the difference between any two points of one trajectory is unchanged: two observed points, a predicted and an observed point, or two predicted points |
| `Normalization.NabsIdempotent` | pytp/utils/normalize.py:100-104 | applying `nabs_process` to its own output changes nothing |
| `Velocity.Velocities` | pytp/utils/get_velocity.py:18-20 | the velocities of a trajectory have its timestep count |
| `Velocity.VelocityDifference` | pytp/utils/get_velocity.py:19 | for 1 ≤ t < T the velocity is `s[t] - s[t-1]` |
| `Velocity.VelocityBoundary` | pytp/utils/get_velocity.py:20 | the velocity at timestep 0 equals the one at timestep 1, `s[1] - s[0]`, and is not zero-filled |
| `Velocity.VelocitiesIntegrate` | pytp/utils/get_velocity.py:19-20 | adding velocities 1..t to the start point gives back point t, so only the start point is lost |
| `Velocity.LinearVelocity` | pytp/utils/get_velocity.py:19-20 | on a linear trajectory a + t·d, every velocity, t = 0 included, equals d |
| `Velocity.ConstantVelocityIsLinear` | pytp/utils/get_velocity.py:19-20 | conversely, if every velocity equals d, the trajectory is the line s[0] + t·d |
| `Velocity.BatchVelocities` | pytp/utils/get_velocity.py:12-22 | the velocity batch has one row per trajectory |
| `Velocity.WriteDifferences` | pytp/utils/get_velocity.py:19 | after the slice write, entry (i, t) holds `b[i][t] - b[i][t-1]` for t ≥ 1, and timestep 0 is untouched |
| `Velocity.WriteRow` | pytp/utils/get_velocity.py:19 | writes the differences of one trajectory into its row, and changes nothing else |
| `Velocity.CopyBoundary` | pytp/utils/get_velocity.py:20 | timestep 0 of every row takes the old value of timestep 1, and the other timesteps are kept |
| `Velocity.StoresVelocities` | pytp/utils/get_velocity.py:18-20 | a buffer holding the differences from t = 1 on, and those of t = 1 at t = 0, holds the velocities of the batch |
| `Velocity.GetVel` | pytp/utils/get_velocity.py:12-22 | for T ≥ 2, returns a fresh `[N, T, 2]` buffer holding the velocities of every trajectory |
| `Velocity.Features` | pytp/utils/get_velocity.py:42 | the concatenation along the last axis gives four channels |
| `Velocity.ProcessVelocity` | pytp/utils/get_velocity.py:25-45 | input_data has one row per trajectory, each with obs_len timesteps |
| `Velocity.ProcessVelocityChannels` | pytp/utils/get_velocity.py:38-43 | channels 0-1 of input_data are the observed point, channels 2-3 are the velocity of obs ++ pred at the same timestep, and output_data is pred unchanged |
| `Velocity.VelocitiesPrefix` | pytp/utils/get_velocity.py:38-42 | when the first part has at least two points, appending points leaves the velocities of the first part as they were |
| `Velocity.ObservedVelocityOnly` | pytp/utils/get_velocity.py:38-42 | when obs_len ≥ 2, the velocity channels equal the velocities of obs alone, so they do not depend on pred |
| `Velocity.SingleObservedVelocity` | pytp/utils/get_velocity.py:38-42 | when obs_len = 1, the boundary rule reaches into pred: the velocity channels are pred[i][0] - obs[i][0] |

## Left out

- `Augmentation.random_rotate` (augment.py:38-63) is not modelled. It draws a random angle and uses `cos` and `sin`, which have no exact counterpart over `real`. As written it also subtracts `origin` and never adds it back.
- The turning test (augment.py:108-109) is not modelled. It compares `sqrt` distances and has no exact counterpart over `real`. `AugmentTurning` takes the boolean mask `rows` as a parameter instead.
- The `proportion < 1` branch of `augment_turning` (augment.py:114-116) is not modelled. It depends on random sampling, and as written it is defective: it passes a float count to `np.random.rand` and calls `int()` on an array.
- The compute mode of `normalize` (normalize.py:51-58) is not modelled, because it is defective as written. Mean, min and max are taken over `axis=-1` (the x/y axis), so `reshape(1, 2)` works only when N·T = 2. Even then `shift` has shape (1, 2), so `shift[1]` at normalize.py:58 always raises an index error: compute mode never returns. The in-place division by a data-derived scale can also divide by zero.
- Normalize: requires `scale != 0`. With float64 the source would return inf or nan, and reals have neither.
- Normalize: takes three reals. The source's "`shift_x` given but `shift_y` or `scale` missing" case fails inside numpy and is not modelled.
- NabsProcess: requires obs and pred to have the same trajectory count. Numpy broadcasting also accepts a single trajectory on one side. An obs trajectory with no timestep raises an index error in the source (normalize.py:100), and the model's requires excludes it. With N = 0 the sequence model has no timestep count, so the source's index error for T_obs = 0 is not modelled there: the model returns `([], [])`.
- GetVel: requires at least two timesteps. With fewer, line 20 of get_velocity.py raises an index error.
- ProcessVelocity: requires obs and pred to have the same trajectory count, which `np.concatenate` also demands, and at least two timesteps in total per trajectory, which `get_vel` demands. With N = 0 the sequence model has no timestep count, so the source's index error for T_obs + T_pred < 2 (get_velocity.py:20) is not modelled there: the model returns `([], [])`.
- Floating point: every equation here holds exactly over `real`. With IEEE doubles the normalize round trips hold only approximately, and the jitter offsets of 0.1 are rounded.
- `pytp/utils/evaluate.py` (ADE and FDE) is not modelled. It computes means of Euclidean norms, which need `sqrt` and float means.
- `setup.py` (packaging, file I/O and environment variables) and `tests/test_utils.py` (a unit test of `get_ade` only) are not part of this model.
- The input arrays are modelled as values, so aliasing of caller-owned arrays is not modelled. No modelled operation writes into its inputs.
- ProcessVelocity: returns a value equal to `pred` as output_data. The source returns the caller's `pred` array object itself (get_velocity.py:43), so its output aliases its input; a value model does not capture that aliasing.
