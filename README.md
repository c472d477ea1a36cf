# Mosaic tiling, tensor primitives and note encoding

This project models three small cores of a probabilistic-programming repository of neural
network helpers and proves properties about them:

- **Mosaic** (`mosaic.dfy`) models `tile` from `examples/data/show_digits.py`. It takes a
  batch X of N flattened square images, each row holding `channel_count` planes side by side,
  and lays the images out row-major on one canvas. The canvas is filled with the background
  value 1.0, and neighbouring cells are separated by `spacing` background pixels.
  - `Plan` is the pure account of a call: which error it raises, or which layout it produces.
    The layout covers tile length, tile side, grid and canvas sides.
  - `Pixel` gives the value of every canvas pixel in closed form.
  - `Tile` builds the canvas in place, as the source does: a 2-D array for one channel, a 3-D
    array for several, with one recursive call per channel. It is proved to agree with `Plan`
    and `Pixel`.
- **Tensors** (`tensors.dfy`) models the primitives of `src/nn.js`:
  - row sums of a matrix (`_sumreduce0`);
  - ReLU and leaky ReLU (`_relu`, `_lrelu`);
  - the forward and backward bodies of `sumreduce0`, `relu` and `lrelu`;
  - `oneHot`.

  A tensor is a class with its dims and a zero-initialised flat `data` buffer. Forward
  functions fill a fresh buffer. Backward bodies add into the input's gradient buffer in
  place, and each is proved against a function that says what it adds.
- **Notes** (`notes.dfy`) models `tup2list` and `convert` from
  `examples/data/music/convert.py`. A time step is a tuple of MIDI note numbers, and it becomes
  an 88-slot 0/1 piano-roll vector. `convert` maps that encoder over a dictionary of datasets
  of sequences of steps.

`results.dfy` holds the `Result` and `Option` types. `arith.dfy` holds the index arithmetic
shared by the row-major layouts: flat index bounds, quotient and remainder of `q*m + r`, and
row chunks of a flat buffer.

Numbers are exact: canvas pixels and tensor entries are `real`, and note numbers and grid
sides are `int`. Each exception of the source is a value of an error datatype returned in a
`Result`.

A grid cell whose row index y*cols+x is at least N is not skipped: show_digits.py:48 indexes
`X[y*grid_shape[1]+x, :]`, which raises `IndexError` (`RowIndexOutOfRange`, see `CopyFault`).
So a call whose grid has a cell and `rows*cols > N` fails with `RowIndexOutOfRange`, unless
N > 0 and tile_size*tile_size != tile_length: then the reshape of cell 0 on the same line fails
first (`ReshapeMismatch`).

## Model

| member | source | states |
|---|---|---|
| Mosaic.FloorSqrt | examples/data/show_digits.py:21 | `int(np.sqrt(tile_length))` on exact integers: the result r satisfies r*r <= n < (r+1)*(r+1) |
| Mosaic.FloorSqrtUnique | examples/data/show_digits.py:21 | the floor square root is the only k with k*k <= n < (k+1)*(k+1) |
| Mosaic.ResolveGrid | examples/data/show_digits.py:25-38 | the grid of a call: an omitted grid_shape becomes (k, k) when N is k*k with k < 25 and otherwise fails the assertion of line 30; a scalar or one-element list s becomes (s, s); a pair is taken as given; a list of any other length fails the `shape == (2,)` assertion |
| Mosaic.Prepare | examples/data/show_digits.py:20-43 | the checks before any copy, in source order: channel_count 0 divides by zero; then the grid is resolved; then a negative canvas side (tile_size+spacing)*grid - spacing is refused by np.ones; otherwise the layout with tile_length = width / channel_count and tile_size = floor(sqrt(tile_length)) |
| Mosaic.CopyFault | examples/data/show_digits.py:46-48 | the error the copy loop raises at its first failing cell: none for an empty grid; a missing row 0 when N = 0; a reshape failure when tile_size*tile_size != tile_length; a missing row when rows*cols > N; none otherwise |
| Mosaic.Plan | examples/data/show_digits.py:19-52 | the outcome of a call: the error of `Prepare`, else the error of `CopyFault`, else the layout |
| Mosaic.GridInference | examples/data/show_digits.py:25-30 | with grid_shape omitted, the grid is (k, k) if and only if N == k*k and k < 25 |
| Mosaic.GridInferenceFails | examples/data/show_digits.py:25-30 | with grid_shape omitted, the `grid_shape is not None` assertion fails exactly when no k < 25 has k*k == N |
| Mosaic.GridNotInferredExamples | examples/data/show_digits.py:25-30 | N = 10 and N = 625 fail the assertion; N = 576 gives a (24, 24) grid |
| Mosaic.GridHintForms | examples/data/show_digits.py:32-38 | a scalar or one-element grid_shape s becomes (s, s); a pair is the grid; every other length fails the `shape == (2,)` assertion |
| Mosaic.NegativeGridCollapses | examples/data/show_digits.py:40-43 | a negative grid value survives np.ones only when tile side and spacing are both 0, and clamping it to 0 gives the same canvas side |
| Mosaic.PrepareShaped | examples/data/show_digits.py:20-43 | once the checks pass, each canvas side is (tile_size + spacing)*grid - spacing, tile_length is width / channel_count (integer division) and tile_size is its floor square root |
| Mosaic.PlanLayout | examples/data/show_digits.py:20-52 | a successful call has the canvas sides of line 40; when the grid has a cell, its tiles are square (tile_size*tile_size == tile_length) and rows*cols <= N |
| Mosaic.CellPixel | examples/data/show_digits.py:48-52 | canvas pixel (y*(ts+sp)+r, x*(ts+sp)+c) is pixel r*ts+c of row y*cols+x, and lies inside the canvas |
| Mosaic.CellRoundTrip | examples/data/show_digits.py:46-52 | round trip: for any layout a call accepts, slicing cell (y, x) back out of the canvas gives row y*cols+x of X, pixel for pixel |
| Mosaic.GapRow | examples/data/show_digits.py:40-52 | every canvas row at offset tile_size + g (g < spacing) within its stride stays background 1.0 |
| Mosaic.GapColumn | examples/data/show_digits.py:40-52 | every canvas column at offset tile_size + g (g < spacing) within its stride stays background 1.0 |
| Mosaic.CellsDisjoint | examples/data/show_digits.py:49-52 | two tile pixels land on the same canvas pixel only if they are the same pixel of the same cell, so copies never overwrite each other |
| Mosaic.UnreadRows | examples/data/show_digits.py:46-48 | rows of X at index rows*cols or beyond never affect any canvas pixel |
| Mosaic.Reshape | examples/data/show_digits.py:48 | `np.reshape(row, (ts, ts))`: ts rows of ts values each |
| Mosaic.ReshapeAt | examples/data/show_digits.py:48 | element (r, c) of the reshaped tile is element r*ts+c of the row |
| Mosaic.PasteTile | examples/data/show_digits.py:49-52 | the slice assignment writes the tile into its block, and every pixel outside the block keeps its value |
| Mosaic.CopyCell | examples/data/show_digits.py:47-52 | one cell: raises the call's copy fault if row y*cols+x is missing or cannot be reshaped; otherwise paints exactly that cell's block on top of the cells before it |
| Mosaic.CopyTiles | examples/data/show_digits.py:45-52 | the y/x copy loops return exactly the fault `CopyFault` predicts; when there is none, every canvas pixel equals `Pixel` |
| Mosaic.ChannelSlice | examples/data/show_digits.py:55 | `X[:, i*tile_length:(i+1)*tile_length]` keeps every row and cuts each to tile_length values |
| Mosaic.PastePlane | examples/data/show_digits.py:55 | `out_image[:,:,i] = ...` sets channel i to the plane and leaves the other channels unchanged |
| Mosaic.ChannelPlanAgrees | examples/data/show_digits.py:53-56 | the per-channel call, given the resolved grid as a pair, has the outer call's layout and fails exactly when the outer call fails |
| Mosaic.Tile | examples/data/show_digits.py:19-58 | `tile` fails exactly as `Plan` says; otherwise it returns a fresh canvas equal to the mosaic of X (one channel), or one whose channel c is the mosaic of channel c's columns |
| Mosaic.FourTilesCanvas | examples/data/show_digits.py:40-43 | 4 tiles of side 2 in a (2, 2) grid with spacing 1 give a 5x5 canvas, for 1 channel and for 3 channels |
| Mosaic.FourTilesGapRow | examples/data/show_digits.py:40-52 | in that 5x5 canvas, row 2 is background |
| Mosaic.FourTilesGapColumn | examples/data/show_digits.py:40-52 | in that 5x5 canvas, column 2 is background |
| Mosaic.SingleTileCanvas | examples/data/show_digits.py:40-43 | 1 tile of 4 pixels with grid 1 and spacing 1 gives a 2x2 canvas |
| Mosaic.SingleCell | examples/data/show_digits.py:46-52 | a 1x1 grid shows its tile at the canvas origin, pixel (r, c) being element r*ts+c |
| Mosaic.SingleTilePixels | examples/data/show_digits.py:46-52 | in that 2x2 canvas, pixel (r, c) is element 2r+c of the tile |
| Mosaic.FailureExamples | examples/data/show_digits.py:20-48 | a row of 5 values fails to reshape; a (2, 2) grid over 3 rows runs out of rows; a 3-element grid_shape fails the shape assertion; an empty batch infers a 0x0 grid whose canvas side -1 np.ones refuses; channel_count 0 divides by zero |
| Tensors.Tensor.constructor | src/nn.js:13 | `new Tensor(dims)` holds Product(dims) zeros |
| Tensors.RowSumsTotal | src/nn.js:7-20 | the row sums add up to the sum of the whole matrix |
| Tensors.SumReduce0 | src/nn.js:7-27 | throws exactly when the tensor is not a matrix; otherwise returns a fresh [h, 1] tensor whose entry i is the sum of row i |
| Tensors.RowBroadcastAt | src/nn.js:28-36 | slot i*w+j of the broadcast gradient is the upstream gradient of row i |
| Tensors.SumReduce0Backward | src/nn.js:28-36 | the input gradient grows, slot by slot, by its row's upstream gradient, and nothing else is written |
| Tensors.ReluProperties | src/nn.js:39-46 | ReLU output is never negative, keeps the non-negative inputs, and is idempotent |
| Tensors.Relu | src/nn.js:39-53 | `_relu` returns a fresh tensor of the same dims whose data is the element-wise ReLU of the input |
| Tensors.ReluBackward | src/nn.js:54-58 | the input gradient grows by 0 where the input is negative and by the upstream gradient elsewhere |
| Tensors.ReluChainRule | src/nn.js:39-58 | the forward and backward bodies of `relu` use the same slope (0 below zero, 1 otherwise) |
| Tensors.LeakyRelu | src/nn.js:61-70 | `_lrelu` returns a fresh tensor of the same dims in which negatives are divided by 100 |
| Tensors.LReluForward | src/nn.js:75-77 | the `lrelu` forward body as written computes `_relu`, not `_lrelu` |
| Tensors.LReluForwardCorrected | src/nn.js:63-77 | the corrected `lrelu` forward body computes the element-wise leaky ReLU |
| Tensors.LReluBackward | src/nn.js:78-82 | the input gradient grows by upstream/100 where the input is negative and by the upstream gradient elsewhere |
| Tensors.LeakyChainRule | src/nn.js:61-82 | `_lrelu` and the `lrelu` backward body use the same slope (1/100 below zero, 1 otherwise) |
| Tensors.LReluMismatch | src/nn.js:75-82 | at input -1, as written, the forward pass has slope 0 while the backward pass passes 1/100 of the gradient on |
| Tensors.OneHotSum | src/nn.js:92-93 | a one-hot vector with its index in range adds up to exactly 1 |
| Tensors.OneHot | src/nn.js:85-95 | throws for length <= 0, then for an index outside [0, length); otherwise returns a fresh [length, 1] tensor with a single 1, at index |
| Notes.NoteVector | examples/data/music/convert.py:17-22 | a note vector always has 88 entries, each 0 or 1 |
| Notes.Encode | examples/data/music/convert.py:15-22 | what `tup2list` returns: it succeeds exactly when every note lies in [21, 108], and then gives 88 slots, slot k being 1 exactly when note k+21 is in the tuple; the assertion failure otherwise |
| Notes.Tup2List | examples/data/music/convert.py:15-22 | `tup2list` through its min/max loop and slot loop: fails if any note lies outside [21, 108], otherwise returns the note vector |
| Notes.EmptyTuple | examples/data/music/convert.py:18-25 | the empty tuple gives 88 zeros |
| Notes.LowestAndHighest | examples/data/music/convert.py:21-24 | (21, 108) sets exactly slots 0 and 87 |
| Notes.OutOfRange | examples/data/music/convert.py:19-20 | a note below 21 or above 108 anywhere in the tuple fails the assertion |
| Notes.SlotMeaning | examples/data/music/convert.py:21 | for a valid tuple, slot k is 1 if and only if note k+21 is in the tuple |
| Notes.OrderIgnored | examples/data/music/convert.py:21 | two tuples with the same notes, in any order and with any repetition, encode alike |
| Notes.NotesRoundTrip | examples/data/music/convert.py:17-21 | decoding the vector of a valid tuple gives back exactly its set of notes |
| Notes.VectorRoundTrip | examples/data/music/convert.py:17-21 | encoding the notes that a 0/1 vector of 88 slots marks gives back that vector |
| Notes.ConvertSequence | examples/data/music/convert.py:31 | the step comprehension succeeds exactly when every step is valid, keeps the number of steps and encodes each step |
| Notes.ConvertDataset | examples/data/music/convert.py:31 | the sequence comprehension succeeds exactly when every sequence converts, and keeps the number of sequences |
| Notes.Convert | examples/data/music/convert.py:30-31 | `convert`: when every dataset converts, the map from each name to its converted dataset, with the same keys and the same number of sequences per key; otherwise the assertion failure |
| Notes.ConvertStructure | examples/data/music/convert.py:30-31 | `convert` fails exactly when some step is invalid; otherwise it keeps the keys, the number of sequences per key and of steps per sequence, and replaces each step by `tup2list(step)` |

## Left out

- Display and command-line glue: the JSON loading and `plt.imshow` of show_digits.py (lines 4-17 and 60-61), `examples/data/show_digit.py` and `examples/data/music/viz.py`. They only read files and display.
- File I/O in convert.py: the pickle loading and JSON dumping (lines 11-13 and 33-36).
- `src/header.js` is not part of this model. It wraps functions for a foreign runtime.
- The autodiff registration (`ad.newUnaryFunction`, `ad.tensor.__Tensor`). A tensor is modelled as dims plus a zero-initialised buffer, and the forward and backward bodies as plain methods.
- IEEE floating point: values are exact reals; NaN, signed zero and rounding are not modelled.
- The float tests `np.sqrt(N).is_integer()` and `< 25` are stated on exact integers, as "N is k*k for some k < 25".
- Negative `spacing` and negative `channel_count`: the code does not guard them, so `spacing` and `channel_count` are `nat`.
- Nested or non-numeric `grid_shape` values: `GridHint` covers an omitted value, a scalar, and a flat list of integers.
- Mosaic.Tile: models X as a sequence of rows of equal length `width`, as a NumPy 2-D array has. It also states `fresh` for the canvas it allocates, so no claim is made about aliasing with other arrays.
- Tensors.SumReduce0Backward, Tensors.ReluBackward, Tensors.LReluBackward: require the gradient buffer to be distinct from the input and upstream buffers, as the autodiff library allocates them separately; aliasing between them is not modelled.
- Tensors.SumReduce0Backward: requires a matrix input, since the backward body only runs after a forward body that has thrown otherwise.
- Tensors.OneHot: index and length are integers; JavaScript's behaviour for fractional or non-numeric arguments is not modelled.
- Notes.Convert: the dictionary is a map, so iteration order is not modelled. Any invalid step makes the whole call fail with the same assertion, whichever step Python reaches first.

## Findings

| source | as written | input that shows it | evidently intended | confidence | as-written member | corrected member |
|---|---|---|---|---|---|---|
| src/nn.js:75-77 | the `lrelu` forward body returns `_relu(t)` | input -1 with upstream gradient 1: the forward value is 0 (slope 0), but the backward body (lines 78-82) adds 0.01 to the input gradient | the forward body returns `_lrelu(t)`, which has the slope 1/100 that the backward body applies | high (not executed) | Tensors.LReluForward, Tensors.LReluMismatch | Tensors.LReluForwardCorrected, Tensors.LeakyChainRule |
