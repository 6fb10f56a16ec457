# repair_base_DCGAN, modelled in Dafny

The system trains a DCGAN (deep convolutional generative adversarial
network) on a set of images, and then uses the trained generator to repair a
damaged image. The repair searches the generator's input space for a noise
vector whose output matches the undamaged part of the target. This project
models the program logic around the networks, and proves properties of it:

- `pixels.dfy` (`Pixels`): the two value ranges, [0, 1] on disk and [-1, 1]
  at the networks, and the mutually inverse rescalings between them.
- `mask.dfy` (`Mask`): the repair mask built by `init_target`. It is a
  height x width x channels array of zeros, set to 1 in every channel at each
  pixel named by the `[start, end)` ranges of flat row-major offsets. The
  construction is an imperative method over an `array3<real>`, with loop
  invariants. It is proved equal to a pure specification: an entry is 1
  exactly where its cell lies in the union of the ranges. Offsets follow
  Python's indexing rules: a negative row wraps, and any other out-of-range
  row raises `IndexError`.
- `composite.dfy` (`Composite`): `get_images` and `get_repair_loss`. The
  composite takes generated pixels where the mask is 1 and target pixels
  where it is 0. The loss is the L1 distance between composite and generated
  image.
- `repair_loop.dfy` (`RepairLoop`): the latent search loop of `repair()`,
  with its float-valued logging interval.
- `training.dfy` (`Training`): the schedule of `train()`, as the trace of
  events it produces. It covers epochs, batch slicing, rescaling, the
  discriminator-then-generator steps, the loss evaluation, the samples, the
  checkpoint condition, and the three ways the loop can raise.
- `adversarial_loss.dfy` (`AdversarialLoss`): how `get_loss` assembles its
  three cross-entropy terms. The networks and the cross-entropy are
  parameters.
- `var_partition.dfy` (`VarPartition`): the split of the trainable variables
  by name prefix in `get_optimizer`, and the fact that each optimizer step
  changes only its own network's variables.
- `arith.dfy` (`IntArith`): two integer facts the others use.

Pixel values are exact reals, not 32-bit floats. Images are flattened
row-major over height, width and channels. The networks, the cross-entropy,
the optimizer update, the image loader and the random noise are parameters
of the model, or identifiers of the values they produce.

Three points where the code's behaviour is easy to misread:

- On a 2 x 2 image with mask `[[0, 1], [1, 0]]`, target `[[1, 2], [3, 4]]`
  and generator output `[[5, 6], [7, 8]]`, the raw kept differences are 4
  and 4. The code rescales both images with `(x + 1) * 0.5` before
  subtracting, so the loss is 4 (`Composite.TwoByTwoExample`).
- A discriminator step leaves every trainable generator variable unchanged
  (`VarPartition`). Under the `UPDATE_OPS` control dependency it still runs
  the generator's batch-norm moving-average updates, and a generator step
  runs the discriminator's.
- The docstring of `get_repair_loss` (repair.py:51) mentions a `threshold`
  clamp; line 59 computes none, and the model follows line 59.

## Model

| member | source | states |
|---|---|---|
| `Pixels.ToSigned` | cly_dcgan.py:290 | `x * 2 - 1` maps [0, 1] onto [-1, 1]: the input is in [0, 1] exactly when the output is in [-1, 1] |
| `Pixels.ToUnit` | repair.py:76 | `(y + 1) * 0.5` maps [-1, 1] onto [0, 1] (both directions), and the training-side rescale takes its result back to y |
| `Pixels.UnitAfterSigned` | repair.py:82 | the repair-side rescale undoes the training-side one, so the two are inverse bijections |
| `Pixels.UnitHalvesDistance` | repair.py:76 | rescaling to [0, 1] halves the distance between any two values |
| `Pixels.SumNonNegative` | repair.py:59 | a `reduce_sum` of non-negative entries is non-negative |
| `Mask.Row` | repair.py:39 | the row index Python writes for an accepted pixel, negative rows wrapped, lies in [0, height) |
| `Mask.MaskValue` | repair.py:35-39 | every mask entry is 0 or 1, and it is 1 exactly when its cell lies in some range |
| `Mask.DecodeInBounds` | repair.py:39 | for 0 <= p < height*width, `(p // width, p % width)` is a cell of the grid and encodes back to p |
| `Mask.DecodeInjective` | repair.py:39 | distinct cells have distinct flat offsets |
| `Mask.PixelOkIff` | repair.py:39 | Python's indexing accepts offset p exactly when -height*width <= p < height*width |
| `Mask.AreaOkIff` | repair.py:37-39 | every pixel of a range can be written exactly when the range is empty or lies inside [-height*width, height*width) |
| `Mask.CellOfPixel` | repair.py:39 | the cell written for pixel p is exactly the cell whose offset is p, or p wrapped by height*width |
| `Mask.CoveredSnoc` | repair.py:36 | adding one more range adds exactly that range's cells to the covered set |
| `Mask.SetPixel` | repair.py:38-39 | the channel loop sets the entries of one cell to 1 in every channel and leaves the rest of the array unchanged |
| `Mask.MarkArea` | repair.py:37-39 | one range's loop succeeds exactly when there are no channels or every pixel is accepted, and then adds the range's cells to the mask |
| `Mask.BuildMask` | repair.py:35-39 | returns a fresh height x width x channels array; it succeeds exactly when every range can be written, and then each entry is 1 iff its cell lies in the union of the ranges, else 0 |
| `Mask.EmptyAreasLeaveZeroMask` | repair.py:35-37 | no ranges, or only ranges with start >= end, leave the mask all zeros |
| `Mask.FirstRowArea` | repair.py:37-39 | the range [0, width) is accepted and marks exactly row 0 |
| `Mask.WholeGridArea` | repair.py:37-39 | the range [0, height*width) is accepted and marks every cell |
| `Mask.CoveredAppend` | repair.py:36 | the mask of two concatenated range lists is the union of their masks |
| `Mask.CoveredBySetOfAreas` | repair.py:36-39 | reordering or repeating ranges gives the same mask: writing a 1 twice is idempotent |
| `Mask.OverlappingAreasMerge` | repair.py:36-39 | two overlapping ranges mark the same cells as the one range spanning both |
| `Mask.AsWrittenRejectsPixelOfWideImage` | repair.py:35 | with the array allocated as `[width, height, depth]`, pixel 3 of a 2-high, 4-wide image is in the image yet raises `IndexError` |
| `Mask.SquareLayoutsAgree` | repair.py:35 | for square images the allocated layout accepts exactly the pixels the read-back layout does |
| `Mask.FlatMask` | repair.py:44 | the mask as the flat `[height, width, depth]` variable: height*width*depth entries, each 0 or 1 |
| `Mask.FlatMaskAt` | repair.py:44 | entry (r, c, d) of the flat mask is at (r*width + c)*depth + d and holds the specified mask value |
| `Composite.GetImages` | repair.py:74-89 | the generated image is the rescaled generator output; where the mask is 1 the composite is the generated pixel and the initial image is black; where it is 0 both are the rescaled target pixel |
| `Composite.AbsDiffSum` | repair.py:59 | `reduce_sum(abs(a - b))` is never negative, and it is 0 when the two tensors agree entry by entry |
| `Composite.RepairLoss` | repair.py:58-59 | the repair loss is never negative, whatever the mask |
| `Composite.RepairLossIsKeptDistance` | repair.py:58-59 | for a 0/1 mask the repair loss equals half the L1 distance between raw generator output and raw target, summed over the mask-0 entries only |
| `Composite.RepairLossZeroOnExactMatch` | repair.py:59 | the loss is 0 when the generator reproduces the target exactly, for any mask |
| `Composite.RepairLossIgnoresRepairedRegion` | repair.py:58-59 | two generator outputs that agree on the mask-0 entries have the same loss |
| `Composite.TwoByTwoExample` | repair.py:58-59 | the 2 x 2 example above has loss 4 |
| `RepairLoop.Repair` | repair.py:110-122 | the loop's trace and outcome are those of the iteration function: a step every iteration, a report after every iteration passing the logging test, `ZeroDivisionError` on a zero interval |
| `RepairLoop.FloatModRange` | repair.py:112 | Python's float `%`: the remainder has the divisor's sign, is smaller than the divisor in size, and differs from x by a whole multiple of the divisor |
| `RepairLoop.ReportsIffWhole` | repair.py:112 | the logging test `epoch % break_time == 0` holds exactly when epoch / break_time is a whole number |
| `RepairLoop.RepairAdvance` | repair.py:110-113 | one iteration keeps the loop's invariant: events so far plus the events of the remaining iterations are the events of the whole run |
| `RepairLoop.RepairStart` | repair.py:110-111 | a run has events exactly when it has an iteration, and its first event is that iteration's optimizer step |
| `RepairLoop.RepairTraceLength` | repair.py:110-113 | with a non-zero interval, iterations e to epochs-1 give between epochs-e and 2(epochs-e) events |
| `RepairLoop.ReportsIffDivides` | repair.py:112 | with an integral interval b > 0, the float test `epoch % b == 0` holds exactly when b divides epoch |
| `RepairLoop.FirstIterationReports` | repair.py:112 | iteration 0 always reports when the interval is non-zero |
| `RepairLoop.RepairOutcome` | repair.py:110-112 | the loop fails exactly when there is an iteration and the interval is 0, and then after a single step |
| `RepairLoop.RepairEvents` | repair.py:110-113 | with a non-zero interval, every iteration from 0 to epochs-1 steps, and an iteration reports exactly when it passes the logging test |
| `RepairLoop.ReportFollowsStep` | repair.py:111-114 | every report comes right after the optimizer step of its own iteration |
| `Training.SignedBatch` | cly_dcgan.py:290 | every batch pixel is rescaled so that the repair-side rescale gives back the loaded value |
| `Training.NumBatches` | cly_dcgan.py:278 | the batch count k satisfies k*bs <= n, and fewer than bs images remain; a negative batch size gives no batches |
| `Training.SliceWithin` | cly_dcgan.py:280 | every batch slice is non-empty and lies within the first k*bs images |
| `Training.BatchFeed` | cly_dcgan.py:280-291 | batch i is fed slice [i*bs, (i+1)*bs) of the epoch's images, which lies inside them and holds exactly bs images, rescaled, with noise draw (epoch, i) |
| `Training.Epoch` | cly_dcgan.py:276-307 | after an epoch a batch has been fed exactly when this epoch had a full batch or an earlier one did; the epoch raises at line 297 exactly when no batch was ever fed, raises `ZeroDivisionError` exactly when one was and break_time is 0, and completes otherwise |
| `Training.Schedule` | cly_dcgan.py:275-278 | the run raises for a zero batch size exactly when it has an epoch to run and bs is 0, and then before any event |
| `Training.RunBatches` | cly_dcgan.py:278-295 | the batch loop produces exactly the batch events of the specification, and remembers the last batch fed |
| `Training.RunEpoch` | cly_dcgan.py:276-307 | one epoch produces the specified events, outcome and last feed |
| `Training.Train` | cly_dcgan.py:275-307 | the whole loop produces the trace and outcome of the schedule function `TrainRun` |
| `Training.EpochBatchesAt` | cly_dcgan.py:278-295 | an epoch has exactly 2k batch events; batch i is a discriminator step immediately followed by a generator step, both fed slice [i*bs, (i+1)*bs) and the same noise draw |
| `Training.BatchesDisjoint` | cly_dcgan.py:280 | distinct batches take disjoint slices, in increasing order |
| `Training.ImageUsedIff` | cly_dcgan.py:278-280 | image x is fed by some batch exactly when x < k*bs, and then by batch x // bs; trailing images are never used |
| `Training.BatchOfImage` | cly_dcgan.py:278-280 | image x < k*bs lies in the slice of batch x // bs, which is one of the k batches |
| `Training.EpochBatchesCount` | cly_dcgan.py:278-295 | the batch loop runs exactly k steps of each network, all in its own epoch |
| `Training.DiagnosticsFacts` | cly_dcgan.py:297-307 | after the batches an epoch runs no optimizer step, and checkpoints exactly when epoch % break_time == 0 |
| `Training.EpochFacts` | cly_dcgan.py:276-307 | an epoch's events all belong to it; a completed epoch runs k steps of each network and checkpoints exactly when epoch % break_time == 0 |
| `Training.ScheduleInOrder` | cly_dcgan.py:275 | whatever the outcome, events appear in epoch order and only epochs from begin to epochs-1 appear |
| `Training.ScheduleCompleted` | cly_dcgan.py:275-307 | in a completed run a checkpoint is saved at epoch x exactly when begin <= x < epochs and x % break_time == 0, and epoch x runs exactly `len(images) // bs` steps of each network |
| `Training.ScheduleCompletesAfterFeed` | cly_dcgan.py:297-306 | once a batch has been fed, a run with non-zero batch size and break time always completes |
| `Training.TrainOutcome` | cly_dcgan.py:278-306 | a zero batch size raises before anything runs; a first epoch with no full batch raises at line 297 ahead of any event; otherwise the run fails exactly when break_time is 0 |
| `Training.FourImagesOneEpoch` | cly_dcgan.py:275-307 | one epoch of 4 images with batch size 2 gives D0, G0, D1, G1, the loss evaluation on the second batch, samples and checkpoint 0 |
| `AdversarialLoss.LossTerms` | cly_dcgan.py:162-206 | the generator term and the fake term score the same logits D(G(noise)); the real term scores D(real); generator and real labels are all 1-smooth, fake labels all 0 |
| `AdversarialLoss.GetLoss` | cly_dcgan.py:182-209 | the discriminator loss is the sum of its real and fake halves |
| `AdversarialLoss.TermLossNonNegative` | cly_dcgan.py:182-207 | the `reduce_mean` of the cross-entropies of one term is non-negative when its labels lie in [0, 1] and the cross-entropy is non-negative there |
| `AdversarialLoss.MeanScaled` | cly_dcgan.py:184 | scaling a tensor scales its `reduce_mean` by the same factor |
| `AdversarialLoss.MeanPlus` | cly_dcgan.py:184 | the `reduce_mean` of an entry-wise sum is the sum of the means |
| `AdversarialLoss.MeanBlend` | cly_dcgan.py:182-207 | `reduce_mean` is linear: the mean of a*u + b*v is a*mean(u) + b*mean(v) |
| `AdversarialLoss.CrossEntropiesOfLabel` | cly_dcgan.py:182-206 | with every label equal to y, the element-wise cross-entropy is y times the first log term plus 1-y times the second, entry by entry |
| `AdversarialLoss.TermLossOfLabel` | cly_dcgan.py:182-207 | the loss of a term whose labels all equal y is y times the mean of the first log term plus 1-y times the mean of the second |
| `AdversarialLoss.GeneratorObjective` | cly_dcgan.py:182-184 | for a cross-entropy y*pos(l) + (1-y)*neg(l), g_loss is (1-smooth)*mean(pos) + smooth*mean(neg) over the logits of D(G(noise)) |
| `AdversarialLoss.RealObjective` | cly_dcgan.py:196-198 | for a cross-entropy y*pos(l) + (1-y)*neg(l), d_loss_real is (1-smooth)*mean(pos) + smooth*mean(neg) over the logits of D(real) |
| `AdversarialLoss.FakeObjective` | cly_dcgan.py:206-207 | for a cross-entropy y*pos(l) + (1-y)*neg(l), d_loss_fake is mean(neg) over the logits of D(G(noise)) |
| `AdversarialLoss.LossesNonNegative` | cly_dcgan.py:182-209 | for labels in [0, 1] and a cross-entropy non-negative there, all losses are non-negative and d_loss bounds both halves |
| `AdversarialLoss.GeneratorLossIsRealLossOfFakes` | cly_dcgan.py:182-197 | the generator loss is the real-image loss with the generated batch in place of the real one |
| `AdversarialLoss.FakeLossesIgnoreRealBatch` | cly_dcgan.py:162-206 | the generator loss and the fake half do not depend on the real batch |
| `AdversarialLoss.LossesAreDcganObjective` | cly_dcgan.py:143-209 | for any cross-entropy of the form y*(-log D) + (1-y)*(-log(1-D)), the losses are the non-saturating DCGAN objective with one-sided label smoothing |
| `VarPartition.Select` | cly_dcgan.py:228-229 | the filtered list holds exactly the variables with the prefix, each as often as in the input |
| `VarPartition.StartsWith` | cly_dcgan.py:228-229 | `str.startswith`: the name is at least as long as the prefix and agrees with it character by character |
| `VarPartition.SelectIsSublist` | cly_dcgan.py:228-229 | the filtered list is an order-preserving sublist of the input |
| `VarPartition.Partition` | cly_dcgan.py:227-229 | every name in `g_vars` starts with "generator" and every name in `d_vars` with "discriminator" |
| `VarPartition.ScopesExclusive` | cly_dcgan.py:228-229 | no name starts with both prefixes |
| `VarPartition.PartitionDisjoint` | cly_dcgan.py:227-229 | both lists are order-preserving sublists of the trainable list, and no name is in both |
| `VarPartition.PartitionCovers` | cly_dcgan.py:227-229 | when every variable has one of the two prefixes, the two lists together hold every variable exactly as often as the trainable list |
| `VarPartition.Minimize` | cly_dcgan.py:232-233 | a step over a variable list keeps the set of variables and changes only the listed ones |
| `VarPartition.DiscriminatorStepKeepsGenerator` | cly_dcgan.py:227-233 | a discriminator step leaves every generator variable unchanged |
| `VarPartition.GeneratorStepKeepsDiscriminator` | cly_dcgan.py:227-233 | a generator step leaves every discriminator variable unchanged |

## Left out

- The network architectures `get_generator` and `get_discriminator`
  (cly_dcgan.py:37-141), batch normalisation and the Adam updates are
  TensorFlow numerics. They are parameters: `gen`, `disc` and `update`.
- `sigmoid_cross_entropy_with_logits` is floating-point exp/log. It is the
  parameter `xent`.
- VarPartition.Minimize: models the trainable variables only. The
  `UPDATE_OPS` control dependency (cly_dcgan.py:231) runs every batch-norm
  moving-average update with either optimizer step. So the generator's moving
  statistics also change during a discriminator step, and the other way
  round.
- AdversarialLoss.GetLoss: requires at least one logit in each batch. The
  mean of an empty tensor is NaN, which exact reals cannot represent.
- Composite.GetImages: requires the generator output, target and mask to
  have the same number of entries. TensorFlow's broadcasting and shape
  errors are not modelled.
- Random noise (cly_dcgan.py:246, 291; repair.py:97) is nondeterministic.
  Each training draw is named by its epoch and batch. The repair noise, drawn
  with reversed bounds `uniform(1, -1)`, is not modelled.
- The repair step itself (the Adam update of the noise vector, repair.py:101)
  and the losses it reports are events without values.
- Checkpoint saving, restoring and `max_to_keep` eviction (cly_dcgan.py:266,
  307; repair.py:106-108) live in `tf.train.Saver`, which is not part of this
  model. The float `model_index` (repair.py:19) makes the restored name
  `model-10.0`; file names are not modelled.
- Image loading and writing (`image_util.get_imgs`, `get_target_img`,
  `plot_images`, `cv2.imwrite`): `image_util` is not part of this model. The
  loaded images of each epoch are the parameter `loaded`, and the target
  ranges are the parameter `areas`. Sample export (`show_generator_output`,
  cly_dcgan.py:238-248) is the event `Sample`.
- Configuration reading (`net.cfg`) and printing. The values read become
  parameters.
- The commented-out resume path (cly_dcgan.py:269-273) sets `begin_time`. It
  is the parameter `begin`.
- Mask.BuildMask: allocates rows x columns x channels, the layout the mask is
  stored with at repair.py:44. The code allocates `[width, height, depth]`;
  see the finding below.

## Findings

| source | as written | input that shows it | evidently intended | confidence | as-written member | corrected member |
|---|---|---|---|---|---|---|
| repair.py:35 | the mask is allocated as `np.zeros([image_width, image_height, image_depth])`, but it is written at `[p // width][p % width]` and stored into an `[image_height, image_width, image_depth]` variable (repair.py:39, 44) | height 2, width 4, pixel 3 (row 0, column 3): the column index 3 exceeds the second dimension, of size 2, so the write raises `IndexError` | allocate `[image_height, image_width, image_depth]` | not executed; affects only non-square images | `Mask.AsWrittenRejectsPixelOfWideImage` | `Mask.BuildMask` |
