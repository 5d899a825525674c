# Carvana segmentation utilities, modelled in Dafny

This project models the deterministic core of the zxu7/carvana car-segmentation
training code and proves properties of that model. It covers four parts.

- **The run-length mask codec** of the Kaggle Carvana submission format. Text is
  space-separated decimal pairs, each a 1-indexed start and a run length, over
  the row-major flattened mask.
  - `rle_decode` is modelled by `RleDecoding.RleDecode`. It fills a zeroed
    array slice by slice.
  - `rle_encode` has three modes: `Rle.EncodeFaster`, `Rle.EncodeFast` and
    `Rle.EncodeReference`. `Rle.RleEncode` dispatches on the mode.
  - Each method is proved equal to a specification function. The reference
    specification is `Rle.Runs`, the maximal foreground runs of a mask. The
    lemmas relate that specification to the modes and to the decoder.
- **The batch generators**. Each feeds training with windows of keys from a
  list of file names.
  - `DataIterator` is modelled as class `Batches.DataIterator`. It is a
    generator with a cursor and two preallocated buffers whose first rows are
    overwritten in place.
  - `DataGenerator` is modelled as class `Batches.DataGenerator`. It restarts
    from the first key on every call.
  - The module-level `data_gen` is modelled as class `Batches.DataGen`. It
    shuffles (the permutation is an input) and yields a bare `batch_x` in test
    mode.
- **The checkpoint bookkeeping** of `MultiGPUModelCheckpoint`, as class
  `Checkpoint.ModelCheckpoint`.
  - It models the choice of direction from the mode and the monitored name.
  - It models the `epochs_since_last_save` period counter.
  - It models the tracking of the best value. That value lives on a total order
    with both infinities.
  - A save is recorded as an event.
- **Experiment naming and the data split** in `train.py`, in module `Train`.
  - It covers the channel suffix, the experiment directory name and
    `parse_model_name` (module `ModelName`), which reads that name back.
  - It also covers the `fn_dict` comprehension, the train/validation split,
    the step count, and how the two generators are constructed.

Python strings are `seq<char>`. `str.split()`, `str.split('-')`, `' '.join`,
`str(n)` and `int(s)` are modelled in module `Strings`. Python exceptions
become `Err` values of `Wrappers.PyError`.

Two places where the behaviour of the code is easy to misread:

- **`rle_decode` slices.** `img[pos:pos+num] = 1` follows Python slice rules.
  - A start or end that is negative counts from the end of the image
    (`RleDecoding.SliceIndex`).
  - For a start token of at least 1 and a non-negative length, the pixels
    painted are exactly the range `[pos-1, pos-1+num)` clipped to the image
    (`RleDecoding.InSliceClipped`).
  - A start token `0` or a negative length wraps around
    (`RleDecoding.ZeroStartPaintsNothing`, `RleDecoding.NegativeLengthWraps`).
- **The `'faster'` mode** computes the run list and then drops it. Its result
  is the empty string for every non-empty mask.

## Model

| member | source | states |
|---|---|---|
| Rle.RunsIsRle | utils.py:229-236 | The reference runs of a mask are a run-length encoding of it: 1-indexed starts, lengths at least 1, strictly increasing, separated by background, covering exactly the foreground pixels |
| Rle.RunsEmptyIff | utils.py:229-236 | A mask has no runs exactly when every pixel is background |
| Rle.OnesComplete | utils.py:230 | Every foreground index appears in the `np.where(x == 1)` index list |
| Rle.OnesIncreasing | utils.py:230 | The foreground index list is strictly increasing |
| Rle.FastPairsOnes | utils.py:231-235 | The start/length list that the `'fast'` loop builds from the foreground indices equals the flattened maximal runs |
| Rle.EncodeFast | utils.py:229-236 | The `'fast'` loop returns the space-joined decimals of the maximal runs |
| Rle.FastEncodingEmptyIff | utils.py:229-236 | `'fast'` gives the empty string exactly for an all-background mask |
| Rle.FastEncodingAllForeground | utils.py:229-236 | An all-foreground mask of n pixels encodes to `1 n` |
| Rle.EncodeReference | utils.py:237-250 | The reference loop, with `x[i - 1]` wrapping to the last pixel at i = 0, returns the space-joined tokens of its scan |
| Rle.ReferenceWhenLastBackground | utils.py:237-250 | When the last pixel is background, the reference branch gives the same text as `'fast'` |
| Rle.ReferenceWhenLastForeground | utils.py:240-248 | When the last pixel is foreground, the final length is missing. If the first pixel is foreground, its start is missing too; otherwise a leading 0 length appears |
| Rle.ReferenceAllForeground | utils.py:237-250 | An all-foreground mask encodes to the empty string under the reference branch |
| Rle.ReferenceSinglePixel | utils.py:240-248 | The one-pixel foreground mask encodes to the empty string under the reference branch, but to `1 1` under `'fast'` |
| Rle.EncodeReferenceIntended | utils.py:237-250 | The reference loop with the run-closing and wrap-around fixed returns exactly the `'fast'` text |
| Rle.Guard | utils.py:224-225 | `x[0] = 0; x[-1] = 0` leaves the length and the inner pixels unchanged and zeroes both ends |
| Rle.GuardInPlace | utils.py:224-225 | The in-place zeroing of the array ends gives the guarded mask |
| Rle.FasterRunsAreGuardedRuns | utils.py:226-227 | The vectorised `runs` expression equals the flattened maximal runs of the guarded mask |
| Rle.EncodeFaster | utils.py:222-227 | `'faster'` raises IndexError on an empty mask and otherwise returns the empty string. The discarded `runs` equals the flattened runs of the guarded mask |
| Rle.FasterDropsRuns | utils.py:223-227 | On `[0, 1, 0]`, `'faster'` gives the empty string while `'fast'` gives `2 1` |
| Rle.EncodeFasterIntended | utils.py:222-227 | With `runs` joined into the output, `'faster'` gives IndexError exactly on the empty mask. Otherwise it gives the `'fast'` text of the guarded mask, which is the `'fast'` text itself when both ends are background |
| Rle.RleEncode | utils.py:219-251 | `rle_encode` dispatches on the mode: `'faster'`, `'fast'`, and any other string means the reference branch |
| Rle.ModesOnGuardedMask | utils.py:219-251 | On a mask with background ends, `'fast'` and the reference branch agree and `'faster'` is empty |
| Strings.SplitJoin | utils.py:208 | `str.split()` of a space-joined list of words gives back the words |
| Strings.ParseNatToString | utils.py:213-214 | `int(str(n))` is n for every natural n |
| Strings.NatToString | utils.py:236 | `str(n)` is a non-empty digit string with no leading zero |
| Strings.SplitOnJoin | utils.py:334 | Splitting on `-` undoes joining with `-` when no part contains `-` |
| RleDecoding.SliceIndex | utils.py:215 | A Python slice bound in `[0, n]` is kept, one above `n` becomes `n`, one in `[-n, 0)` counts from the end, and one below `-n` becomes 0 |
| RleDecoding.Pairs | utils.py:210 | `zip(x[::2], x[1::2])` pairs tokens 2i and 2i+1, giving half as many pairs as tokens |
| RleDecoding.PaintSlice | utils.py:215 | The slice assignment sets exactly the pixels in the slice and leaves the others |
| RleDecoding.PaintPairs | utils.py:209-215 | The loop over the pairs gives ValueError (None) exactly when some token is not an integer, and otherwise the zeroed flat image painted with every pair's slice in order |
| RleDecoding.RleDecode | utils.py:205-216 | The decoder loop gives ValueError when a token is not an integer, and otherwise the zeroed image painted with every pair's slice, reshaped to height rows of width pixels |
| RleDecoding.ReshapeAt | utils.py:216 | Row r, column c of the reshaped image is flat pixel r*width+c |
| RleDecoding.ReshapeInjective | utils.py:216 | Reshaping loses nothing: equal reshaped images come from equal flat images |
| RleDecoding.PaintAt | utils.py:211-215 | A pixel is painted exactly when it lies in some pair's slice |
| RleDecoding.PaintOrderFree | utils.py:211-215 | The order and repetition of pairs do not matter: the same set of slices paints the same image |
| RleDecoding.InSliceClipped | utils.py:213-215 | For a start token of at least 1 (a 0-based start `pos-1` that is non-negative) and a non-negative length, a pixel of the image is in the slice exactly when it lies in `[pos-1, pos-1+num)` |
| RleDecoding.PairsDropLast | utils.py:210 | A trailing unpaired token is dropped by the pairing |
| RleDecoding.DecodeDropsLastToken | utils.py:208-210 | A trailing unpaired token does not change the decoded image |
| RleDecoding.DecodePixel | utils.py:205-216 | In a decoded image, pixel (r, c) is flat pixel r*width+c of the painted image, which by `PaintAt` is 1 exactly when some pair's slice covers it |
| RleDecoding.ParseRunTokens | utils.py:210-214 | The tokens of a run list parse back to the slices of those runs |
| RleDecoding.PaintRuns | utils.py:211-215 | Painting the slices of a run list inside the image sets exactly the pixels the runs cover |
| RleDecoding.DecodeFastEncoding | utils.py:205-216 | Round trip: decoding the `'fast'` text of a width*height mask gives the mask reshaped to height rows of width |
| RleDecoding.NegativeLengthWraps | utils.py:213-215 | The pair `1 -1` on three pixels paints the first two, since the slice end counts from the end |
| RleDecoding.ZeroStartPaintsNothing | utils.py:213-215 | The pair `0 2` on two pixels paints nothing, since the slice starts at -1 |
| Batches.Window | utils.py:312 | The window `fns[idx:idx+batch_size]` has at most batch_size keys |
| Batches.FillRows | utils.py:312-319 | A completed fill writes row i of each buffer from window key i and leaves the other rows. A failed fill stops at a key whose lookup fails, having written only the rows before it |
| Batches.FillDoneIff | utils.py:312-319 | The fill completes exactly when every key of the window is in `fn_dict` with enough paths |
| Batches.FillFailedStays | utils.py:312-319 | Once the fill has failed, later keys change nothing |
| Batches.FillBatch | utils.py:312-319 | The in-place loop over the buffer arrays produces the fill's buffers and its error |
| Batches.WalkedPrefix | utils.py:312-320 | The first k windows concatenate to `fns[:k*batch_size]` |
| Batches.Windows | test.py:27 | `ceil(n / batch_size)` is the least k with k*batch_size at least n |
| Batches.WindowsWalkAll | utils.py:149-157 | The first `ceil(n / batch_size)` windows walk `fns` once, in order, and every later window is empty |
| Batches.ExhaustedCallKeepsRows | utils.py:149-157 | A call after the first `ceil(n / batch_size)` has an empty window and leaves every buffer row as it was |
| Batches.DataIterator.constructor | utils.py:118-147 | The settings are stored, the cursor is 0 and both buffers hold batch_size zero rows |
| Batches.DataIterator.Next | utils.py:139-167 | A call fills rows from the window at the cursor and reads `self.fns`, so `shuffle` has no effect. On success the cursor advances by batch_size and the call yields `(batch_x, batch_y / 255)`, or `(batch_x, None)` in test mode. A failed lookup finishes the generator, and every later call is StopIteration |
| Batches.DataGenerator.constructor | utils.py:170-172 | The settings that `DataIterator.__init__` stores (utils.py:120-127) are stored unchanged, `data_aug` included |
| Batches.DataGenerator.Next | utils.py:174-202 | Every call starts from cursor 0 with fresh zero buffers |
| Batches.FirstBatchRows | utils.py:174-202 | Every successful call returns the image rows of `fns[0:batch_size]` followed by zero rows, bare in test mode; in train mode it also returns `batch_y / 255.`, the scaled mask row of each of those keys followed by scaled zero rows |
| Batches.DataGen.constructor | utils.py:294-309 | The key order is the given permutation when shuffling and `fns` otherwise. It holds the same keys, the cursor is 0, and the buffers are zeroed |
| Batches.DataGen.Next | utils.py:310-330 | As for DataIterator, over the shuffled order, yielding a bare `batch_x` in test mode |
| Checkpoint.LessTotal | utils.py:68-79 | The order used by `np.less` over values and infinities is a strict total order |
| Checkpoint.EffectiveMode | utils.py:61-65 | A mode other than `auto`, `min` or `max` falls back to `auto`; each of those three is kept as given |
| Checkpoint.GreaterIsBetter | utils.py:67-79 | `max` maximises and `min` minimises. Otherwise the value is maximised exactly when the monitor contains `acc` or starts with `fmeasure` |
| Checkpoint.InitialBest | utils.py:67-79 | The starting best is the infinity that every finite value improves on |
| Checkpoint.RunningBestIsExtreme | utils.py:93-99 | The tracked best is the initial infinity or a compared value, and no compared value improves on it |
| Checkpoint.ModelCheckpoint.constructor | utils.py:49-79 | The settings are stored, the direction follows the mode rule, best is the initial infinity and the counter is 0 |
| Checkpoint.ModelCheckpoint.OnEpochEnd | utils.py:81-114 | The new counter, best and save events are stated for each branch. For period at least 1 the counter stays in `[0, period)` and a save is attempted on exactly every period-th call. With save_best_only, best changes only to an improving monitored value, and a save happens exactly then |
| Checkpoint.AutoMaximisesAccuracy | utils.py:74-76 | In auto mode `val_acc` and `fmeasure_1` are maximised |
| Checkpoint.AutoMinimisesLoss | utils.py:77-79 | In auto mode `val_loss` is minimised |
| Checkpoint.UnknownModeIsAuto | utils.py:61-65 | An unknown mode chooses the same direction as auto |
| ModelName.ParseModelName | utils.py:333-339 | The function gives IndexError exactly when there are fewer than three fields. On success it returns the last three fields read as integers, with grayscale exactly when the channel count is at most 1. It succeeds exactly when there are at least three fields and the last three all parse as integers, so every other name with three or more fields gives ValueError |
| ModelName.ParseModelNameBadField | utils.py:335-337 | A non-numeric size field gives ValueError |
| Train.WithChannel | train.py:45-48 | The appended channel is 1 exactly when grayscale and 3 otherwise |
| Train.ParseExperimentName | train.py:49-50 | `parse_model_name` of the experiment name recovers the target size and the grayscale flag |
| Train.Basename | train.py:57 | `os.path.basename` leaves no `/` |
| Train.LastDot | train.py:57 | The extension split is at the last dot, if any |
| Train.StemOfImagePath | train.py:57 | The stem of `os.path.join(img_dir, fn + '.jpg')` is fn |
| Train.MakeFnDict | train.py:58 | `fn_dict` has exactly the stems as keys, each mapped to its image path and its `_mask.gif` path |
| Train.FnDictOfGlobbedPath | train.py:57-58 | For every globbed path `join(img_dir, name)`, with `total_fns` built from the globbed paths by `TotalFns`, the stem of the path is a key of `fn_dict` whose image path is that globbed path and whose mask path is `join(mask_dir, stem + '_mask.gif')` |
| Train.TrainSplit | train.py:62 | No training key is a validation key |
| Train.TrainSplitMembers | train.py:62 | A key is in the training list exactly when it is a key not drawn for validation |
| Train.TrainSplitIsSubsequence | train.py:62 | The training list keeps the order of the stems |
| Train.TrainSplitSetOnly | train.py:61-62 | Only the set of drawn keys matters, so repeats in the with-replacement draw change nothing |
| Train.TrainKeysLoad | train.py:58-62 | Every training key has both paths in `fn_dict` |
| Train.StepsPerEpoch | train.py:88 | `ceil(n / batch_size)` raises ZeroDivisionError exactly for batch size 0, and is at most 0 for a negative batch size |
| Train.StepsAreLeast | train.py:88 | For a positive batch size the step count is the least k with k*batch_size at least n |
| Train.MakeTrainGen | train.py:76 | `train_gen` shuffles with batch size 2, size 256x256 and grayscale, whatever `--batch_size` is |
| Train.MakeValidGen | train.py:77 | `valid_gen` keeps the validation order with the same defaults |
| Train.TrainEpochOneKeys | train.py:76-88 | An epoch of `ceil(n / batch_size)` steps over windows of 2 delivers the first min(n, 2*steps) keys of the permutation |
| Train.TrainEpochMissesKeys | train.py:76-88 | With eight keys and `--batch_size 4`, the epoch has 2 steps and sees only four keys |
| Train.MakeTrainGenIntended | train.py:76 | With the batch size passed through, the first epoch walks the whole permutation |
| Train.TrainGenRunsDry | utils.py:303-321 | Once `ceil(n / 2)` windows are drawn, every later window is empty and the batch is the previous buffers unchanged |
| Train.IntendedCursorFirstEpoch | utils.py:303-321 | A generator that restarts its cursor reads window j at j*batch_size in its first epoch |
| Train.IntendedCursorPeriodic | utils.py:303-321 | The cursor of a restarting generator repeats every `ceil(n / batch_size)` windows |
| Train.IntendedEpochsRepeat | utils.py:303-321 | In every epoch e of a restarting generator, window j starts at j*batch_size |

## Left out

- The `> 0.5` threshold and `flatten()` of `rle_encode` are not modelled. They are float arithmetic over a 2-D array, so a mask is given as its flat sequence of binary pixels.
- The `/ 255.` mask scaling is an uninterpreted `Scale` of the rows.
- `load_img` is an uninterpreted image term naming its path, colour flag and size. An exception it raises on an unreadable file is not modelled.
- The array shapes and the `np.newaxis` channel axis are not modelled.
- Locking is not modelled: `threading.Lock` in `DataIterator` and the local lock in `data_gen` only serialise calls, and each call is one sequential step.
- Batches.DataIterator.Next, Batches.DataGen.Next: the yielded `batch_x` is a snapshot of the buffer contents. In Python, `data_gen` allocates its buffers once (utils.py:141-146, 305-309) and the caller receives the live array (utils.py:321, 330), which later calls keep overwriting (`batch_y / 255.` is a new array on each call); train.py hands `train_gen` straight to `fit_generator`. That aliasing is not captured. `DataGenerator.__next__` builds fresh buffers on every call (utils.py:175-177), so it has no such aliasing.
- Batches.DataIterator.constructor: the buffers are allocated when the iterator is built, not at the first `next()` as the generator does. No caller can observe the difference.
- `np.random.permutation` and `np.random.choice` are not modelled. The permutation (`order`) and the validation draw are inputs.
- `datetime.now()` is not modelled. Month, day, hour and minute are parameters.
- `glob` is not modelled. The list of globbed paths is an input, and `total_fns` is computed from it (`Train.TotalFns`). Each globbed path is taken to be `join(img_dir, name)` for a `name` ending in `.jpg` with no '/' and no leading '.', because the `*` wildcard of `glob` does not match hidden files.
- Default arguments are not modelled as such. `Rle.RleEncode` takes `mode` explicitly, so the default `mode='faster'` of `rle_encode` (utils.py:219) is not built in. `RleDecoding.RleDecode` takes width and height explicitly, so the default `shape=(1918, 1280)` of `rle_decode` (utils.py:205) is not built in. The defaults of `DataIterator` and `data_gen` (utils.py:118, 294) appear only where train.py relies on them, in `Train.MakeTrainGen` and `Train.MakeValidGen`.
- Batches.DataIterator.constructor, Batches.DataGenerator.constructor, Batches.DataGen.constructor: `batchSize` is a natural, so a negative `batch_size` cannot be passed. In Python, `np.zeros` raises ValueError for it (utils.py:141, 176, 305); that error is not modelled.
- `data_aug` is stored by the `DataIterator` and `DataGenerator` constructors and accepted by `data_gen`, but never read, as in the source, which has no augmentation code.
- The checkpoint's `print` output, `warnings`, the `verbose` level, `filepath.format(**logs)` and the actual `model.save`/`save_weights` calls are not modelled. Each save is a `Save(epoch + 1, weights_only)` event.
- Checkpoint.ModelCheckpoint.OnEpochEnd: a logged value is a finite real (`logs: map<string, real>`), so neither NaN nor an infinite logged value is modelled. An infinite one matters: a `+inf` loss never improves on the initial `+inf` best, so it is never saved. Only `best`'s starting value can be infinite. `logs=None` is taken as the empty map.
- Train.StepsPerEpoch: the floating-point division before `ceil` is taken as exact.
- RleDecoding.RleDecode: width and height are naturals, so the ValueError that `np.zeros` raises for a negative size is not modelled.
- Strings.ParseInt: `int()` is modelled for ASCII digits with an optional sign and surrounding whitespace. Underscores and non-ASCII digits are not accepted.
- Rle.EncodeFaster: the discarded `runs` list is a ghost out-parameter, since the code never uses it.
- The argparse options, TensorFlow session and GPU set-up, `os.makedirs`, `fit_generator` and the multi-GPU branch of train.py are not modelled. They are orchestration.
- The decoded image is modelled as booleans rather than `uint8` 0/1.
- `dice_coef`, `bce_dc_loss` and `normalize_data` are not modelled. They are tensor float maths or a thread pool.
- `resize_mask_matrix` and `resize_mask_matrix_encode` are not modelled. They are image resizing. The latter uses the `'faster'` mode, whose behaviour is stated above.
- test.py is interactive prediction and CSV writing. Its only arithmetic, the step count, is `Batches.Windows`.

## Findings

| source | as written | input that shows it | evidently intended | confidence | as-written member | corrected member |
|---|---|---|---|---|---|---|
| utils.py:222-227 | `'faster'` computes `runs` but never puts it into `out`, so `' '.join(out)` is empty | the mask `[0, 1, 0]` gives `''` | `' '.join(str(r) for r in runs)`, giving `'2 1'` | not executed | Rle.FasterDropsRuns | Rle.EncodeFasterIntended |
| utils.py:240-248 | the reference loop never emits the length of a run that reaches the last pixel, and at i = 0 it compares with `x[-1]` | the mask `[1]` gives `''` | `'1 1'`, the same text as `'fast'` | not executed | Rle.ReferenceSinglePixel | Rle.EncodeReferenceIntended |
| train.py:76 | `train_gen` is built with the default batch size 2, while the step count uses `--batch_size` | eight keys with `--batch_size 4`: an epoch of 2 steps sees four keys | pass `batch_size` to `data_gen`, so each epoch walks every key | not executed | Train.TrainEpochMissesKeys | Train.MakeTrainGenIntended |
| utils.py:303-321 | `data_gen` never resets `idx`, so after one pass every window is empty and the stale buffers are yielded forever | any epoch after the first | restart the cursor after the last window, so every epoch walks the keys again | not executed | Train.TrainGenRunsDry | Train.IntendedEpochsRepeat |
