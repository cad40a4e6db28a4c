# Image-to-image training utilities: a Dafny model

This project models the core of a small Keras training framework for image-to-image networks
(saliency detection, depth estimation, autoencoders), and proves properties of that model.
The core has three parts:

- **`ImageDataset`** (`dataManager.py`). The dataset holds lists of (input image path,
  label image path) pairs for training and validation. It adds names from lists or text
  files, optionally through a shuffled train/validation split. It serves an endless
  generator of batches: each epoch reshuffles the split and reads `floor(n / batchsize)`
  contiguous batches. A batch augmentation normalises, crops, resizes and flips an input
  and its label together.
- **`Logger`** (`logger.py`). The logger names a run folder after the start time. It hands
  out the Keras callbacks: a checkpoint, TensorBoard, a CSV log, and a prediction callback.
  After every epoch it predicts the test images and tiles them, or the images interleaved
  with their predictions, into a near-square mosaic.
- **`NNBase`** (`nets/nnBase.py`). The network base class resumes training from the newest
  `.hdf5` checkpoint in its folder and recovers the epoch from that file name.

The files are:

- `wrappers.dfy` (`Wrappers`): `Option`, `Result` and `Outcome`, and the Python exceptions
  the core can raise.
- `text.dfy` (`Text`): the string operations the core relies on. These are Python's string
  order and `list.sort`, `str.split`, `in` on strings, `%0Nd` formatting and `int()`.
- `imaging.dfy` (`Imaging`): images as values that carry their shape and a symbolic record
  of the steps that produced them. Pixels are never modelled.
- `data_manager.dfy` (`DataManager`): the class `ImageDataset` and its specification functions.
- `logger.dfy` (`Logging`): the class `Logger`, the file names and the mosaic.
- `nn_base.dfy` (`NnBase`): the class `NNBase` and checkpoint recovery.

Where the source changes state (list `extend`, `random.shuffle` in place, `self.epoch`,
`self.testImages`), the model is a class with `seq` fields and methods with `modifies`
clauses. Each method is proved against a specification function, and the properties are
proved about those functions.

Inputs from the outside world become parameters:

- Randomness: the draws of `random.shuffle` (`pick`, `draw`) and of each sample's crop and
  flip (`SampleDraw`).
- Reading files: `cv2.imread` (`imread`), the lines of a text file (`readLines`), the result
  of `os.listdir` (`listing`), and whether `load_model` succeeds on a path (`loads`).
- The clock: `datetime.today()`.
- The network: `model.predict` (`predict`).

## Model

| member | source | states |
|---|---|---|
| DataManager.Zip | dataManager.py:52 | `zip` pairs positions and stops at the shorter list: the length is the minimum, and pair k is (xs[k], ys[k]) |
| DataManager.ZipOfUnzip | dataManager.py:83-84 | Taking the pairs apart into inputs and labels and zipping them again gives back the same pairs |
| DataManager.Swap | dataManager.py:111-113 | One step of random.shuffle exchanges two positions; the length is kept (its other properties are SwapIsPermutation) |
| DataManager.ShuffleFrom | dataManager.py:111-113 | CPython's loop `for i in reversed(range(1, n))` from position i down, j drawn below i+1; the length is kept (ShuffleFromIsPermutation) |
| DataManager.Shuffle | dataManager.py:110-113 | `random.shuffle` over the draws `pick`; the length is kept (ShuffleIsPermutation) |
| DataManager.SwapIsPermutation | dataManager.py:111-113 | One shuffle step exchanges positions i and j, keeps every other position, and keeps the multiset |
| DataManager.ShuffleFromIsPermutation | dataManager.py:111-113 | The swap loop i = n-1 .. 1, with j drawn below i+1, only reorders: the result is a permutation of its input |
| DataManager.ShuffleIsPermutation | dataManager.py:110-113 | `random.shuffle` of a split keeps exactly the same samples (multiset equality) |
| DataManager.TrainTestSplit | dataManager.py:83-86 | `train_test_split` of two name lists: one shuffle of the pairs, the first ValCount pairs to validation; its properties are TrainTestSplitPartitions |
| DataManager.ValCount | dataManager.py:86 | The validation part holds between 1 and n - 1 pairs, and exactly nVal when nVal is in that range |
| DataManager.TrainTestSplitPartitions | dataManager.py:57-60 | The split fails (ValueError) exactly when the two name lists differ in length or hold fewer than two names. Otherwise both parts are non-empty: the validation part has nVal pairs when 1 <= nVal < n, and the training part the rest. Together they are a permutation of the zipped pairs, so every input stays with its label |
| DataManager.StepSize | dataManager.py:108 | `int(n / batchsize)` truncates toward zero: for b > 0 the result r satisfies r*b <= n < (r+1)*b; for b < 0 it is <= 0 |
| DataManager.EpochSteps | dataManager.py:108-114 | The number of batches `range(stepsize)` runs through never reads past the split (steps * b <= n); for b > 0 it is n / b, and for b < 0 it is 0 |
| DataManager.ReadIn | dataManager.py:138-154 | readIn: the input image and the label image of a sample, in that order, through `imread` |
| DataManager.Augmentate | dataManager.py:156-157 | The default augmentate returns the batch unchanged (DefaultBatchPairsSamples) |
| DataManager.BatchIndices | dataManager.py:117-118 | The indices `i + batch*batchsize` for i in range(batchsize), in that order |
| DataManager.EpochIndices | dataManager.py:114-118 | The indices one `for batch in range(stepsize)` pass reads, in reading order (EpochIndicesAreARange) |
| DataManager.BatchSamples | dataManager.py:117-122 | The samples at the indices of one batch, taken from the split being read |
| DataManager.EpochSamples | dataManager.py:114-122 | The samples one pass reads, in reading order (EpochSamplesArePrefix, EpochCoverage) |
| DataManager.RawBatch | dataManager.py:115-126 | The inner loop's lists: the input images and the label images of the batch's samples, through readIn |
| DataManager.Yield | dataManager.py:127-128 | The yielded pair is what `augmentate` makes of the raw batch |
| DataManager.EpochIndicesAreARange | dataManager.py:114-118 | The indices `i + batch*batchsize` read in one epoch are 0, 1, ..., steps*b - 1, each once, in order |
| DataManager.EpochSamplesArePrefix | dataManager.py:114-122 | One epoch reads exactly the first steps*b samples of the split, in order |
| DataManager.EpochCoverage | dataManager.py:107-122 | With stepsize = int(n / b), an epoch reads s[..n - n mod b]: it skips exactly the last n mod b samples. When b divides n it reads every sample once |
| DataManager.EpochReadsEpochSamples | dataManager.py:114-128 | With the default augmentate, the inputs and the labels of an epoch's batches, batch after batch, are exactly the images of the samples EpochSamples reads, in that order |
| DataManager.EpochYieldsAllButRemainder | dataManager.py:107-128 | With stepsize = int(n / b), the batches of an epoch hold the images of s[..n - n mod b] in order: every sample but the last n mod b, each once |
| DataManager.ReshuffledIsPermutation | dataManager.py:109-113 | However many epochs have passed, the reshuffled split holds the same samples |
| DataManager.EpochBatches | dataManager.py:114-128 | The batches of one `for batch in range(stepsize)` pass over a split; its properties are EpochBatchCount and EpochBatchAt |
| DataManager.Reshuffled | dataManager.py:109-113 | The split after e passes of the loop's reshuffle; the length is kept (ReshuffledIsPermutation) |
| DataManager.GeneratorBatches | dataManager.py:109-128 | What the first `epochs` passes of `while True` yield; its properties are GeneratorBatchCount, GeneratorBatchesStep and GeneratorBatchAt |
| DataManager.EpochBatchCount | dataManager.py:114 | An epoch with `stepsize` steps yields exactly `stepsize` batches |
| DataManager.EpochEmitsFloorBatches | dataManager.py:107-114 | For batchsize b > 0, one epoch yields floor(n / b) batches |
| DataManager.EpochBatchAt | dataManager.py:114-128 | Batch j of an epoch is the augmented raw batch read at indices j*b .. j*b + b - 1 |
| DataManager.GeneratorBatchCount | dataManager.py:109-128 | After `epochs` epochs the generator has yielded epochs*steps batches |
| DataManager.GeneratorBatchesStep | dataManager.py:109-128 | Each further pass of `while True` appends the batches of the split shuffled once more to what was yielded before |
| DataManager.GeneratorBatchAt | dataManager.py:109-128 | Item e*steps + j of the generator's output is batch j read from the split as shuffled at the start of epoch e |
| DataManager.DefaultBatchPairsSamples | dataManager.py:115-128 | With the default `augmentate` a batch passes through unchanged. It holds b inputs and b labels, and its k-th input and k-th label are both images of sample k + j*b |
| DataManager.EveryEpochCoversSplit | dataManager.py:109-122 | When b divides n, the samples read in any epoch are a permutation of the original split |
| DataManager.CropBoundsAsWritten | dataManager.py:183-187 | The crop bounds as the source draws them, with the uint8 cast and the broadcast bounds; its properties are the two AsWritten lemmas |
| DataManager.CropBounds | dataManager.py:182-187 | The corrected draw: each side loses from 1 to less than a quarter of its own dimension (CropBoundsKeepMoreThanHalf) |
| DataManager.ProcessSample | dataManager.py:179-202 | One iteration of normCropReshape's loop on a sample, with the corrected `CropBounds` of Findings rows 2 and 3: normalise, crop, resize and maybe flip both images; EmptyImage where resize gets an empty crop (PairedAugmentationAgrees, PipelineSteps) |
| DataManager.CropBoundsKeepMoreThanHalf | dataManager.py:182-184 | The draw of crop bounds succeeds exactly on images of at least 8x8. Each side loses from 1 to less than a quarter of its own dimension, so more than half of each dimension is kept |
| DataManager.CropBoundsReachable | dataManager.py:184 | Every bound in the range [1, dim/4) is drawn by some random numbers |
| DataManager.CropBoundsAsWrittenEmptiesTallCrop | dataManager.py:183-191 | The source's draw can empty a crop: for an 8x400 image it may take 50 rows off the bottom and leave height 0. The corrected draw always leaves height > 0 |
| DataManager.CropBoundsAsWrittenWrapsAt1024 | dataManager.py:183-184 | The source's uint8 cast turns the quarter of 1024 into 0, so randint raises on every 1024x1024 image. The corrected draw accepts such an image |
| DataManager.PipelineSteps | dataManager.py:179-194 | Normalising, cropping and resizing an image records exactly those three steps, in that order |
| DataManager.PairedAugmentationAgrees | dataManager.py:179-202 | An input and its label go through the same normalisation, the same crop bounds (drawn from the input's shape by the corrected `CropBounds` of Findings rows 2 and 3), the same resize and the same flip. Both come out in the requested size |
| DataManager.ImageDataset.constructor | dataManager.py:24-27 | The batch size is stored; both splits start empty |
| DataManager.ImageDataset.ExtendBySplit | dataManager.py:57-60 | The split's training pairs are appended to trainData and its validation pairs to valData. On a ValueError neither list changes |
| DataManager.ImageDataset.SetSplit | dataManager.py:110-113 | Writes the chosen split (`trainData` or `valData`) and leaves the other one as it was |
| DataManager.ImageDataset.AddData | dataManager.py:65-90 | Three branches. Non-empty validation names extend both lists by their zipped pairs. Otherwise `splitTrain` splits the training names. Otherwise only trainData is extended. Each branch states both new lists |
| DataManager.ImageDataset.AddDataFromTxt | dataManager.py:29-62 | The same three branches, with the names read as the lines of four text files. The first branch is taken when both validation file names are non-empty |
| DataManager.ImageDataset.ShuffleSplit | dataManager.py:110-113 | The in-place shuffle leaves the chosen split equal to `Shuffle` of its old value and the other split untouched |
| DataManager.ImageDataset.ReadBatch | dataManager.py:115-126 | The inner loop reads the b samples at `i + batch*b` into inputs and labels: the result equals `RawBatch` |
| DataManager.ImageDataset.ReadEpoch | dataManager.py:114-128 | One pass of `for batch in range(stepsize)` yields `EpochBatches` of the current split, `EpochSteps` batches of `BatchWidth` samples |
| DataManager.ImageDataset.GetGenerator | dataManager.py:107-136 | With batchsize 0 the first `next()` raises ZeroDivisionError, before any shuffle; pulled through 0 epochs the generator raises nothing and yields nothing. Either way neither list changes. Otherwise stepsize is fixed once from the split's length, and the output is `GeneratorBatches`. Afterwards the split is the `epochs`-times reshuffled old split, and the other split is unchanged |
| DataManager.ImageDataset.NormCropReshape | dataManager.py:160-203 | With the crop bounds drawn by the corrected `CropBounds` of Findings rows 2 and 3: unequal batch lengths fail the assert. Otherwise the call succeeds exactly when every sample's processing does, and then output i is sample i processed. On failure, the error is that of the first sample whose processing fails |
| Logging.Stamp | logger.py:32 | `%04d-%02d-%02d-%02d-%02d-%02d/` of the time stamp (StampInjective) |
| Logging.RunFolderName | logger.py:32 | The output folder followed by the stamp (RunFolderNameLayout, RunFolderNameInjective) |
| Logging.CheckpointName | logger.py:55 | `{epoch:04d}.hdf5` (CheckpointNameOrder, ParseEpochOfCheckpoint) |
| Logging.FigurePath | logger.py:65-67 | `{folderName}figs/{epoch}.png` (FigurePathInjective) |
| Logging.RunFolderNameLayout | logger.py:32 | The run folder name is the output folder followed by 20 characters, the last of them '/' |
| Logging.RunFolderNameInjective | logger.py:32 | Runs started at different seconds get different folder names |
| Logging.StampInjective | logger.py:32 | The `%04d-%02d-...-%02d/` stamp determines the timestamp |
| Logging.FigurePathInjective | logger.py:65-67 | Each epoch's figure path `{folderName}figs/{epoch}.png` is different |
| Logging.CheckpointNameOrder | logger.py:55 | For epochs below 10000, the names `{epoch:04d}.hdf5` sort in the same order as the epochs |
| Logging.CheckpointNameOrderEndsAt10000 | logger.py:55 | From epoch 10000 on the order breaks: "10000.hdf5" sorts before "9999.hdf5" |
| Logging.IntSqrt | logger.py:73 | `int(math.sqrt(n))` is the integer square root: r*r <= n < (r+1)^2 |
| Logging.CeilDiv | logger.py:74 | `math.ceil(a / b)` is the least r with r*b >= a |
| Logging.GridRows | logger.py:73 | `int(math.sqrt(len(imgs)))`, the number of rows (GridShape) |
| Logging.GridCols | logger.py:74 | `math.ceil(len(imgs)/sqrt)`, the row length (GridShape) |
| Logging.GridShape | logger.py:73-74 | A mosaic of n > 0 images has 1 <= rows <= cols <= rows + 2 and room for every image. Its last column is never wholly empty |
| Logging.GridOfEightAndSixteen | logger.py:73-74 | Eight test images tile 2 x 4; sixteen slots (images with predictions) tile 4 x 4 |
| Logging.GridOfFiveAndTen | logger.py:73-74 | Five images tile 2 x 3, with one empty slot; ten tile 3 x 4, with two |
| Logging.Cell | logger.py:77-86 | Slot (r, c) holds image r*cols + c converted to RGB, or a black tile past the end of the list |
| Logging.StackGrid | logger.py:72-88 | The intended mosaic: GridRows rows of GridCols cells; its properties are StackGridShape, StackPlacesEveryImage and StackFillsTheRest |
| Logging.StackAsWritten | logger.py:72-88 | stack() as written, whose filler for an empty slot raises TypeError (StackAsWrittenFailsOnPartialGrid) |
| Logging.StackGridShape | logger.py:72-88 | The mosaic exists exactly for non-empty lists (ceil(n / 0) divides by zero). It has GridRows rows of GridCols tiles |
| Logging.StackPlacesEveryImage | logger.py:77-84 | Image k sits at row k / cols, column k mod cols, converted to RGB when it has fewer than three channels |
| Logging.StackFillsTheRest | logger.py:80-86 | Every slot past the end of the list holds a black tile of the first image's size, and there are fewer such slots than rows |
| Logging.StackTilesHaveThreeChannels | logger.py:82-86 | Every tile of the mosaic has at least three channels |
| Logging.StackAsWrittenFailsOnPartialGrid | logger.py:77-88 | The source's stack equals the intended mosaic exactly when no slot is empty. It raises TypeError on 5 or 10 images, and agrees for 8 and 16 |
| Logging.Interleave | logger.py:105-107 | The interleaving of two lists of length m has length 2m |
| Logging.InterleaveSlots | logger.py:105-107 | Slot 2k holds test image k and slot 2k+1 its prediction |
| Logging.Predictions | logger.py:90-96 | There is one prediction per test image |
| Logging.Logger.constructor | logger.py:20-38 | The folder name is the output folder followed by the time stamp; the model is stored; there are no test images yet |
| Logging.Logger.GetCallbacks | logger.py:41-69 | The list is the checkpoint, then TensorBoard, the CSV log and one prediction callback, each as its flag asks, in that order; its length counts the flags |
| Logging.Logger.Stack | logger.py:72-88 | The nested loops build exactly the intended mosaic `StackGrid`, and fail on an empty list |
| Logging.Logger.GetImgPrediction | logger.py:90-96 | Test image k's prediction is output k |
| Logging.Logger.PredictAndSave | logger.py:98-101 | With the corrected stack of Findings row 1: succeeds exactly when there are test images, and saves the mosaic of the predictions under `name` |
| Logging.Logger.PredictAndSave2Tensorboard | logger.py:103-112 | With the corrected stack of Findings row 1: succeeds exactly when there are test images. The saved mosaic is that of the images interleaved with their predictions, logged as "Test Image" at the epoch |
| Logging.Logger.SetTestImages | logger.py:114-118 | Appends the images read from `folder/entry` for the first eight entries of the listing, in listing order |
| NnBase.Candidates | nets/nnBase.py:20-23 | A name is a candidate exactly when it is in the listing and contains ".hdf5" |
| NnBase.ParseEpochOfCheckpoint | nets/nnBase.py:29 | The epoch is read back from every name the checkpoint template writes |
| NnBase.ParseEpochOfPrefixedCheckpoint | nets/nnBase.py:29 | The epoch is also read back from names such as "model_0042.hdf5" |
| NnBase.ParseEpochRejectsUnnumbered | nets/nnBase.py:29 | `int()` raises on "model.hdf5" |
| NnBase.ParseEpochRejectsUnnumberedStem | nets/nnBase.py:29 | `int()` raises on the file name of any stem without '.' or '_' that starts with neither a digit, a sign nor a space |
| NnBase.ParseEpoch | nets/nnBase.py:29 | `int(name.split(".")[0].split("_")[-1])`, None where int() raises; its properties are the ParseEpoch lemmas below |
| NnBase.Recover | nets/nnBase.py:17-38 | What getModel returns for a folder: a fresh model at epoch 0 when listing fails, no name contains ".hdf5" or the newest name has no number; otherwise the parsed epoch, with the newest checkpoint loaded where load_model succeeds. Its properties are the Recover lemmas below |
| NnBase.FolderOf | nets/nnBase.py:12 | `"saveData/%s/" % filename` |
| NnBase.RecoverOf | nets/nnBase.py:11-35 | getModel of a network by its `filename` attribute: an unset attribute raises AttributeError inside the `try`, giving a fresh model at epoch 0 |
| NnBase.RecoverWithoutCheckpoints | nets/nnBase.py:17-35 | A folder that cannot be listed, or holds no checkpoint, gives a fresh model at epoch 0 |
| NnBase.RecoverFromUnnumbered | nets/nnBase.py:29-35 | A lone unnumbered checkpoint gives a fresh model at epoch 0 |
| NnBase.MaxOf | nets/nnBase.py:28 | The largest epoch of a non-empty list is in it and is at least every entry |
| NnBase.ResumesFromNewestCheckpoint | nets/nnBase.py:17-38 | When the folder's checkpoints are those of epochs es (each below 10000), training resumes from the largest epoch, whatever the listing order and the other files. That checkpoint is loaded, or a fresh model is built if loading fails |
| NnBase.NamedNetworkResumes | nets/nnBase.py:11-38 | A network whose `filename` is set resumes from the newest checkpoint in `saveData/<filename>/`, with that epoch |
| NnBase.UnsetFilenameNeverResumes | nets/exampleConvNet.py:8-10 | A network whose `__init__` leaves `filename` unset starts fresh at epoch 0 even in a folder of loadable checkpoints, from which a named network resumes at the newest epoch |
| NnBase.ResumesAtEpochTen | nets/nnBase.py:17-38 | In any model folder with checkpoints 0005, 0010 and 0003 next to log.csv, the model of epoch 10 is loaded from that folder |
| NnBase.NNBase.constructor | nets/exampleConvNet.py:8-10 | Stands for a subclass's `__init__`, which may set `filename` (the base class never does) or leave it unset, as the example network does. `epoch` is unset |
| NnBase.NNBase.ModelFolderPath | nets/nnBase.py:11-12 | The folder is `saveData/<filename>/`; AttributeError where `filename` is unset |
| NnBase.NNBase.GetEpoch | nets/nnBase.py:14-15 | The stored epoch; AttributeError before getModel has set it |
| NnBase.NNBase.GetModel | nets/nnBase.py:17-38 | The filter loop and the sort give exactly `RecoverOf` the `filename` attribute: `Recover` of the model folder, or a fresh model at epoch 0 when `filename` is unset. Afterwards getEpoch() reports the returned epoch |
| Imaging.ToRgb | logger.py:82-83 | Keeps height and width and yields at least three channels; it is the identity exactly on images with three or more |
| Imaging.Black | logger.py:86 | The black tile the filler of line 86 evidently intends: the given height and width, three channels, no processing steps |
| Imaging.Normalize | dataManager.py:179-180 | `img/255` keeps the shape and records the normalisation step (PipelineSteps) |
| Imaging.SliceLength | dataManager.py:186-187 | The length of `[start:-fromEnd]`: positive exactly when fromEnd >= 1 and start + fromEnd is below n, and then n - start - fromEnd; `-0` leaves nothing |
| Imaging.Crop | dataManager.py:186-187 | Slicing keeps the channels and never grows the image; the height is positive exactly when bottom >= 1 (`-0` slices to nothing) and top + bottom is below it, and likewise the width. It records the crop step |
| Imaging.Resize | dataManager.py:193-194 | The result has the height and width asked for and the same channels; it records the resize step |
| Imaging.FlipHorizontal | dataManager.py:197-199 | The shape is unchanged; it records the flip step |
| Text.LexLe | nets/nnBase.py:28 | Python's string comparison `a <= b`; its order properties are the three LexLe lemmas |
| Text.Insert | nets/nnBase.py:28 | Inserting a name keeps every other name and adds this one (multiset), growing the list by one |
| Text.LexLeTotal | nets/nnBase.py:28 | Python's string order is total |
| Text.LexLeAntisymmetric | nets/nnBase.py:28 | Python's string order is antisymmetric |
| Text.LexLeTransitive | nets/nnBase.py:28 | Python's string order is transitive |
| Text.SortNames | nets/nnBase.py:28 | Sorting keeps the multiset of names |
| Text.SortNamesSorted | nets/nnBase.py:28 | The sorted list is in ascending order |
| Text.LexMaxIsMaximum | nets/nnBase.py:28-29 | The largest name is in the list and is at least every entry |
| Text.LexMaxUnique | nets/nnBase.py:28-29 | That largest name is unique |
| Text.SortedLastIsLexMax | nets/nnBase.py:28-29 | `all.sort(); all[-1]` is the largest name |
| Text.Split | nets/nnBase.py:29 | `str.split(sep)` always yields at least one field; its properties are JoinSplit, SplitFieldsAvoidSeparator and SplitAtSeparator |
| Text.JoinSplit | nets/nnBase.py:29 | `str.split(sep)` loses nothing: joining the fields with sep gives back the string |
| Text.SplitFieldsAvoidSeparator | nets/nnBase.py:29 | No field of `split` contains the separator |
| Text.SplitAtSeparator | nets/nnBase.py:29 | Splitting a + sep + t gives the fields of a followed by those of t |
| Text.Contains | nets/nnBase.py:22 | `sub in s` (ContainsIff) |
| Text.ContainsIff | nets/nnBase.py:22 | `sub in s` holds exactly when sub occurs at some index of s |
| Text.Pad | logger.py:32 | `%0Nd`: the decimal digits of n padded with zeros to width N (PadValue, PadOrder, PadInjective) |
| Text.Decimal | logger.py:67 | `{epoch}` in an f-string: the decimal digits of n |
| Text.PadValue | logger.py:32 | The zero-padded decimal digits of n have value n |
| Text.PadOrder | logger.py:55 | On equal-width zero-padded numbers the string order is the numeric order |
| Text.PadInjective | logger.py:32 | `%0Nd` prints distinct numbers differently |
| Text.PyInt | nets/nnBase.py:29 | `int(text)`: optional surrounding whitespace, an optional sign, then decimal digits; None where int() raises (PyIntOfPad, PyIntRejectsEmpty, PyIntRejectsNonNumeric) |
| Text.PyIntOfPad | nets/nnBase.py:29 | `int()` reads back what `%0Nd` wrote |
| Text.PyIntRejectsEmpty | nets/nnBase.py:29 | `int("")` raises |
| Text.PyIntRejectsNonNumeric | nets/nnBase.py:29 | `int()` raises on a string whose first character is neither a space, a digit nor a sign |

## Left out

- Pixels are never modelled. Image decoding (`cv2.imread`), `/255`, `cv2.resize`, `cv2.flip`,
  `cv2.cvtColor`, `np.hstack`/`np.vstack`, `np.clip` and the uint8 conversion only change
  pixel values. An image is modelled by its height, width, channels and the sequence of
  steps that produced it.
- File-system and logging effects become parameters or are dropped: opening and reading
  text files, `os.listdir`, `os.makedirs`, writing `architecture.txt` through
  `model.summary`, `cv2.imwrite`, the TensorBoard file writer, and every `print`.
- `datetime.today()` is a parameter of the logger's constructor.
- `model.predict`, `load_model` and the abstract `makeModel` are parameters. Keras's
  `ModelCheckpoint`, `TensorBoard`, `CSVLogger` and `LambdaCallback` are modelled by what
  they are built with, not by what Keras does with them.
- DataManager.ImageDataset.GetGenerator: where stepsize <= 0 (fewer samples than the batch
  size, an empty split, or a negative batch size), the source's `while True` reshuffles
  forever without yielding, so the first `next()` never returns. The model returns the
  empty output of its `epochs` passes; it does not model that hang.
- The generator is lazy and endless. It is modelled by what its first `epochs` epochs yield.
  Interleaving with Keras's consumption, and the shuffle happening only when the next item
  is pulled, are not modelled.
- DataManager.TrainTestSplit: sklearn's `test_size=0.2` sizing (ceil(0.2 n) in floating
  point) and its `random_state=1` permutation are replaced by a parameter `nVal`, kept
  between 1 and n - 1 as that sizing keeps it, and the same Fisher–Yates model as
  `random.shuffle`. Its ValueErrors on lists of different lengths and on fewer than two
  names (no training pair left) are modelled.
- DataManager.Shuffle: the shuffle is modelled as CPython's swap loop over arbitrary draws.
  That every permutation is reachable, and the distribution of the permutations, are not
  proved.
- Logging.IntSqrt: `math.sqrt` on floats followed by `int()` is modelled as the exact
  integer square root. Float rounding for very large lists is left out.
- DataManager.StepSize: `int(n / b)` divides in floating point; it is modelled as exact
  division truncated toward zero. Float rounding for very large n is left out.
- Logging.CeilDiv: `math.ceil(a / b)` divides in floating point; it is modelled as exact
  division rounded up. Float rounding for very large a is left out.
- Text.PyInt: `int()` accepts Unicode digits, underscores between digits and non-ASCII
  whitespace; the model accepts ASCII digits, a sign and the ASCII characters int() strips
  (space, tab, line feed, vertical tab, form feed, carriage return) only.
- `cv2.imread` returning `None` for an unreadable file, `cvtColor` rejecting two-channel
  images, and `hstack`/`vstack` rejecting tiles of different sizes are not modelled. Every
  image read is a value with a shape.
- Keras numbers checkpoint files with `epoch + 1`; the model names checkpoint `e` by `e` as
  the template formats it.
- DataManager.ImageDataset.NormCropReshape: the call that fails when a label is smaller than
  its input is modelled as an error value (`EmptyImage`), whatever OpenCV would raise.
- The layers `makeModel` of `nets/exampleConvNet.py` builds are not modelled; its `__init__` is, as a constructor that leaves `filename` unset.

## Findings

| source | as written | input that shows it | evidently intended | confidence | as-written member | corrected member |
|---|---|---|---|---|---|---|
| logger.py:85-86 | the filler for an empty slot is `thisRow.append(np.zeros(shape[0]),shape[1],3)`, which passes three arguments to `list.append` and raises TypeError | 5 test images (a 2 x 3 grid with one empty slot), or 5 test images with their predictions (10 tiles in a 3 x 4 grid) | `thisRow.append(np.zeros((shape[0],shape[1],3)))`: a black tile | high; not executed | Logging.StackAsWrittenFailsOnPartialGrid | Logging.Logger.Stack |
| dataManager.py:184-187 | `randint([1,1], cropShape, size=(2,2))` broadcasts the bounds along the last axis, so `cropValues[r][c]` lies in [1, cropShape[c]). The bottom crop is then bounded by the width's quarter and the left crop by the height's | an 8x400 image with bottom crop 50 leaves 0 rows; the source prints "Too much cropped" and `cv2.resize` (line 193) then raises on the empty crop | each side loses less than a quarter of its own dimension, keeping more than half of the image, as the comment on line 182 says | medium; not executed | DataManager.CropBoundsAsWrittenEmptiesTallCrop | DataManager.CropBoundsKeepMoreThanHalf |
| dataManager.py:183 | `astype(np.uint8)` keeps the quarter sizes modulo 256 | a 1024x1024 image: the quarter 256 becomes 0 and randint raises ValueError | the quarter sizes themselves | medium; not executed | DataManager.CropBoundsAsWrittenWrapsAt1024 | DataManager.CropBoundsKeepMoreThanHalf |
| nets/exampleConvNet.py:8-10 | the example network's `__init__` sets `self.networkName`, while getModelFolderPath and getModel (nets/nnBase.py:12, 30) read `self.filename`, which nothing sets. The AttributeError is caught by getModel's `try`, so the network always starts with a fresh model at epoch 0 | `NeuralNetwork().getModel(...)` with a loadable `saveData/Sample_CNN/0005.hdf5` present: a fresh model at epoch 0, not the model of epoch 5 | the checkpoint folder `saveData/<networkName>/` of the documented layout, read through the attribute the subclass sets | medium (a caller outside these files could set `filename`); not executed | NnBase.UnsetFilenameNeverResumes | NnBase.NamedNetworkResumes |
