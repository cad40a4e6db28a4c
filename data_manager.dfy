/** The dataset of (input image, label image) path pairs and its batch generator
    (class ImageDataset of dataManager.py). */
module DataManager {
  import opened Wrappers
  import opened Imaging

  type Path = string

  /** One training example: the path of the input image and the path of its label image. */
  datatype Sample = Sample(inputPath: Path, labelPath: Path)

  /** What the generator yields: the inputs and the labels of one batch. */
  datatype Batch = Batch(inputs: seq<Image>, labels: seq<Image>)

  // ---------------------------------------------------------------------------
  // Pairing names

  /** Python's `zip(xs, ys)`: positional pairs, stopping at the shorter list. */
  function Zip(xs: seq<Path>, ys: seq<Path>): (r: seq<Sample>)
    ensures |r| == if |xs| <= |ys| then |xs| else |ys|
    ensures forall k :: 0 <= k < |r| ==> r[k] == Sample(xs[k], ys[k])
  {
    if |xs| == 0 || |ys| == 0 then []
    else [Sample(xs[0], ys[0])] + Zip(xs[1..], ys[1..])
  }

  function Inputs(ps: seq<Sample>): seq<Path> {
    seq(|ps|, k requires 0 <= k < |ps| => ps[k].inputPath)
  }

  function Labels(ps: seq<Sample>): seq<Path> {
    seq(|ps|, k requires 0 <= k < |ps| => ps[k].labelPath)
  }

  /** Taking the pairs apart and zipping them again gives the same pairs. */
  lemma ZipOfUnzip(ps: seq<Sample>)
    ensures Zip(Inputs(ps), Labels(ps)) == ps
  {
  }

  // ---------------------------------------------------------------------------
  // random.shuffle: `for i in reversed(range(1, len(x))): j = randbelow(i + 1); swap x[i], x[j]`.
  // The random draws are the parameter `pick`.

  function Swap<T>(s: seq<T>, i: nat, j: nat): (r: seq<T>)
    requires i < |s| && j < |s|
    ensures |r| == |s|
  {
    s[i := s[j]][j := s[i]]
  }

  /** The swaps for positions i, i-1, ..., 1. */
  function ShuffleFrom<T>(s: seq<T>, pick: nat -> nat, i: nat): (r: seq<T>)
    requires i < |s|
    ensures |r| == |s|
    decreases i
  {
    if i == 0 then s
    else ShuffleFrom(Swap(s, i, pick(i) % (i + 1)), pick, i - 1)
  }

  function Shuffle<T>(s: seq<T>, pick: nat -> nat): (r: seq<T>)
    ensures |r| == |s|
  {
    if |s| == 0 then s else ShuffleFrom(s, pick, |s| - 1)
  }

  /** A swap exchanges two elements and keeps all of them. */
  lemma SwapIsPermutation<T>(s: seq<T>, i: nat, j: nat)
    requires i < |s| && j < |s|
    ensures multiset(Swap(s, i, j)) == multiset(s)
    ensures Swap(s, i, j)[i] == s[j] && Swap(s, i, j)[j] == s[i]
    ensures forall k :: 0 <= k < |s| && k != i && k != j ==> Swap(s, i, j)[k] == s[k]
  {
  }

  /** The shuffle only reorders: the result is a permutation of its input. */
  lemma {:induction false} ShuffleFromIsPermutation<T>(s: seq<T>, pick: nat -> nat, i: nat)
    requires i < |s|
    ensures multiset(ShuffleFrom(s, pick, i)) == multiset(s)
    decreases i
  {
    if i > 0 {
      SwapIsPermutation(s, i, pick(i) % (i + 1));
      ShuffleFromIsPermutation(Swap(s, i, pick(i) % (i + 1)), pick, i - 1);
    }
  }

  lemma ShuffleIsPermutation<T>(s: seq<T>, pick: nat -> nat)
    ensures multiset(Shuffle(s, pick)) == multiset(s)
  {
    if |s| > 0 {
      ShuffleFromIsPermutation(s, pick, |s| - 1);
    }
  }

  // ---------------------------------------------------------------------------
  // sklearn's train_test_split(xs, ys, test_size=0.2, shuffle=True): one permutation applied
  // to both lists, the first entries of the permuted lists become the validation part. Their
  // number `nVal` is a parameter, kept between 1 and n - 1 as sklearn's sizing keeps it;
  // lists of different lengths, and fewer than two pairs (no training pair left), raise.

  datatype SplitNames = SplitNames(xTrain: seq<Path>, xVal: seq<Path>, yTrain: seq<Path>, yVal: seq<Path>)

  function TrainTestSplit(xs: seq<Path>, ys: seq<Path>, pick: nat -> nat, nVal: nat): Result<SplitNames> {
    if |xs| != |ys| || |xs| < 2 then Failure(ValueError)
    else
      var shuffled := Shuffle(Zip(xs, ys), pick);
      var cut := ValCount(nVal, |shuffled|);
      Success(SplitNames(Inputs(shuffled[cut..]), Inputs(shuffled[..cut]),
                         Labels(shuffled[cut..]), Labels(shuffled[..cut])))
  }

  /** The size of the validation part: nVal, kept between 1 and n - 1. */
  function ValCount(nVal: nat, n: nat): (r: nat)
    requires n >= 2
    ensures 1 <= r < n
    ensures 1 <= nVal < n ==> r == nVal
  {
    if nVal < 1 then 1 else if nVal < n then nVal else n - 1
  }

  /** The split fails exactly on lists of different lengths or of fewer than two names;
      otherwise both parts are non-empty, and the training and the validation pairs together
      are a permutation of the zipped input pairs, each pair keeping its input with its label. */
  lemma TrainTestSplitPartitions(xs: seq<Path>, ys: seq<Path>, pick: nat -> nat, nVal: nat)
    ensures TrainTestSplit(xs, ys, pick, nVal).Failure? <==> |xs| != |ys| || |xs| < 2
    ensures TrainTestSplit(xs, ys, pick, nVal).Success? ==>
      var p := TrainTestSplit(xs, ys, pick, nVal).value;
      && 1 <= |p.xVal| == |p.yVal| < |xs|
      && (1 <= nVal < |xs| ==> |p.xVal| == nVal)
      && |p.xTrain| == |p.yTrain| == |xs| - |p.xVal|
      && multiset(Zip(p.xTrain, p.yTrain) + Zip(p.xVal, p.yVal)) == multiset(Zip(xs, ys))
  {
    if |xs| == |ys| && |xs| >= 2 {
      var shuffled := Shuffle(Zip(xs, ys), pick);
      var cut := ValCount(nVal, |shuffled|);
      ShuffleIsPermutation(Zip(xs, ys), pick);
      PartsArePermutation(shuffled, cut);
    }
  }

  /** Cutting the pairs in two and zipping each part's names again keeps every pair. */
  lemma PartsArePermutation(t: seq<Sample>, cut: nat)
    requires cut <= |t|
    ensures multiset(Zip(Inputs(t[cut..]), Labels(t[cut..])) + Zip(Inputs(t[..cut]), Labels(t[..cut]))) == multiset(t)
  {
    ZipOfUnzip(t[cut..]);
    ZipOfUnzip(t[..cut]);
    assert t == t[..cut] + t[cut..];
  }

  // ---------------------------------------------------------------------------
  // The generator, one epoch after another.

  /** `int(n / b)`: true division, then truncation toward zero. */
  function StepSize(n: nat, b: int): (r: int)
    requires b != 0
    ensures b > 0 ==> r >= 0 && r * b <= n < (r + 1) * b
    ensures b < 0 ==> r <= 0
  {
    if b > 0 then n / b else -(n / -b)
  }

  /** The number of batches `range(stepsize)` runs through: none for a negative stepsize. */
  function EpochSteps(n: nat, batchsize: int): (r: nat)
    requires batchsize != 0
    ensures r * BatchWidth(batchsize) <= n
    ensures batchsize > 0 ==> r == n / batchsize
    ensures batchsize < 0 ==> r == 0
  {
    if StepSize(n, batchsize) > 0 then StepSize(n, batchsize) else 0
  }

  /** The batch size as a count of samples (a negative batch size reads no batch). */
  function BatchWidth(batchsize: int): nat {
    if batchsize > 0 then batchsize else 0
  }

  /** The indices `i + batch*batchsize` for i in range(batchsize). */
  function BatchIndices(batch: nat, b: nat): seq<nat> {
    seq(b, i requires 0 <= i < b => i + batch * b)
  }

  /** The indices read during one epoch of `steps` batches, in reading order. */
  function EpochIndices(steps: nat, b: nat): seq<nat> {
    if steps == 0 then [] else EpochIndices(steps - 1, b) + BatchIndices(steps - 1, b)
  }

  lemma MulPred(a: nat, b: nat)
    requires a > 0
    ensures a * b == (a - 1) * b + b
  {
  }

  lemma CountStep(x: nat, a: nat, b: nat)
    requires a > 0 && x == (a - 1) * b
    ensures x + b == a * b
  {
    MulPred(a, b);
  }

  lemma MulMonotone(a: nat, c: nat, b: nat)
    requires a <= c
    ensures a * b <= c * b
  {
  }

  /** One epoch reads exactly the indices 0, 1, ..., steps*b - 1, each once, in increasing order. */
  lemma {:induction false} EpochIndicesAreARange(steps: nat, b: nat)
    ensures |EpochIndices(steps, b)| == steps * b
    ensures forall k :: 0 <= k < steps * b ==> EpochIndices(steps, b)[k] == k
  {
    if steps > 0 {
      EpochIndicesAreARange(steps - 1, b);
      MulPred(steps, b);
    }
  }

  function BatchSamples(s: seq<Sample>, b: nat, batch: nat): seq<Sample>
    requires (batch + 1) * b <= |s|
  {
    var idx := BatchIndices(batch, b);
    seq(b, i requires 0 <= i < b => s[idx[i]])
  }

  /** The samples read during one epoch, in reading order. */
  function EpochSamples(s: seq<Sample>, b: nat, steps: nat): seq<Sample>
    requires steps * b <= |s|
  {
    if steps == 0 then []
    else
      MulMonotone(steps - 1, steps, b);
      EpochSamples(s, b, steps - 1) + BatchSamples(s, b, steps - 1)
  }

  /** An epoch reads the first steps*b samples of the split, and nothing else. */
  lemma {:induction false} EpochSamplesArePrefix(s: seq<Sample>, b: nat, steps: nat)
    requires steps * b <= |s|
    ensures EpochSamples(s, b, steps) == s[..steps * b]
  {
    if steps > 0 {
      MulMonotone(steps - 1, steps, b);
      EpochSamplesArePrefix(s, b, steps - 1);
      MulPred(steps, b);
      assert s[..steps * b] == s[..(steps - 1) * b] + BatchSamples(s, b, steps - 1);
    }
  }

  /** With stepsize = floor(n / b), an epoch skips exactly the last n mod b samples; when b
      divides n it reads every sample of the split once. */
  lemma EpochCoverage(s: seq<Sample>, b: nat)
    requires b > 0
    ensures StepSize(|s|, b) * b == |s| - |s| % b
    ensures EpochSamples(s, b, StepSize(|s|, b)) == s[..|s| - |s| % b]
    ensures |s| % b == 0 ==> multiset(EpochSamples(s, b, StepSize(|s|, b))) == multiset(s)
  {
    EpochSamplesArePrefix(s, b, StepSize(|s|, b));
    assert |s| % b == 0 ==> s[..|s|] == s;
  }

  /** `readIn`: cv2.imread of both paths of a sample. */
  function ReadIn(dataPoint: Sample, imread: Path -> Image): (Image, Image) {
    (imread(dataPoint.inputPath), imread(dataPoint.labelPath))
  }

  /** The batch read for step `batch`, before augmentation. */
  function RawBatch(s: seq<Sample>, b: nat, batch: nat, imread: Path -> Image): Batch
    requires (batch + 1) * b <= |s|
  {
    var samples := BatchSamples(s, b, batch);
    Batch(seq(b, i requires 0 <= i < b => ReadIn(samples[i], imread).0),
          seq(b, i requires 0 <= i < b => ReadIn(samples[i], imread).1))
  }

  /** The type of `augmentate(batchIn, batchOut, isTrain)`. */
  type Augmenter = (seq<Image>, seq<Image>, bool) -> (seq<Image>, seq<Image>)

  /** The default `augmentate`: the batch passes through unchanged. */
  function Augmentate(batchIn: seq<Image>, batchOut: seq<Image>, isTrain: bool): (seq<Image>, seq<Image>) {
    (batchIn, batchOut)
  }

  function Yield(raw: Batch, augment: Augmenter, isTrain: bool): Batch {
    var processed := augment(raw.inputs, raw.labels, isTrain);
    Batch(processed.0, processed.1)
  }

  /** The batches of one epoch over the (already shuffled) split `s`. */
  function EpochBatches(s: seq<Sample>, b: nat, steps: nat, imread: Path -> Image,
                        augment: Augmenter, isTrain: bool): seq<Batch>
    requires steps * b <= |s|
  {
    if steps == 0 then []
    else
      MulMonotone(steps - 1, steps, b);
      EpochBatches(s, b, steps - 1, imread, augment, isTrain)
        + [Yield(RawBatch(s, b, steps - 1, imread), augment, isTrain)]
  }

  /** The images `imread` gives for the input paths, and for the label paths, of samples t. */
  function ReadInputs(t: seq<Sample>, imread: Path -> Image): seq<Image> {
    seq(|t|, k requires 0 <= k < |t| => imread(t[k].inputPath))
  }

  function ReadLabels(t: seq<Sample>, imread: Path -> Image): seq<Image> {
    seq(|t|, k requires 0 <= k < |t| => imread(t[k].labelPath))
  }

  /** All inputs, and all labels, of a sequence of batches, batch after batch. */
  function BatchInputs(bs: seq<Batch>): seq<Image> {
    if |bs| == 0 then [] else BatchInputs(bs[..|bs| - 1]) + bs[|bs| - 1].inputs
  }

  function BatchLabels(bs: seq<Batch>): seq<Image> {
    if |bs| == 0 then [] else BatchLabels(bs[..|bs| - 1]) + bs[|bs| - 1].labels
  }

  lemma ReadAppend(t: seq<Sample>, u: seq<Sample>, imread: Path -> Image)
    ensures ReadInputs(t + u, imread) == ReadInputs(t, imread) + ReadInputs(u, imread)
    ensures ReadLabels(t + u, imread) == ReadLabels(t, imread) + ReadLabels(u, imread)
  {
  }

  /** With the default augmentate, the batches of an epoch hold, in order, exactly the images
      of the samples EpochSamples says the epoch reads. */
  lemma {:induction false} EpochReadsEpochSamples(s: seq<Sample>, b: nat, steps: nat, imread: Path -> Image, isTrain: bool)
    requires steps * b <= |s|
    ensures BatchInputs(EpochBatches(s, b, steps, imread, Augmentate, isTrain)) == ReadInputs(EpochSamples(s, b, steps), imread)
    ensures BatchLabels(EpochBatches(s, b, steps, imread, Augmentate, isTrain)) == ReadLabels(EpochSamples(s, b, steps), imread)
  {
    if steps > 0 {
      MulMonotone(steps - 1, steps, b);
      EpochReadsEpochSamples(s, b, steps - 1, imread, isTrain);
      LastDefaultBatch(s, b, steps, imread, isTrain);
      RawBatchReads(s, b, steps - 1, imread);
      ReadAppend(EpochSamples(s, b, steps - 1), BatchSamples(s, b, steps - 1), imread);
    }
  }

  lemma LastDefaultBatch(s: seq<Sample>, b: nat, steps: nat, imread: Path -> Image, isTrain: bool)
    requires steps > 0 && steps * b <= |s|
    ensures (steps - 1 + 1) * b <= |s|
    ensures var bs := EpochBatches(s, b, steps, imread, Augmentate, isTrain);
      && BatchInputs(bs) == BatchInputs(EpochBatches(s, b, steps - 1, imread, Augmentate, isTrain))
                            + RawBatch(s, b, steps - 1, imread).inputs
      && BatchLabels(bs) == BatchLabels(EpochBatches(s, b, steps - 1, imread, Augmentate, isTrain))
                            + RawBatch(s, b, steps - 1, imread).labels
  {
    MulMonotone(steps - 1, steps, b);
    var bs := EpochBatches(s, b, steps, imread, Augmentate, isTrain);
    assert bs[..|bs| - 1] == EpochBatches(s, b, steps - 1, imread, Augmentate, isTrain);
  }

  lemma RawBatchReads(s: seq<Sample>, b: nat, batch: nat, imread: Path -> Image)
    requires (batch + 1) * b <= |s|
    ensures RawBatch(s, b, batch, imread).inputs == ReadInputs(BatchSamples(s, b, batch), imread)
    ensures RawBatch(s, b, batch, imread).labels == ReadLabels(BatchSamples(s, b, batch), imread)
  {
  }

  /** What an epoch of the generator yields with the default augmentate: the images of the
      split's samples in order, all but the last n mod b. */
  lemma EpochYieldsAllButRemainder(s: seq<Sample>, b: nat, imread: Path -> Image, isTrain: bool)
    requires b > 0
    ensures StepSize(|s|, b) * b <= |s|
    ensures var bs := EpochBatches(s, b, StepSize(|s|, b), imread, Augmentate, isTrain);
      && BatchInputs(bs) == ReadInputs(s[..|s| - |s| % b], imread)
      && BatchLabels(bs) == ReadLabels(s[..|s| - |s| % b], imread)
  {
    EpochCoverage(s, b);
    EpochReadsEpochSamples(s, b, StepSize(|s|, b), imread, isTrain);
  }

  /** The split after `e` epochs: epoch k shuffles with the draws `draw(k)`. */
  function Reshuffled(s: seq<Sample>, draw: nat -> nat -> nat, e: nat): (r: seq<Sample>)
    ensures |r| == |s|
  {
    if e == 0 then s else Shuffle(Reshuffled(s, draw, e - 1), draw(e - 1))
  }

  /** However many epochs have passed, the split holds the same samples. */
  lemma {:induction false} ReshuffledIsPermutation(s: seq<Sample>, draw: nat -> nat -> nat, e: nat)
    ensures multiset(Reshuffled(s, draw, e)) == multiset(s)
  {
    if e > 0 {
      ReshuffledIsPermutation(s, draw, e - 1);
      ShuffleIsPermutation(Reshuffled(s, draw, e - 1), draw(e - 1));
    }
  }

  /** The chunks chunk(0), ..., chunk(n - 1), one after another. */
  function Concat<T>(chunk: nat -> seq<T>, n: nat): seq<T> {
    if n == 0 then [] else Concat(chunk, n - 1) + chunk(n - 1)
  }

  /** n chunks of `size` items each make n*size items. */
  lemma {:induction false} ConcatCount<T>(chunk: nat -> seq<T>, n: nat, size: nat)
    requires forall k :: 0 <= k < n ==> |chunk(k)| == size
    ensures |Concat(chunk, n)| == n * size
  {
    if n > 0 {
      ConcatCount(chunk, n - 1, size);
      CountStep(|Concat(chunk, n - 1)|, n, size);
    }
  }

  /** Item e*size + j of the concatenation is item j of chunk e. */
  lemma {:induction false} ConcatAt<T>(chunk: nat -> seq<T>, n: nat, size: nat, e: nat, j: nat)
    requires forall k :: 0 <= k < n ==> |chunk(k)| == size
    requires e < n && j < size
    ensures |Concat(chunk, n)| == n * size && e * size + j < n * size
    ensures Concat(chunk, n)[e * size + j] == chunk(e)[j]
  {
    ConcatCount(chunk, n, size);
    ConcatCount(chunk, n - 1, size);
    FlatIndex(e, j, n, size);
    if e < n - 1 {
      ConcatAt(chunk, n - 1, size, e, j);
    }
  }

  /** Epoch k's batches: the split shuffled k + 1 times, read in `steps` batches. */
  function EpochChunks(s: seq<Sample>, b: nat, steps: nat, draw: nat -> nat -> nat,
                       imread: Path -> Image, augment: Augmenter, isTrain: bool): nat -> seq<Batch>
    requires steps * b <= |s|
  {
    (k: nat) => EpochBatches(Reshuffled(s, draw, k + 1), b, steps, imread, augment, isTrain)
  }

  /** Everything the generator yields during its first `epochs` epochs. */
  function GeneratorBatches(s: seq<Sample>, b: nat, steps: nat, epochs: nat, draw: nat -> nat -> nat,
                            imread: Path -> Image, augment: Augmenter, isTrain: bool): seq<Batch>
    requires steps * b <= |s|
  {
    Concat(EpochChunks(s, b, steps, draw, imread, augment, isTrain), epochs)
  }

  lemma {:induction false} EpochBatchCount(s: seq<Sample>, b: nat, steps: nat, imread: Path -> Image,
                                           augment: Augmenter, isTrain: bool)
    requires steps * b <= |s|
    ensures |EpochBatches(s, b, steps, imread, augment, isTrain)| == steps
  {
    if steps > 0 {
      MulMonotone(steps - 1, steps, b);
      EpochBatchCount(s, b, steps - 1, imread, augment, isTrain);
    }
  }

  /** One epoch of a generator with batchsize b > 0 yields floor(n / b) batches. */
  lemma EpochEmitsFloorBatches(s: seq<Sample>, b: nat, imread: Path -> Image, augment: Augmenter, isTrain: bool)
    requires b > 0
    ensures StepSize(|s|, b) == |s| / b
    ensures |EpochBatches(s, b, StepSize(|s|, b), imread, augment, isTrain)| == |s| / b
  {
    EpochBatchCount(s, b, StepSize(|s|, b), imread, augment, isTrain);
  }

  lemma {:induction false} EpochBatchAt(s: seq<Sample>, b: nat, steps: nat, imread: Path -> Image,
                                        augment: Augmenter, isTrain: bool, j: nat)
    requires steps * b <= |s| && j < steps
    ensures (j + 1) * b <= |s|
    ensures |EpochBatches(s, b, steps, imread, augment, isTrain)| == steps
    ensures EpochBatches(s, b, steps, imread, augment, isTrain)[j] == Yield(RawBatch(s, b, j, imread), augment, isTrain)
  {
    MulMonotone(j + 1, steps, b);
    MulMonotone(steps - 1, steps, b);
    EpochBatchCount(s, b, steps, imread, augment, isTrain);
    EpochBatchCount(s, b, steps - 1, imread, augment, isTrain);
    if j < steps - 1 {
      EpochBatchAt(s, b, steps - 1, imread, augment, isTrain, j);
    }
  }

  /** One more epoch appends that epoch's batches. */
  lemma GeneratorBatchesStep(s: seq<Sample>, b: nat, steps: nat, e: nat, draw: nat -> nat -> nat,
                             imread: Path -> Image, augment: Augmenter, isTrain: bool)
    requires steps * b <= |s|
    ensures GeneratorBatches(s, b, steps, e + 1, draw, imread, augment, isTrain)
            == GeneratorBatches(s, b, steps, e, draw, imread, augment, isTrain)
               + EpochBatches(Reshuffled(s, draw, e + 1), b, steps, imread, augment, isTrain)
  {
  }

  /** Every epoch yields `steps` batches. */
  lemma EpochChunksCount(s: seq<Sample>, b: nat, steps: nat, epochs: nat, draw: nat -> nat -> nat,
                         imread: Path -> Image, augment: Augmenter, isTrain: bool)
    requires steps * b <= |s|
    ensures forall k :: 0 <= k < epochs ==> |EpochChunks(s, b, steps, draw, imread, augment, isTrain)(k)| == steps
  {
    forall k | 0 <= k < epochs
      ensures |EpochChunks(s, b, steps, draw, imread, augment, isTrain)(k)| == steps
    {
      EpochBatchCount(Reshuffled(s, draw, k + 1), b, steps, imread, augment, isTrain);
    }
  }

  lemma GeneratorBatchCount(s: seq<Sample>, b: nat, steps: nat, epochs: nat,
                            draw: nat -> nat -> nat, imread: Path -> Image,
                            augment: Augmenter, isTrain: bool)
    requires steps * b <= |s|
    ensures |GeneratorBatches(s, b, steps, epochs, draw, imread, augment, isTrain)| == epochs * steps
  {
    EpochChunksCount(s, b, steps, epochs, draw, imread, augment, isTrain);
    ConcatCount(EpochChunks(s, b, steps, draw, imread, augment, isTrain), epochs, steps);
  }

  /** An epoch of `steps` batches, `epochs` times: the generator yields epochs*steps batches,
      and batch j of epoch e is read from the split as shuffled at the start of epoch e. */
  lemma GeneratorBatchAt(s: seq<Sample>, b: nat, steps: nat, epochs: nat,
                         draw: nat -> nat -> nat, imread: Path -> Image,
                         augment: Augmenter, isTrain: bool, e: nat, j: nat)
    requires steps * b <= |s| && e < epochs && j < steps
    ensures |GeneratorBatches(s, b, steps, epochs, draw, imread, augment, isTrain)| == epochs * steps
    ensures (j + 1) * b <= |s|
    ensures e * steps + j < epochs * steps
    ensures GeneratorBatches(s, b, steps, epochs, draw, imread, augment, isTrain)[e * steps + j]
            == Yield(RawBatch(Reshuffled(s, draw, e + 1), b, j, imread), augment, isTrain)
  {
    var chunk := EpochChunks(s, b, steps, draw, imread, augment, isTrain);
    EpochChunksCount(s, b, steps, epochs, draw, imread, augment, isTrain);
    ConcatAt(chunk, epochs, steps, e, j);
    EpochBatchAt(Reshuffled(s, draw, e + 1), b, steps, imread, augment, isTrain, j);
  }

  /** Position e*steps + j of epochs*steps: in the earlier epochs, or at j of the last one. */
  lemma FlatIndex(e: nat, j: nat, epochs: nat, steps: nat)
    requires e < epochs && j < steps
    ensures e * steps + j < epochs * steps
    ensures e < epochs - 1 ==> e * steps + j < (epochs - 1) * steps
    ensures e == epochs - 1 ==> e * steps + j == (epochs - 1) * steps + j
    ensures epochs * steps == (epochs - 1) * steps + steps
  {
    MulPred(e + 1, steps);
    MulPred(epochs, steps);
    MulMonotone(e + 1, epochs, steps);
    if e < epochs - 1 {
      MulMonotone(e + 1, epochs - 1, steps);
    }
  }

  /** With the default `augmentate`, a yielded batch holds exactly b inputs and b labels, and
      its k-th input and k-th label are the two images of one sample, the one at index
      k + j*b of the split. */
  lemma DefaultBatchPairsSamples(s: seq<Sample>, b: nat, j: nat, imread: Path -> Image, isTrain: bool, k: nat)
    requires (j + 1) * b <= |s| && k < b
    ensures var y := Yield(RawBatch(s, b, j, imread), Augmentate, isTrain);
      && y == RawBatch(s, b, j, imread)
      && |y.inputs| == b && |y.labels| == b
      && k + j * b < |s|
      && (y.inputs[k], y.labels[k]) == ReadIn(s[k + j * b], imread)
  {
  }

  /** Every epoch reads samples of a permutation of the original split: when b divides the
      split's length, the samples read in any epoch are exactly the split's samples. */
  lemma EveryEpochCoversSplit(s: seq<Sample>, b: nat, draw: nat -> nat -> nat, e: nat)
    requires b > 0 && |s| % b == 0
    ensures multiset(EpochSamples(Reshuffled(s, draw, e + 1), b, StepSize(|s|, b))) == multiset(s)
  {
    EpochCoverage(Reshuffled(s, draw, e + 1), b);
    ReshuffledIsPermutation(s, draw, e + 1);
  }

  // ---------------------------------------------------------------------------
  // Augmentation helpers for normCropReshape.

  /** The random numbers one sample consumes: the four entries of
      `np.random.randint([1,1], cropShape, size=(2,2))` before reduction into their range,
      and `random.random() > 0.5`. */
  datatype SampleDraw = SampleDraw(r00: nat, r01: nat, r10: nat, r11: nat, flip: bool)

  /** The crop bounds as the source draws them. `astype(np.uint8)` keeps the quarter sizes
      modulo 256, and the (2,) bounds broadcast along the last axis, so cropValues[r][c]
      lies in [1, cropShape[c]): the bottom crop uses the width's quarter and the left crop
      the height's. randint raises ValueError when a range is empty. */
  function CropBoundsAsWritten(height: nat, width: nat, d: SampleDraw): Result<Bounds> {
    var hq := (height / 4) % 256;
    var wq := (width / 4) % 256;
    if hq <= 1 || wq <= 1 then Failure(ValueError)
    else Success(Bounds(1 + d.r00 % (hq - 1), 1 + d.r01 % (wq - 1), 1 + d.r10 % (hq - 1), 1 + d.r11 % (wq - 1)))
  }

  /** The crop bounds as the comment above the draw intends: each side loses between 1 and
      less than a quarter of its own dimension. */
  function CropBounds(height: nat, width: nat, d: SampleDraw): Result<Bounds> {
    var hq := height / 4;
    var wq := width / 4;
    if hq <= 1 || wq <= 1 then Failure(ValueError)
    else Success(Bounds(1 + d.r00 % (hq - 1), 1 + d.r01 % (hq - 1), 1 + d.r10 % (wq - 1), 1 + d.r11 % (wq - 1)))
  }

  /** The corrected draw succeeds exactly on images of at least 8x8; each bound lies in
      [1, dim/4), so the crop always keeps more than half of each dimension. */
  lemma CropBoundsKeepMoreThanHalf(height: nat, width: nat, d: SampleDraw)
    ensures CropBounds(height, width, d).Success? <==> height >= 8 && width >= 8
    ensures CropBounds(height, width, d).Success? ==>
      var b := CropBounds(height, width, d).value;
      && 1 <= b.top < height / 4 && 1 <= b.bottom < height / 4
      && 1 <= b.left < width / 4 && 1 <= b.right < width / 4
      && height - b.top - b.bottom > height / 2
      && width - b.left - b.right > width / 2
  {
  }

  /** Every bound in range is drawn by some random numbers. */
  lemma CropBoundsReachable(height: nat, width: nat, b: Bounds, flip: bool)
    requires 1 <= b.top < height / 4 && 1 <= b.bottom < height / 4
    requires 1 <= b.left < width / 4 && 1 <= b.right < width / 4
    ensures CropBounds(height, width, SampleDraw(b.top - 1, b.bottom - 1, b.left - 1, b.right - 1, flip)) == Success(b)
  {
    ModBelow(b.top - 1, height / 4 - 1);
    ModBelow(b.bottom - 1, height / 4 - 1);
    ModBelow(b.left - 1, width / 4 - 1);
    ModBelow(b.right - 1, width / 4 - 1);
  }

  lemma ModBelow(a: nat, m: nat)
    requires a < m
    ensures a % m == a
  {
  }

  /** As written, an 8x400 image can lose all its rows: its bottom crop may be up to 99. */
  lemma CropBoundsAsWrittenEmptiesTallCrop()
    ensures CropBoundsAsWritten(8, 400, SampleDraw(0, 49, 0, 0, false)) == Success(Bounds(1, 50, 1, 1))
    ensures Crop(Image(8, 400, 3, Decoded(0)), Bounds(1, 50, 1, 1)).height == 0
    ensures forall d :: CropBounds(8, 400, d).Success? ==> Crop(Image(8, 400, 3, Decoded(0)), CropBounds(8, 400, d).value).height > 0
  {
    forall d | CropBounds(8, 400, d).Success?
      ensures Crop(Image(8, 400, 3, Decoded(0)), CropBounds(8, 400, d).value).height > 0
    {
      CropBoundsKeepMoreThanHalf(8, 400, d);
    }
  }

  /** As written, the uint8 cast turns the quarter of 1024 into 0: every 1024x1024 image
      makes randint raise, while the corrected draw accepts it. */
  lemma CropBoundsAsWrittenWrapsAt1024(d: SampleDraw)
    ensures CropBoundsAsWritten(1024, 1024, d) == Failure(ValueError)
    ensures CropBounds(1024, 1024, d).Success?
  {
  }

  /** The processing of sample i in normCropReshape, as a value. */
  function ProcessSample(imgIn: Image, imgOut: Image, d: SampleDraw, outputsize: OutputSize): Result<(Image, Image)> {
    var in_ := Normalize(imgIn);
    var out_ := Normalize(imgOut);
    match CropBounds(in_.height, in_.width, d)
    case Failure(e) => Failure(e)
    case Success(b) =>
      var croppedIn := Crop(in_, b);
      var croppedOut := Crop(out_, b);
      if croppedIn.height == 0 || croppedIn.width == 0 || croppedOut.height == 0 || croppedOut.width == 0
         || outputsize.width == 0 || outputsize.height == 0
      then Failure(EmptyImage)
      else
        var resizedIn := Resize(croppedIn, outputsize);
        var resizedOut := Resize(croppedOut, outputsize);
        if d.flip then Success((FlipHorizontal(resizedIn), FlipHorizontal(resizedOut)))
        else Success((resizedIn, resizedOut))
  }

  lemma PipelineSteps(img: Image, b: Bounds, size: OutputSize)
    ensures Steps(Resize(Crop(Normalize(img), b), size).content)
            == Steps(img.content) + [NormalizeStep, CropStep(b), ResizeStep(size)]
  {
    var c := img.content;
    assert Steps(Normalized(c)) == Steps(c) + [NormalizeStep];
    assert Steps(Cropped(Normalized(c), b)) == Steps(c) + [NormalizeStep] + [CropStep(b)];
    assert Steps(Resized(Cropped(Normalized(c), b), size)) == Steps(c) + [NormalizeStep] + [CropStep(b)] + [ResizeStep(size)];
  }

  /** An input and its label go through the same steps: the same normalisation, the same
      crop bounds (drawn from the input's shape), the same resize, and both or neither are
      flipped; both come out in the requested shape. */
  lemma PairedAugmentationAgrees(imgIn: Image, imgOut: Image, d: SampleDraw, outputsize: OutputSize)
    requires ProcessSample(imgIn, imgOut, d, outputsize).Success?
    ensures CropBounds(imgIn.height, imgIn.width, d).Success?
    ensures
      var p := ProcessSample(imgIn, imgOut, d, outputsize).value;
      var b := CropBounds(imgIn.height, imgIn.width, d).value;
      var steps := [NormalizeStep, CropStep(b), ResizeStep(outputsize)] + (if d.flip then [FlipStep] else []);
      && Steps(p.0.content) == Steps(imgIn.content) + steps
      && Steps(p.1.content) == Steps(imgOut.content) + steps
      && p.0.height == p.1.height == outputsize.height
      && p.0.width == p.1.width == outputsize.width
      && 1 <= b.top < imgIn.height / 4 && 1 <= b.bottom < imgIn.height / 4
      && 1 <= b.left < imgIn.width / 4 && 1 <= b.right < imgIn.width / 4
  {
    CropBoundsKeepMoreThanHalf(imgIn.height, imgIn.width, d);
    var b := CropBounds(imgIn.height, imgIn.width, d).value;
    var common := [NormalizeStep, CropStep(b), ResizeStep(outputsize)];
    var resizedIn := Resize(Crop(Normalize(imgIn), b), outputsize);
    var resizedOut := Resize(Crop(Normalize(imgOut), b), outputsize);
    PipelineSteps(imgIn, b, outputsize);
    PipelineSteps(imgOut, b, outputsize);
    if d.flip {
      assert Steps(FlipHorizontal(resizedIn).content) == Steps(imgIn.content) + common + [FlipStep];
      assert Steps(FlipHorizontal(resizedOut).content) == Steps(imgOut.content) + common + [FlipStep];
    }
  }

  // ---------------------------------------------------------------------------

  class ImageDataset {
    var batchsize: int
    var trainData: seq<Sample>
    var valData: seq<Sample>

    constructor (batchsize: int)
      ensures this.batchsize == batchsize && trainData == [] && valData == []
    {
      this.batchsize := batchsize;
      trainData := [];
      valData := [];
    }

    function SplitOf(isTrain: bool): seq<Sample>
      reads this
    {
      if isTrain then trainData else valData
    }

    /** The `splitTrain` branch shared by addData and addDataFromTXT. */
    method ExtendBySplit(xs: seq<Path>, ys: seq<Path>, pick: nat -> nat, nVal: nat) returns (r: Outcome)
      modifies this`trainData, this`valData
      ensures TrainTestSplit(xs, ys, pick, nVal).Failure? ==>
        r == Fail(TrainTestSplit(xs, ys, pick, nVal).error)
        && trainData == old(trainData) && valData == old(valData)
      ensures TrainTestSplit(xs, ys, pick, nVal).Success? ==>
        var p := TrainTestSplit(xs, ys, pick, nVal).value;
        && r == Pass
        && trainData == old(trainData) + Zip(p.xTrain, p.yTrain)
        && valData == old(valData) + Zip(p.xVal, p.yVal)
    {
      var split := TrainTestSplit(xs, ys, pick, nVal);
      if split.Failure? {
        return Fail(split.error);
      }
      var p := split.value;
      trainData := trainData + Zip(p.xTrain, p.yTrain);
      valData := valData + Zip(p.xVal, p.yVal);
      r := Pass;
    }

    /** addData: given validation names, both lists are extended by their zipped pairs;
        otherwise, with `splitTrain`, the training names are split; otherwise only the
        training list is extended. */
    method AddData(trainXNames: seq<Path>, trainYNames: seq<Path>, valXNames: seq<Path>, valYNames: seq<Path>,
                   splitTrain: bool, pick: nat -> nat, nVal: nat) returns (r: Outcome)
      modifies this`trainData, this`valData
      ensures |valXNames| > 0 && |valYNames| > 0 ==>
        && r == Pass
        && trainData == old(trainData) + Zip(trainXNames, trainYNames)
        && valData == old(valData) + Zip(valXNames, valYNames)
      ensures !(|valXNames| > 0 && |valYNames| > 0) && splitTrain ==>
        var split := TrainTestSplit(trainXNames, trainYNames, pick, nVal);
        && (split.Failure? ==> r == Fail(split.error) && trainData == old(trainData) && valData == old(valData))
        && (split.Success? ==>
              && r == Pass
              && trainData == old(trainData) + Zip(split.value.xTrain, split.value.yTrain)
              && valData == old(valData) + Zip(split.value.xVal, split.value.yVal))
      ensures !(|valXNames| > 0 && |valYNames| > 0) && !splitTrain ==>
        && r == Pass
        && trainData == old(trainData) + Zip(trainXNames, trainYNames)
        && valData == old(valData)
    {
      if |valXNames| > 0 && |valYNames| > 0 {
        trainData := trainData + Zip(trainXNames, trainYNames);
        valData := valData + Zip(valXNames, valYNames);
        r := Pass;
      } else if splitTrain {
        r := ExtendBySplit(trainXNames, trainYNames, pick, nVal);
      } else {
        trainData := trainData + Zip(trainXNames, trainYNames);
        r := Pass;
      }
    }

    /** addDataFromTXT: the same three branches, but the names are the lines of text files
        (`readLines` stands for `open(path).read().splitlines()`), and the first branch is
        chosen by the two validation file names being non-empty, not by their contents. */
    method AddDataFromTxt(trainXTxt: Path, trainYTxt: Path, valXTxt: Path, valYTxt: Path, splitTrain: bool,
                          readLines: Path -> seq<string>, pick: nat -> nat, nVal: nat) returns (r: Outcome)
      modifies this`trainData, this`valData
      ensures |valXTxt| > 0 && |valYTxt| > 0 ==>
        && r == Pass
        && trainData == old(trainData) + Zip(readLines(trainXTxt), readLines(trainYTxt))
        && valData == old(valData) + Zip(readLines(valXTxt), readLines(valYTxt))
      ensures !(|valXTxt| > 0 && |valYTxt| > 0) && splitTrain ==>
        var split := TrainTestSplit(readLines(trainXTxt), readLines(trainYTxt), pick, nVal);
        && (split.Failure? ==> r == Fail(split.error) && trainData == old(trainData) && valData == old(valData))
        && (split.Success? ==>
              && r == Pass
              && trainData == old(trainData) + Zip(split.value.xTrain, split.value.yTrain)
              && valData == old(valData) + Zip(split.value.xVal, split.value.yVal))
      ensures !(|valXTxt| > 0 && |valYTxt| > 0) && !splitTrain ==>
        && r == Pass
        && trainData == old(trainData) + Zip(readLines(trainXTxt), readLines(trainYTxt))
        && valData == old(valData)
    {
      var trainXNames := readLines(trainXTxt);
      var trainYNames := readLines(trainYTxt);
      if |valXTxt| > 0 && |valYTxt| > 0 {
        trainData := trainData + Zip(trainXNames, trainYNames);
        var valXNames := readLines(valXTxt);
        var valYNames := readLines(valYTxt);
        valData := valData + Zip(valXNames, valYNames);
        r := Pass;
      } else if splitTrain {
        r := ExtendBySplit(trainXNames, trainYNames, pick, nVal);
      } else {
        trainData := trainData + Zip(trainXNames, trainYNames);
        r := Pass;
      }
    }

    /** random.shuffle of the chosen split, in place; the other split is untouched. */
    method ShuffleSplit(isTrain: bool, pick: nat -> nat)
      modifies this`trainData, this`valData
      ensures SplitOf(isTrain) == Shuffle(old(SplitOf(isTrain)), pick)
      ensures SplitOf(!isTrain) == old(SplitOf(!isTrain))
    {
      var n := |SplitOf(isTrain)|;
      if n == 0 {
        return;
      }
      var i := n - 1;
      while i > 0
        invariant 0 <= i < n
        invariant |SplitOf(isTrain)| == n
        invariant ShuffleFrom(SplitOf(isTrain), pick, i) == Shuffle(old(SplitOf(isTrain)), pick)
        invariant SplitOf(!isTrain) == old(SplitOf(!isTrain))
      {
        var j := pick(i) % (i + 1);
        SetSplit(isTrain, Swap(SplitOf(isTrain), i, j));
        i := i - 1;
      }
    }

    /** Replaces the chosen split (one swap of random.shuffle writes into the list). */
    method SetSplit(isTrain: bool, v: seq<Sample>)
      modifies this`trainData, this`valData
      ensures SplitOf(isTrain) == v
      ensures SplitOf(!isTrain) == old(SplitOf(!isTrain))
    {
      if isTrain {
        trainData := v;
      } else {
        valData := v;
      }
    }

    /** The inner loop of the generator: batch `batch` of the split, read sample by sample
        at the indices i + batch*batchsize; the dataset is left as it is. */
    method ReadBatch(isTrain: bool, batch: nat, imread: Path -> Image) returns (inputs: seq<Image>, outputs: seq<Image>)
      requires batchsize > 0 && (batch + 1) * batchsize <= |SplitOf(isTrain)|
      ensures Batch(inputs, outputs) == RawBatch(SplitOf(isTrain), batchsize, batch, imread)
    {
      MulPred(batch + 1, batchsize);
      inputs := [];
      outputs := [];
      var i := 0;
      while i < batchsize
        invariant 0 <= i <= batchsize
        invariant |inputs| == i && |outputs| == i
        invariant forall k :: 0 <= k < i ==>
          (inputs[k], outputs[k]) == ReadIn(SplitOf(isTrain)[k + batch * batchsize], imread)
      {
        var index := i + batch * batchsize;
        var dataPoint := if isTrain then trainData[index] else valData[index];
        var (imgInput, imgLabel) := ReadIn(dataPoint, imread);
        inputs := inputs + [imgInput];
        outputs := outputs + [imgLabel];
        i := i + 1;
      }
    }

    /** One pass of the generator's `for batch in range(stepsize)` over the split as it
        stands; the dataset is left as it is. */
    method ReadEpoch(isTrain: bool, stepsize: int, imread: Path -> Image, augment: Augmenter)
      returns (batches: seq<Batch>)
      requires batchsize != 0 && stepsize == StepSize(|SplitOf(isTrain)|, batchsize)
      ensures batches == EpochBatches(SplitOf(isTrain), BatchWidth(batchsize),
                                      EpochSteps(|SplitOf(isTrain)|, batchsize), imread, augment, isTrain)
    {
      ghost var current := SplitOf(isTrain);
      ghost var steps := EpochSteps(|current|, batchsize);
      ghost var b := BatchWidth(batchsize);
      batches := [];
      var batch := 0;
      while batch < stepsize
        invariant 0 <= batch <= steps
        invariant batch * b <= |current|
        invariant batches == EpochBatches(current, b, batch, imread, augment, isTrain)
      {
        MulMonotone(batch + 1, steps, b);
        assert b == batchsize;
        var inputs, outputs := ReadBatch(isTrain, batch, imread);
        var processed := augment(inputs, outputs, isTrain);
        batches := batches + [Batch(processed.0, processed.1)];
        batch := batch + 1;
      }
    }

    /** The generator of getGenerator(isTrain), pulled through its first `epochs` epochs
        (nothing is pulled when `epochs` is 0).
        stepsize is computed once from the split's length; each epoch shuffles the split and
        then reads `stepsize` contiguous batches. `draw(e)` is the randomness of epoch e's
        shuffle, `imread` decodes an image, `augment` is the (overridable) augmentate. */
    method GetGenerator(isTrain: bool, epochs: nat, draw: nat -> nat -> nat, imread: Path -> Image,
                        augment: Augmenter) returns (r: Result<seq<Batch>>)
      modifies this`trainData, this`valData
      ensures batchsize == 0 ==>
        && r == (if epochs == 0 then Success([]) else Failure(ZeroDivision))
        && trainData == old(trainData) && valData == old(valData)
      ensures batchsize != 0 ==>
        && r == Success(GeneratorBatches(old(SplitOf(isTrain)), BatchWidth(batchsize),
                                         EpochSteps(|old(SplitOf(isTrain))|, batchsize),
                                         epochs, draw, imread, augment, isTrain))
        && SplitOf(isTrain) == Reshuffled(old(SplitOf(isTrain)), draw, epochs)
        && SplitOf(!isTrain) == old(SplitOf(!isTrain))
    {
      if batchsize == 0 {
        // `int(nDataPoints/self.batchsize)` runs at the first next(), before any shuffle.
        if epochs == 0 {
          return Success([]);
        }
        return Failure(ZeroDivision);
      }
      var nDataPoints := |SplitOf(isTrain)|;
      var stepsize := StepSize(nDataPoints, batchsize);
      ghost var orig := SplitOf(isTrain);
      ghost var other := SplitOf(!isTrain);
      ghost var steps := EpochSteps(nDataPoints, batchsize);
      ghost var b := BatchWidth(batchsize);
      var yielded: seq<Batch> := [];
      var epoch := 0;
      while epoch < epochs
        invariant 0 <= epoch <= epochs
        invariant SplitOf(isTrain) == Reshuffled(orig, draw, epoch)
        invariant SplitOf(!isTrain) == other
        invariant yielded == GeneratorBatches(orig, b, steps, epoch, draw, imread, augment, isTrain)
      {
        ShuffleSplit(isTrain, draw(epoch));
        assert SplitOf(isTrain) == Reshuffled(orig, draw, epoch + 1);
        var batches := ReadEpoch(isTrain, stepsize, imread, augment);
        GeneratorBatchesStep(orig, b, steps, epoch, draw, imread, augment, isTrain);
        yielded := yielded + batches;
        epoch := epoch + 1;
      }
      r := Success(yielded);
    }

    /** normCropReshape: every sample is normalised, cropped by bounds drawn from the
        input's shape, resized to `outputsize` and possibly flipped, the label by the same
        bounds and the same flip. `draws(i)` is the randomness of sample i. The bounds are
        drawn by the corrected `CropBounds`. The first sample whose processing fails raises. */
    method NormCropReshape(batchIn: seq<Image>, batchOut: seq<Image>, outputsize: OutputSize,
                           draws: nat -> SampleDraw) returns (r: Result<(seq<Image>, seq<Image>)>)
      ensures |batchIn| != |batchOut| ==> r == Failure(AssertionFailed)
      ensures r.Success? <==>
        |batchIn| == |batchOut|
        && forall i :: 0 <= i < |batchIn| ==> ProcessSample(batchIn[i], batchOut[i], draws(i), outputsize).Success?
      ensures r.Success? ==>
        && |r.value.0| == |batchIn| && |r.value.1| == |batchIn|
        && forall i :: 0 <= i < |batchIn| ==>
             (r.value.0[i], r.value.1[i]) == ProcessSample(batchIn[i], batchOut[i], draws(i), outputsize).value
      ensures r.Failure? && |batchIn| == |batchOut| ==>
        exists i :: 0 <= i < |batchIn|
          && ProcessSample(batchIn[i], batchOut[i], draws(i), outputsize) == Failure(r.error)
          && forall k :: 0 <= k < i ==> ProcessSample(batchIn[k], batchOut[k], draws(k), outputsize).Success?
    {
      if |batchIn| != |batchOut| {
        return Failure(AssertionFailed);
      }
      var procIn: seq<Image> := [];
      var procOut: seq<Image> := [];
      var i := 0;
      while i < |batchIn|
        invariant 0 <= i <= |batchIn|
        invariant |procIn| == i && |procOut| == i
        invariant forall k :: 0 <= k < i ==>
          ProcessSample(batchIn[k], batchOut[k], draws(k), outputsize).Success?
          && (procIn[k], procOut[k]) == ProcessSample(batchIn[k], batchOut[k], draws(k), outputsize).value
      {
        var in_ := Normalize(batchIn[i]);
        var out_ := Normalize(batchOut[i]);
        var cropValues := CropBounds(in_.height, in_.width, draws(i));
        if cropValues.Failure? {
          return Failure(cropValues.error);
        }
        var croppedIn := Crop(in_, cropValues.value);
        var croppedOut := Crop(out_, cropValues.value);
        // An empty crop is only reported on stdout; cv2.resize then raises on it.
        if croppedIn.height == 0 || croppedIn.width == 0 || croppedOut.height == 0 || croppedOut.width == 0
           || outputsize.width == 0 || outputsize.height == 0 {
          return Failure(EmptyImage);
        }
        var resizedIn := Resize(croppedIn, outputsize);
        var resizedOut := Resize(croppedOut, outputsize);
        if draws(i).flip {
          resizedIn := FlipHorizontal(resizedIn);
          resizedOut := FlipHorizontal(resizedOut);
        }
        procIn := procIn + [resizedIn];
        procOut := procOut + [resizedOut];
        i := i + 1;
      }
      r := Success((procIn, procOut));
    }
  }
}
