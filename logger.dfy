/** The training logger of logger.py: the run folder, the Keras callbacks it hands out,
    the test images it predicts after every epoch and the mosaic it stacks them into. */
module Logging {
  import opened Wrappers
  import opened Text
  import opened Imaging

  // ---------------------------------------------------------------------------
  // File names

  /** The fields of `datetime.datetime.today()` the folder name uses. */
  datatype Timestamp = Timestamp(year: nat, month: nat, day: nat, hour: nat, minute: nat, second: nat)

  /** The ranges datetime guarantees. */
  predicate ValidTimestamp(t: Timestamp) {
    1 <= t.year <= 9999 && 1 <= t.month <= 12 && 1 <= t.day <= 31
    && t.hour < 24 && t.minute < 60 && t.second < 60
  }

  /** `"%04d-%02d-%02d-%02d-%02d-%02d/"` of the timestamp. */
  function Stamp(t: Timestamp): string {
    Pad(t.year, 4) + "-" + Pad(t.month, 2) + "-" + Pad(t.day, 2) + "-"
      + Pad(t.hour, 2) + "-" + Pad(t.minute, 2) + "-" + Pad(t.second, 2) + "/"
  }

  /** The run folder: the output folder followed by the stamp, with no separator between. */
  function RunFolderName(outputFolder: string, t: Timestamp): string {
    outputFolder + Stamp(t)
  }

  lemma {:induction false} PadWidthOf(n: nat, width: nat)
    requires width >= 1 && n < Pow10(width)
    ensures |Pad(n, width)| == width
  {
    PadWidth(n, width);
  }

  /** The run folder name has a fixed layout: 20 characters after the output folder, ending in '/'. */
  lemma RunFolderNameLayout(outputFolder: string, t: Timestamp)
    requires ValidTimestamp(t)
    ensures |RunFolderName(outputFolder, t)| == |outputFolder| + 20
    ensures RunFolderName(outputFolder, t)[..|outputFolder|] == outputFolder
    ensures RunFolderName(outputFolder, t)[|outputFolder| + 19] == '/'
  {
    PadWidthOf(t.year, 4);
    PadWidthOf(t.month, 2);
    PadWidthOf(t.day, 2);
    PadWidthOf(t.hour, 2);
    PadWidthOf(t.minute, 2);
    PadWidthOf(t.second, 2);
  }

  /** Runs started at different seconds get different folders (this is why makedirs cannot
      clash except within one second). */
  lemma RunFolderNameInjective(outputFolder: string, t1: Timestamp, t2: Timestamp)
    requires ValidTimestamp(t1) && ValidTimestamp(t2)
    requires RunFolderName(outputFolder, t1) == RunFolderName(outputFolder, t2)
    ensures t1 == t2
  {
    RunFolderNameLayout(outputFolder, t1);
    RunFolderNameLayout(outputFolder, t2);
    CancelPrefix(outputFolder, Stamp(t1), outputFolder, Stamp(t2));
    StampInjective(t1, t2);
  }

  lemma StampInjective(t1: Timestamp, t2: Timestamp)
    requires ValidTimestamp(t1) && ValidTimestamp(t2) && Stamp(t1) == Stamp(t2)
    ensures t1 == t2
  {
    PadWidthOf(t1.year, 4); PadWidthOf(t2.year, 4);
    PadWidthOf(t1.month, 2); PadWidthOf(t2.month, 2);
    PadWidthOf(t1.day, 2); PadWidthOf(t2.day, 2);
    PadWidthOf(t1.hour, 2); PadWidthOf(t2.hour, 2);
    PadWidthOf(t1.minute, 2); PadWidthOf(t2.minute, 2);
    PadWidthOf(t1.second, 2); PadWidthOf(t2.second, 2);
    var a5 := Pad(t1.year, 4) + "-" + Pad(t1.month, 2) + "-" + Pad(t1.day, 2) + "-" + Pad(t1.hour, 2) + "-" + Pad(t1.minute, 2) + "-";
    var b5 := Pad(t2.year, 4) + "-" + Pad(t2.month, 2) + "-" + Pad(t2.day, 2) + "-" + Pad(t2.hour, 2) + "-" + Pad(t2.minute, 2) + "-";
    CancelSuffix(a5 + Pad(t1.second, 2), "/", b5 + Pad(t2.second, 2), "/");
    CancelSuffix(a5, Pad(t1.second, 2), b5, Pad(t2.second, 2));
    var a4 := Pad(t1.year, 4) + "-" + Pad(t1.month, 2) + "-" + Pad(t1.day, 2) + "-" + Pad(t1.hour, 2) + "-";
    var b4 := Pad(t2.year, 4) + "-" + Pad(t2.month, 2) + "-" + Pad(t2.day, 2) + "-" + Pad(t2.hour, 2) + "-";
    CancelSuffix(a4 + Pad(t1.minute, 2), "-", b4 + Pad(t2.minute, 2), "-");
    CancelSuffix(a4, Pad(t1.minute, 2), b4, Pad(t2.minute, 2));
    var a3 := Pad(t1.year, 4) + "-" + Pad(t1.month, 2) + "-" + Pad(t1.day, 2) + "-";
    var b3 := Pad(t2.year, 4) + "-" + Pad(t2.month, 2) + "-" + Pad(t2.day, 2) + "-";
    CancelSuffix(a3 + Pad(t1.hour, 2), "-", b3 + Pad(t2.hour, 2), "-");
    CancelSuffix(a3, Pad(t1.hour, 2), b3, Pad(t2.hour, 2));
    var a2 := Pad(t1.year, 4) + "-" + Pad(t1.month, 2) + "-";
    var b2 := Pad(t2.year, 4) + "-" + Pad(t2.month, 2) + "-";
    CancelSuffix(a2 + Pad(t1.day, 2), "-", b2 + Pad(t2.day, 2), "-");
    CancelSuffix(a2, Pad(t1.day, 2), b2, Pad(t2.day, 2));
    var a1 := Pad(t1.year, 4) + "-";
    var b1 := Pad(t2.year, 4) + "-";
    CancelSuffix(a1 + Pad(t1.month, 2), "-", b1 + Pad(t2.month, 2), "-");
    CancelSuffix(a1, Pad(t1.month, 2), b1, Pad(t2.month, 2));
    CancelSuffix(Pad(t1.year, 4), "-", Pad(t2.year, 4), "-");
    PadInjective(t1.year, t2.year, 4);
    PadInjective(t1.month, t2.month, 2);
    PadInjective(t1.day, t2.day, 2);
    PadInjective(t1.hour, t2.hour, 2);
    PadInjective(t1.minute, t2.minute, 2);
    PadInjective(t1.second, t2.second, 2);
  }

  /** The name the checkpoint template `"{epoch:04d}.hdf5"` gives epoch e. */
  function CheckpointName(e: nat): string {
    Pad(e, 4) + ".hdf5"
  }

  /** `F"{folderName}figs/{epoch}.png"`. */
  function FigurePath(folderName: string, epoch: nat): string {
    folderName + "figs/" + Decimal(epoch) + ".png"
  }

  /** Each epoch's figure gets a file of its own. */
  lemma FigurePathInjective(folderName: string, a: nat, b: nat)
    requires FigurePath(folderName, a) == FigurePath(folderName, b)
    ensures a == b
  {
    CancelSuffix(folderName + "figs/" + Decimal(a), ".png", folderName + "figs/" + Decimal(b), ".png");
    CancelPrefix(folderName + "figs/", Decimal(a), folderName + "figs/", Decimal(b));
    PadInjective(a, b, 1);
  }

  /** Checkpoint names sort by epoch as long as the epoch has at most four digits. */
  lemma CheckpointNameOrder(a: nat, b: nat)
    requires a < 10000 && b < 10000
    ensures LexLe(CheckpointName(a), CheckpointName(b)) <==> a <= b
  {
    PadWidthOf(a, 4);
    PadWidthOf(b, 4);
    LexLeAppend(Pad(a, 4), Pad(b, 4), ".hdf5", ".hdf5");
    LexLeReflexive(".hdf5");
    PadOrder(a, b, 4);
    if Pad(a, 4) == Pad(b, 4) {
      PadInjective(a, b, 4);
    }
  }

  /** From epoch 10000 on, the fifth digit breaks the order: "10000.hdf5" sorts before "9999.hdf5". */
  lemma CheckpointNameOrderEndsAt10000()
    ensures LexLe(CheckpointName(10000), CheckpointName(9999))
    ensures !LexLe(CheckpointName(9999), CheckpointName(10000))
  {
    PadStep(10000, 4);
    PadStep(1000, 3);
    PadStep(100, 2);
    assert Pad(10000, 4) == Pad(1000, 3) + ['0'];
    assert CheckpointName(10000)[0] == '1';
    PadStep(9999, 4);
    PadStep(999, 3);
    PadStep(99, 2);
    assert CheckpointName(9999)[0] == '9';
  }

  // ---------------------------------------------------------------------------
  // The mosaic of stack()

  /** `int(math.sqrt(n))`: the integer square root. */
  function IntSqrt(n: nat): (r: nat)
    ensures r * r <= n < (r + 1) * (r + 1)
  {
    if n == 0 then 0
    else
      var s := IntSqrt(n - 1);
      if (s + 1) * (s + 1) <= n then s + 1 else s
  }

  /** `math.ceil(a / b)` for b > 0. */
  function CeilDiv(a: nat, b: nat): (r: nat)
    requires b > 0
    ensures r * b >= a && (r == 0 || (r - 1) * b < a)
  {
    (a + b - 1) / b
  }

  /** The number of rows of the mosaic of n images. */
  function GridRows(n: nat): nat {
    IntSqrt(n)
  }

  /** The row length of the mosaic of n images. */
  function GridCols(n: nat): nat
    requires n > 0
  {
    CeilDiv(n, IntSqrt(n))
  }

  /** The mosaic is close to square, has room for every image, and its last column is
      never wholly empty. */
  lemma GridShape(n: nat)
    requires n > 0
    ensures 1 <= GridRows(n) <= GridCols(n) <= GridRows(n) + 2
    ensures GridRows(n) * GridCols(n) >= n
    ensures GridRows(n) * (GridCols(n) - 1) < n
  {
    SqrtPositive(n);
    ShapeArith(n, GridRows(n), GridCols(n));
  }

  lemma ShapeArith(n: nat, r: nat, c: nat)
    requires r >= 1 && r * r <= n < (r + 1) * (r + 1)
    requires c * r >= n && (c == 0 || (c - 1) * r < n)
    requires n > 0
    ensures r <= c <= r + 2 && r * c >= n && r * (c - 1) < n
  {
    MulCancelLe(r, c, r);
    assert (r + 1) * (r + 1) == (r + 2) * r + 1;
    MulCancelLt(c - 1, r + 2, r);
    assert r * (c - 1) == (c - 1) * r;
  }

  lemma SqrtPositive(n: nat)
    requires n > 0
    ensures IntSqrt(n) >= 1
  {
  }

  lemma MulCancelLe(a: nat, b: nat, k: nat)
    requires k > 0 && a * k <= b * k
    ensures a <= b
  {
  }

  lemma MulCancelLt(a: nat, b: nat, k: nat)
    requires k > 0 && a * k < b * k
    ensures a < b
  {
  }

  lemma MulUpper(a: nat, b: nat, k: nat)
    requires a <= b
    ensures a * k <= b * k
  {
  }

  /** Eight images, the default number of test images, make a 2 x 4 mosaic; their sixteen
      image/prediction pairs a 4 x 4 one. */
  lemma GridOfEightAndSixteen()
    ensures GridRows(8) == 2 && GridCols(8) == 4
    ensures GridRows(16) == 4 && GridCols(16) == 4
  {
    SqrtIs(8, 2);
    SqrtIs(16, 4);
  }

  /** Five images make a 2 x 3 mosaic with one empty slot; ten a 3 x 4 one with two. */
  lemma GridOfFiveAndTen()
    ensures GridRows(5) == 2 && GridCols(5) == 3
    ensures GridRows(10) == 3 && GridCols(10) == 4
  {
    SqrtIs(5, 2);
    SqrtIs(10, 3);
  }

  lemma SqrtIs(n: nat, r: nat)
    requires r * r <= n < (r + 1) * (r + 1)
    ensures IntSqrt(n) == r
  {
    var s := IntSqrt(n);
    // s * s <= n < (r + 1) * (r + 1), so s < r + 1; symmetrically r < s + 1
    SquareCancelLt(s, r + 1);
    SquareCancelLt(r, s + 1);
  }

  lemma SquareCancelLt(a: nat, b: nat)
    requires a * a < b * b
    ensures a < b
  {
  }

  type Grid = seq<seq<Image>>

  /** The tile at row r, column c of the mosaic: the image at r*cols + c, converted to three
      channels, or a black tile of the first image's height and width past the end. */
  function Cell(imgs: seq<Image>, cols: nat, r: nat, c: nat): Image
    requires |imgs| > 0
  {
    var index := r * cols + c;
    if index < |imgs| then ToRgb(imgs[index]) else Black(imgs[0].height, imgs[0].width)
  }

  function GridRow(imgs: seq<Image>, cols: nat, r: nat): seq<Image>
    requires |imgs| > 0
  {
    seq(cols, c requires 0 <= c < cols => Cell(imgs, cols, r, c))
  }

  /** The mosaic stack() builds, with the missing slots filled by black tiles. An empty list
      fails: `ceil(0 / 0)` divides by zero. */
  function StackGrid(imgs: seq<Image>): Result<Grid> {
    var rows := GridRows(|imgs|);
    if rows == 0 then Failure(ZeroDivision)
    else
      var cols := GridCols(|imgs|);
      Success(seq(rows, r requires 0 <= r < rows => GridRow(imgs, cols, r)))
  }

  /** The mosaic exists exactly for non-empty lists; it has GridRows rows of GridCols tiles. */
  lemma StackGridShape(imgs: seq<Image>)
    ensures StackGrid(imgs).Success? <==> |imgs| > 0
    ensures StackGrid(imgs).Success? ==>
      && |StackGrid(imgs).value| == GridRows(|imgs|)
      && forall r :: 0 <= r < |StackGrid(imgs).value| ==> |StackGrid(imgs).value[r]| == GridCols(|imgs|)
  {
    if |imgs| > 0 {
      SqrtPositive(|imgs|);
    }
  }

  /** Image k sits at row k / cols, column k % cols, converted to three channels. */
  lemma StackPlacesEveryImage(imgs: seq<Image>)
    requires |imgs| > 0
    ensures StackGrid(imgs).Success?
    ensures var g := StackGrid(imgs).value;
      var cols := GridCols(|imgs|);
      forall k :: 0 <= k < |imgs| ==> k / cols < |g| && k % cols < |g[k / cols]| && g[k / cols][k % cols] == ToRgb(imgs[k])
  {
    StackRoom(imgs);
    var g := StackGrid(imgs).value;
    var cols := GridCols(|imgs|);
    forall k | 0 <= k < |imgs|
      ensures k / cols < |g| && k % cols < |g[k / cols]| && g[k / cols][k % cols] == ToRgb(imgs[k])
    {
      TileOfImage(imgs, g, cols, k);
    }
  }

  /** The mosaic has a slot for every image. */
  lemma StackRoom(imgs: seq<Image>)
    requires |imgs| > 0
    ensures StackGrid(imgs).Success?
    ensures GridCols(|imgs|) >= 1 && |StackGrid(imgs).value| * GridCols(|imgs|) >= |imgs|
  {
    StackGridShape(imgs);
    GridShape(|imgs|);
  }

  lemma TileOfImage(imgs: seq<Image>, g: Grid, cols: nat, k: nat)
    requires |imgs| > 0 && StackGrid(imgs) == Success(g) && cols == GridCols(|imgs|)
    requires |g| * cols >= |imgs| && k < |imgs|
    ensures k / cols < |g| && k % cols < |g[k / cols]| && g[k / cols][k % cols] == ToRgb(imgs[k])
  {
    StackGridShape(imgs);
    RowMajor(k, cols, |g|);
    var r := k / cols;
    var c := k % cols;
    CellOfImage(imgs, cols, r, c, k);
    assert g[r] == GridRow(imgs, cols, r);
  }

  lemma CellOfImage(imgs: seq<Image>, cols: nat, r: nat, c: nat, k: nat)
    requires |imgs| > 0 && k < |imgs| && r * cols + c == k
    ensures Cell(imgs, cols, r, c) == ToRgb(imgs[k])
  {
  }

  /** Every other tile is black, and there are fewer of them than rows. */
  lemma StackFillsTheRest(imgs: seq<Image>)
    requires |imgs| > 0
    ensures StackGrid(imgs).Success?
    ensures var g := StackGrid(imgs).value;
      var cols := GridCols(|imgs|);
      && (forall r, c :: 0 <= r < |g| && 0 <= c < cols && r * cols + c >= |imgs| ==>
            c < |g[r]| && g[r][c] == Black(imgs[0].height, imgs[0].width))
      && |g| * cols - |imgs| < |g|
  {
    StackGridShape(imgs);
    GridShape(|imgs|);
    var g := StackGrid(imgs).value;
    var cols := GridCols(|imgs|);
    forall r, c | 0 <= r < |g| && 0 <= c < cols && r * cols + c >= |imgs|
      ensures c < |g[r]| && g[r][c] == Black(imgs[0].height, imgs[0].width)
    {
      assert g[r] == GridRow(imgs, cols, r);
    }
    SpareSlots(|g|, cols, |imgs|);
  }

  lemma SpareSlots(rows: nat, cols: nat, n: nat)
    requires cols >= 1 && rows * (cols - 1) < n
    ensures rows * cols - n < rows
  {
    assert rows * (cols - 1) == rows * cols - rows;
  }

  /** Every tile of the mosaic has at least three channels. */
  lemma StackTilesHaveThreeChannels(imgs: seq<Image>)
    requires |imgs| > 0
    ensures StackGrid(imgs).Success?
    ensures forall r, c :: 0 <= r < |StackGrid(imgs).value| && 0 <= c < |StackGrid(imgs).value[r]| ==>
      StackGrid(imgs).value[r][c].channels >= 3
  {
    StackGridShape(imgs);
  }

  lemma RowMajor(k: nat, cols: nat, rows: nat)
    requires cols > 0 && k < rows * cols
    ensures k / cols < rows && (k / cols) * cols + k % cols == k
  {
    if k / cols >= rows {
      MulUpper(rows, k / cols, cols);
    }
  }

  /** stack() as written: every slot past the end of the list goes to the `except` branch,
      whose `thisRow.append(np.zeros(shape[0]), shape[1], 3)` passes three arguments to
      list.append and raises TypeError. */
  function StackAsWritten(imgs: seq<Image>): Result<Grid> {
    var rows := GridRows(|imgs|);
    if rows == 0 then Failure(ZeroDivision)
    else
      var cols := GridCols(|imgs|);
      if rows * cols > |imgs| then Failure(TypeError)
      else Success(seq(rows, r requires 0 <= r < rows => GridRow(imgs, cols, r)))
  }

  /** As written, stack() agrees with the intended mosaic exactly when no slot is empty;
      five predictions (2 x 3 slots) or five test images with their predictions (3 x 4
      slots for ten) make it raise. */
  lemma StackAsWrittenFailsOnPartialGrid(imgs: seq<Image>)
    requires |imgs| > 0
    ensures StackAsWritten(imgs) == StackGrid(imgs) <==> GridRows(|imgs|) * GridCols(|imgs|) == |imgs|
    ensures |imgs| == 5 || |imgs| == 10 ==> StackAsWritten(imgs) == Failure(TypeError) && StackGrid(imgs).Success?
    ensures |imgs| == 8 || |imgs| == 16 ==> StackAsWritten(imgs) == StackGrid(imgs)
  {
    GridOfEightAndSixteen();
    GridShape(|imgs|);
    GridOfFiveAndTen();
  }

  // ---------------------------------------------------------------------------
  // Interleaving test images and predictions

  /** `both[::2] = a; both[1::2] = b` for lists of equal length. */
  function Interleave(a: seq<Image>, b: seq<Image>): (r: seq<Image>)
    requires |a| == |b|
    ensures |r| == 2 * |a|
  {
    if |a| == 0 then [] else [a[0], b[0]] + Interleave(a[1..], b[1..])
  }

  /** The even slots hold the test images, the odd slots their predictions, in order. */
  lemma {:induction false} InterleaveSlots(a: seq<Image>, b: seq<Image>)
    requires |a| == |b|
    ensures forall k :: 0 <= k < |a| ==> Interleave(a, b)[2 * k] == a[k] && Interleave(a, b)[2 * k + 1] == b[k]
  {
    if |a| > 0 {
      InterleaveSlots(a[1..], b[1..]);
      var rest := Interleave(a[1..], b[1..]);
      assert Interleave(a, b) == [a[0], b[0]] + rest;
      forall k | 1 <= k < |a|
        ensures Interleave(a, b)[2 * k] == a[k] && Interleave(a, b)[2 * k + 1] == b[k]
      {
        assert Interleave(a, b)[2 * k] == rest[2 * (k - 1)];
        assert Interleave(a, b)[2 * k + 1] == rest[2 * (k - 1) + 1];
      }
    }
  }

  // ---------------------------------------------------------------------------

  /** The Keras model, never looked inside. */
  datatype Network = Network(id: nat)

  /** The callbacks getCallbacks hands to Keras. */
  datatype Callback =
    | ModelCheckpoint(pathTemplate: string, period: int)  // monitor 'val_loss', every model saved
    | TensorBoard(logDir: string)
    | CsvLogger(path: string)                            // separator ',', overwriting
    | PredictToTensorboard(folderName: string)           // on_epoch_end: predictAndSave2Tensorboard(writer, epoch, FigurePath(folderName, epoch))
    | PredictToFile(folderName: string)                  // on_epoch_end: predictAndSave(FigurePath(folderName, epoch))

  /** A mosaic written to a file. */
  datatype Saved = Saved(path: string, mosaic: Grid)

  /** A mosaic written to a file and logged to TensorBoard as an image with a step. */
  datatype Logged = Logged(saved: Saved, tag: string, step: nat)

  /** The predictions of `model` for the images, one call at a time. */
  function Predictions(model: Network, images: seq<Image>, predict: (Network, Image) -> Image): (r: seq<Image>)
    ensures |r| == |images|
  {
    seq(|images|, k requires 0 <= k < |images| => predict(model, images[k]))
  }

  class Logger {
    var folderName: string
    var model: Network
    var testImages: seq<Image>

    /** `today` is the value of datetime.datetime.today(); creating the folders and writing
        architecture.txt are left out. */
    constructor (outputFolder: string, model: Network, today: Timestamp)
      ensures folderName == RunFolderName(outputFolder, today)
      ensures this.model == model && testImages == []
    {
      this.model := model;
      folderName := RunFolderName(outputFolder, today);
      testImages := [];
    }

    /** The callbacks in their order: the checkpoint always, then TensorBoard, the CSV
        writer and the prediction callback as the flags ask. */
    method GetCallbacks(useTensorboard: bool, useCsvWriter: bool, predict: bool,
                        useTensorboardFilewriter: bool, period: int) returns (callbacksList: seq<Callback>)
      ensures callbacksList ==
        [ModelCheckpoint(folderName + "{epoch:04d}.hdf5", period)]
        + (if useTensorboard then [TensorBoard(folderName)] else [])
        + (if useCsvWriter then [CsvLogger(folderName + "log.csv")] else [])
        + (if !predict then [] else if useTensorboardFilewriter then [PredictToTensorboard(folderName)] else [PredictToFile(folderName)])
      ensures |callbacksList| == 1 + (if useTensorboard then 1 else 0) + (if useCsvWriter then 1 else 0) + (if predict then 1 else 0)
    {
      callbacksList := [ModelCheckpoint(folderName + "{epoch:04d}.hdf5", period)];
      if useTensorboard {
        callbacksList := callbacksList + [TensorBoard(folderName)];
      }
      if useCsvWriter {
        callbacksList := callbacksList + [CsvLogger(folderName + "log.csv")];
      }
      if predict {
        if useTensorboardFilewriter {
          callbacksList := callbacksList + [PredictToTensorboard(folderName)];
        } else {
          callbacksList := callbacksList + [PredictToFile(folderName)];
        }
      }
    }

    /** stack(): the mosaic of the images, row by row. */
    method Stack(imgs: seq<Image>) returns (r: Result<Grid>)
      ensures r == StackGrid(imgs)
    {
      var sqrt := IntSqrt(|imgs|);
      if sqrt == 0 {
        return Failure(ZeroDivision);
      }
      var rowLength := CeilDiv(|imgs|, sqrt);
      var shape := (imgs[0].height, imgs[0].width);
      var rows: Grid := [];
      var row := 0;
      while row < sqrt
        invariant 0 <= row <= sqrt
        invariant |rows| == row
        invariant forall rr :: 0 <= rr < row ==> rows[rr] == GridRow(imgs, rowLength, rr)
      {
        var thisRow: seq<Image> := [];
        var col := 0;
        while col < rowLength
          invariant 0 <= col <= rowLength
          invariant |thisRow| == col
          invariant forall c :: 0 <= c < col ==> thisRow[c] == Cell(imgs, rowLength, row, c)
        {
          var index := row * rowLength + col;
          if index < |imgs| {
            var img := imgs[index];
            if img.channels < 3 {
              img := ToRgb(img);
            }
            thisRow := thisRow + [img];
          } else {
            thisRow := thisRow + [Black(shape.0, shape.1)];
          }
          col := col + 1;
        }
        assert thisRow == GridRow(imgs, rowLength, row);
        rows := rows + [thisRow];
        row := row + 1;
      }
      assert rows == seq(sqrt, rr requires 0 <= rr < sqrt => GridRow(imgs, rowLength, rr));
      r := Success(rows);
    }

    /** getImgPrediction(): one prediction per test image, in order. */
    method GetImgPrediction(predict: (Network, Image) -> Image) returns (outputs: seq<Image>)
      ensures outputs == Predictions(model, testImages, predict)
    {
      outputs := [];
      var k := 0;
      while k < |testImages|
        invariant 0 <= k <= |testImages|
        invariant outputs == Predictions(model, testImages[..k], predict)
      {
        var pred := predict(model, testImages[k]);
        outputs := outputs + [pred];
        k := k + 1;
      }
      assert testImages[..k] == testImages;
    }

    /** predictAndSave(name): the mosaic of the predictions, written to `name`. With no test
        images it divides by zero. */
    method PredictAndSave(name: string, predict: (Network, Image) -> Image) returns (r: Result<Saved>)
      ensures r.Success? <==> |testImages| > 0
      ensures r.Success? ==> r.value == Saved(name, StackGrid(Predictions(model, testImages, predict)).value)
    {
      var predictions := GetImgPrediction(predict);
      StackGridShape(predictions);
      var stacked := Stack(predictions);
      if stacked.Failure? {
        return Failure(stacked.error);
      }
      r := Success(Saved(name, stacked.value));
    }

    /** predictAndSave2Tensorboard(fileWriter, epoch, name): test image k in even slot 2k,
        its prediction in odd slot 2k+1, stacked, written to `name` and logged at `epoch`. */
    method PredictAndSave2Tensorboard(epoch: nat, name: string, predict: (Network, Image) -> Image)
      returns (r: Result<Logged>)
      ensures r.Success? <==> |testImages| > 0
      ensures r.Success? ==>
        var both := Interleave(testImages, Predictions(model, testImages, predict));
        r.value == Logged(Saved(name, StackGrid(both).value), "Test Image", epoch)
    {
      var predictions := GetImgPrediction(predict);
      var m := |testImages|;
      var slots: seq<Option<Image>> := seq(2 * m, _ => None);
      var k := 0;
      while k < m
        invariant 0 <= k <= m && |slots| == 2 * m
        invariant forall j :: 0 <= j < 2 * m ==>
          slots[j] == if j % 2 == 0 && j / 2 < k then Some(testImages[j / 2]) else None
      {
        slots := slots[2 * k := Some(testImages[k])];
        k := k + 1;
      }
      k := 0;
      while k < m
        invariant 0 <= k <= m && |slots| == 2 * m
        invariant forall j :: 0 <= j < 2 * m ==>
          slots[j] == if j % 2 == 0 then Some(testImages[j / 2])
                      else if j / 2 < k then Some(predictions[j / 2]) else None
      {
        slots := slots[2 * k + 1 := Some(predictions[k])];
        k := k + 1;
      }
      var both: seq<Image> := [];
      var j := 0;
      while j < 2 * m
        invariant 0 <= j <= 2 * m
        invariant |both| == j
        invariant forall i :: 0 <= i < j ==> Some(both[i]) == slots[i]
      {
        both := both + [slots[j].value];
        j := j + 1;
      }
      InterleaveSlots(testImages, predictions);
      assert both == Interleave(testImages, predictions) by {
        forall i | 0 <= i < 2 * m
          ensures both[i] == Interleave(testImages, predictions)[i]
        {
          assert i == 2 * (i / 2) + i % 2;
        }
      }
      StackGridShape(both);
      var stacked := Stack(both);
      if stacked.Failure? {
        return Failure(stacked.error);
      }
      // np.clip to [0, 255] and the uint8 conversion only change pixels.
      r := Success(Logged(Saved(name, stacked.value), "Test Image", epoch));
    }

    /** setTestImages(folder): the first eight entries of the listing, in listing order,
        read as `folder + "/" + entry` and appended. `listing` is os.listdir(folder). */
    method SetTestImages(testImageFolder: string, listing: seq<string>, imread: string -> Image)
      modifies this`testImages
      ensures var taken := if |listing| <= 8 then |listing| else 8;
        testImages == old(testImages) + seq(taken, k requires 0 <= k < taken => imread(testImageFolder + "/" + listing[k]))
    {
      var imgpaths := if |listing| <= 8 then listing else listing[..8];
      ghost var start := testImages;
      var k := 0;
      while k < |imgpaths|
        invariant 0 <= k <= |imgpaths|
        invariant testImages == start + seq(k, i requires 0 <= i < k => imread(testImageFolder + "/" + imgpaths[i]))
      {
        testImages := testImages + [imread(testImageFolder + "/" + imgpaths[k])];
        k := k + 1;
      }
    }
  }
}
