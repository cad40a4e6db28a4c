/** The network base class of nets/nnBase.py: where a network keeps its checkpoints, and
    how getModel resumes from the newest one. */
module NnBase {
  import opened Wrappers
  import opened Text
  import Logging

  /** The model getModel returns: built afresh by makeModel, or load_model of a path. */
  datatype LoadedModel = Fresh | Loaded(path: string)

  /** `[file for file in listing if ".hdf5" in file]`, keeping the listing's order. */
  function Candidates(listing: seq<string>): (r: seq<string>)
    ensures forall x :: x in r <==> x in listing && Contains(x, ".hdf5")
  {
    if |listing| == 0 then []
    else
      var last := listing[|listing| - 1];
      assert listing == listing[..|listing| - 1] + [last];
      Candidates(listing[..|listing| - 1]) + (if Contains(last, ".hdf5") then [last] else [])
  }

  /** `int(name.split(".")[0].split("_")[-1])`: the number after the last '_' of the part
      before the first '.'; None where int() raises ValueError. */
  function ParseEpoch(name: string): Option<int> {
    var stem := Split(name, '.')[0];
    var parts := Split(stem, '_');
    PyInt(parts[|parts| - 1])
  }

  lemma DigitsAvoid(s: string, c: char)
    requires AllDigits(s) && !IsDigit(c)
    ensures c !in s
  {
  }

  /** The epoch is read back from the names the checkpoint template writes. */
  lemma ParseEpochOfCheckpoint(e: nat)
    ensures ParseEpoch(Logging.CheckpointName(e)) == Some(e)
  {
    var digits := Pad(e, 4);
    PadIsDigits(e, 4);
    DigitsAvoid(digits, '.');
    DigitsAvoid(digits, '_');
    assert Logging.CheckpointName(e) == digits + ['.'] + "hdf5";
    SplitAtSeparator(digits, '.', "hdf5");
    SplitWithoutSeparator(digits, '.');
    SplitWithoutSeparator(digits, '_');
    PyIntOfPad(e, 4);
  }

  /** ... and from names with a prefix before a '_', such as "model_0042.hdf5". */
  lemma ParseEpochOfPrefixedCheckpoint(prefix: string, e: nat, width: nat)
    requires '.' !in prefix
    ensures ParseEpoch(prefix + "_" + Pad(e, width) + ".hdf5") == Some(e)
  {
    var digits := Pad(e, width);
    PadIsDigits(e, width);
    DigitsAvoid(digits, '.');
    DigitsAvoid(digits, '_');
    var stem := prefix + "_" + digits;
    assert prefix + "_" + digits + ".hdf5" == stem + ['.'] + "hdf5";
    SplitAtSeparator(stem, '.', "hdf5");
    assert '.' !in stem;
    SplitWithoutSeparator(stem, '.');
    assert stem == prefix + ['_'] + digits;
    SplitAtSeparator(prefix, '_', digits);
    SplitWithoutSeparator(digits, '_');
    PyIntOfPad(e, width);
  }

  /** A checkpoint name whose part before the first '.' has no '_' and does not start with
      a digit, a sign or whitespace makes int() raise. */
  lemma ParseEpochRejectsUnnumberedStem(stem: string, ext: string)
    requires |stem| > 0 && '.' !in stem && '_' !in stem
    requires !IsSpace(stem[0]) && !IsDigit(stem[0]) && stem[0] != '+' && stem[0] != '-'
    ensures ParseEpoch(stem + "." + ext) == None
  {
    assert stem + "." + ext == stem + ['.'] + ext;
    SplitAtSeparator(stem, '.', ext);
    SplitWithoutSeparator(stem, '.');
    SplitWithoutSeparator(stem, '_');
    PyIntRejectsNonNumeric(stem);
  }

  /** "model.hdf5" carries no number: int() raises. */
  lemma ParseEpochRejectsUnnumbered()
    ensures ParseEpoch("model.hdf5") == None
  {
    ParseEpochRejectsUnnumberedStem("model", "hdf5");
    assert "model" + "." + "hdf5" == "model.hdf5";
  }

  /** What getModel returns for the model folder `folder`. `listing` is os.listdir of it, or
      None where listdir raises; `loads(path)` says whether load_model succeeds. Every
      exception inside the `try` falls back to makeModel; an epoch parsed before load_model
      fails is kept. */
  function Recover(folder: string, listing: Option<seq<string>>, loads: string -> bool): (LoadedModel, int) {
    match listing
    case None => (Fresh, 0)
    case Some(files) =>
      var all := Candidates(files);
      if |all| == 0 then (Fresh, 0)
      else
        var newest := LexMax(all);
        match ParseEpoch(newest)
        case None => (Fresh, 0)
        case Some(e) =>
          var modelPath := folder + newest;
          if loads(modelPath) then (Loaded(modelPath), e) else (Fresh, e)
  }

  /** A folder that cannot be listed, or holds no checkpoint, gives a fresh model at epoch 0. */
  lemma RecoverWithoutCheckpoints(folder: string, listing: Option<seq<string>>, loads: string -> bool)
    requires listing.None? || forall x :: x in listing.value ==> !Contains(x, ".hdf5")
    ensures Recover(folder, listing, loads) == (Fresh, 0)
  {
    if listing.Some? {
      CandidatesOfNone(listing.value);
    }
  }

  lemma {:induction false} CandidatesOfNone(listing: seq<string>)
    requires forall x :: x in listing ==> !Contains(x, ".hdf5")
    ensures Candidates(listing) == []
  {
    if |listing| > 0 {
      CandidatesOfNone(listing[..|listing| - 1]);
      assert listing[|listing| - 1] in listing;
    }
  }

  /** A lone checkpoint without a number: int() raises, the model is fresh, the epoch 0. */
  lemma RecoverFromUnnumbered(folder: string, loads: string -> bool)
    ensures Recover(folder, Some(["model.hdf5"]), loads) == (Fresh, 0)
  {
    ContainsSuffix("model", ".hdf5");
    assert "model" + ".hdf5" == "model.hdf5";
    assert Candidates(["model.hdf5"]) == ["model.hdf5"];
    ParseEpochRejectsUnnumbered();
  }

  function MaxOf(es: seq<nat>): (m: nat)
    requires |es| > 0
    ensures m in es && forall k :: 0 <= k < |es| ==> es[k] <= m
  {
    if |es| == 1 then es[0]
    else
      var rest := MaxOf(es[1..]);
      assert es == [es[0]] + es[1..];
      if es[0] <= rest then rest else es[0]
  }

  function CheckpointNames(es: seq<nat>): seq<string> {
    seq(|es|, k requires 0 <= k < |es| => Logging.CheckpointName(es[k]))
  }

  /** Training resumes from the newest checkpoint: when the checkpoints in the folder are
      exactly those of the epochs `es` (each below 10000), in any order and among any other
      files, getModel loads the one of the largest epoch and reports that epoch; if
      load_model fails it reports the epoch with a fresh model. */
  lemma ResumesFromNewestCheckpoint(folder: string, files: seq<string>, es: seq<nat>, loads: string -> bool)
    requires |es| > 0 && forall k :: 0 <= k < |es| ==> es[k] < 10000
    requires forall k :: 0 <= k < |es| ==> Logging.CheckpointName(es[k]) in files
    requires forall x :: x in files && Contains(x, ".hdf5") ==> x in CheckpointNames(es)
    ensures var m := MaxOf(es);
      var path := folder + Logging.CheckpointName(m);
      Recover(folder, Some(files), loads) == (if loads(path) then Loaded(path) else Fresh, m)
  {
    var m := MaxOf(es);
    var name := Logging.CheckpointName(m);
    var all := Candidates(files);
    var i :| 0 <= i < |es| && es[i] == m;
    ContainsSuffix(Pad(m, 4), ".hdf5");
    assert name in all;
    forall y | y in all
      ensures LexLe(y, name)
    {
      var k :| 0 <= k < |es| && CheckpointNames(es)[k] == y;
      Logging.CheckpointNameOrder(es[k], m);
    }
    assert IsLexMax(name, all);
    LexMaxIsMaximum(all);
    LexMaxUnique(LexMax(all), name, all);
    ParseEpochOfCheckpoint(m);
  }

  /** The concrete case: checkpoints of epochs 5, 10 and 3 next to a CSV log in any model
      folder; the model of epoch 10 is loaded. */
  lemma ResumesAtEpochTen(folder: string, loads: string -> bool)
    requires loads(folder + "0010.hdf5")
    ensures Recover(folder, Some(["0005.hdf5", "log.csv", "0010.hdf5", "0003.hdf5"]), loads)
            == (Loaded(folder + "0010.hdf5"), 10)
  {
    ResumesAtEpochTenOf(folder, ["0005.hdf5", "log.csv", "0010.hdf5", "0003.hdf5"], "0010.hdf5", loads);
  }

  lemma ResumesAtEpochTenOf(folder: string, files: seq<string>, newest: string, loads: string -> bool)
    requires files == ["0005.hdf5", "log.csv", "0010.hdf5", "0003.hdf5"] && newest == "0010.hdf5"
    requires loads(folder + newest)
    ensures Recover(folder, Some(files), loads) == (Loaded(folder + newest), 10)
  {
    var es: seq<nat> := [5, 10, 3];
    ExampleCheckpoints(es, files);
    var m := MaxOf(es);
    assert m == 10;
    var path := folder + Logging.CheckpointName(m);
    assert path == folder + newest;
    ResumesFromNewestCheckpoint(folder, files, es, loads);
    assert Recover(folder, Some(files), loads) == (Loaded(path), m);
  }

  /** The checkpoints of the example listing are exactly those of epochs 5, 10 and 3. */
  lemma ExampleCheckpoints(es: seq<nat>, files: seq<string>)
    requires es == [5, 10, 3] && files == ["0005.hdf5", "log.csv", "0010.hdf5", "0003.hdf5"]
    ensures forall k :: 0 <= k < |es| ==> es[k] < 10000 && Logging.CheckpointName(es[k]) in files
    ensures forall x :: x in files && Contains(x, ".hdf5") ==> x in CheckpointNames(es)
    ensures Logging.CheckpointName(10) == "0010.hdf5"
  {
    CheckpointNameIs(5, "0005.hdf5");
    CheckpointNameIs(10, "0010.hdf5");
    CheckpointNameIs(3, "0003.hdf5");
    assert CheckpointNames(es) == ["0005.hdf5", "0010.hdf5", "0003.hdf5"];
    LogCsvIsNoCheckpoint();
  }

  lemma CheckpointNameIs(e: nat, name: string)
    requires e < 10000 && name == [DigitChar(e / 1000), DigitChar(e / 100 % 10), DigitChar(e / 10 % 10), DigitChar(e % 10)] + ".hdf5"
    ensures Logging.CheckpointName(e) == name
  {
    PadDigits4(e);
  }

  lemma PadDigits4(e: nat)
    requires e < 10000
    ensures Pad(e, 4) == [DigitChar(e / 1000), DigitChar(e / 100 % 10), DigitChar(e / 10 % 10), DigitChar(e % 10)]
  {
    PadStep(e, 4);
    PadStep(e / 10, 3);
    PadStep(e / 100, 2);
    assert e / 10 / 10 == e / 100;
    assert e / 100 / 10 == e / 1000;
    assert e / 1000 < 10;
  }

  lemma LogCsvIsNoCheckpoint()
    ensures !Contains("log.csv", ".hdf5")
  {
    assert !Contains(".csv", ".hdf5");
    assert "g.csv"[1..] == ".csv" && "g.csv"[..5][0] != ".hdf5"[0];
    assert "og.csv"[1..] == "g.csv" && "og.csv"[..5][0] != ".hdf5"[0];
    assert "log.csv"[1..] == "og.csv" && "log.csv"[..5][0] != ".hdf5"[0];
  }

  /** getModelFolderPath() of a network whose `filename` attribute is `name`. */
  function FolderOf(name: string): string {
    "saveData/" + name + "/"
  }

  /** What getModel returns for a network whose `self.filename` is `filename`, None where no
      `__init__` set that attribute: getModelFolderPath then raises AttributeError inside the
      `try`, and the `except` builds a fresh model at epoch 0 whatever the folder holds. */
  function RecoverOf(filename: Option<string>, listing: Option<seq<string>>, loads: string -> bool): (LoadedModel, int) {
    match filename
    case None => (Fresh, 0)
    case Some(name) => Recover(FolderOf(name), listing, loads)
  }

  /** A network whose `filename` is set resumes from the newest checkpoint of its folder
      `saveData/<filename>/`. */
  lemma NamedNetworkResumes(name: string, files: seq<string>, es: seq<nat>, loads: string -> bool)
    requires |es| > 0 && forall k :: 0 <= k < |es| ==> es[k] < 10000
    requires forall k :: 0 <= k < |es| ==> Logging.CheckpointName(es[k]) in files
    requires forall x :: x in files && Contains(x, ".hdf5") ==> x in CheckpointNames(es)
    ensures var m := MaxOf(es);
      var path := FolderOf(name) + Logging.CheckpointName(m);
      RecoverOf(Some(name), Some(files), loads) == (if loads(path) then Loaded(path) else Fresh, m)
  {
    ResumesFromNewestCheckpoint(FolderOf(name), files, es, loads);
  }

  /** nets/exampleConvNet.py's `__init__` sets `networkName` and never `filename`. Such a
      network starts afresh at epoch 0 even where its folder holds checkpoints that load,
      from which a network with `filename` set resumes at the newest epoch. */
  lemma UnsetFilenameNeverResumes(name: string, files: seq<string>, es: seq<nat>, loads: string -> bool)
    requires |es| > 0 && forall k :: 0 <= k < |es| ==> es[k] < 10000
    requires forall k :: 0 <= k < |es| ==> Logging.CheckpointName(es[k]) in files
    requires forall x :: x in files && Contains(x, ".hdf5") ==> x in CheckpointNames(es)
    requires loads(FolderOf(name) + Logging.CheckpointName(MaxOf(es)))
    ensures RecoverOf(None, Some(files), loads) == (Fresh, 0)
    ensures RecoverOf(Some(name), Some(files), loads)
            == (Loaded(FolderOf(name) + Logging.CheckpointName(MaxOf(es))), MaxOf(es))
  {
    NamedNetworkResumes(name, files, es, loads);
  }

  class NNBase {
    /** `self.filename`, which the base class reads and never sets: a subclass's `__init__`
        sets it, or leaves it unset (None). */
    var filename: Option<string>
    /** `self.epoch`, unset (None) until getModel runs. */
    var epoch: Option<int>

    /** The `__init__` of a subclass, which may or may not set `filename`; `epoch` is unset. */
    constructor (filename: Option<string>)
      ensures this.filename == filename && epoch == None
    {
      this.filename := filename;
      epoch := None;
    }

    /** getModelFolderPath(): `saveData/<filename>/`, AttributeError where `filename` is unset. */
    function ModelFolderPath(): (r: Result<string>)
      reads this
      ensures r.Failure? ==> r.error == AttributeError && filename.None?
      ensures r.Success? ==> filename.Some? && r.value == FolderOf(filename.value)
    {
      if filename.None? then Failure(AttributeError) else Success(FolderOf(filename.value))
    }

    /** getEpoch(): AttributeError until getModel has set `epoch`. */
    function GetEpoch(): (r: Result<int>)
      reads this
      ensures r.Failure? ==> r.error == AttributeError && epoch.None?
      ensures r.Success? ==> epoch == Some(r.value)
    {
      if epoch.None? then Failure(AttributeError) else Success(epoch.value)
    }

    /** getModel(inputShape, outputShape): the model and the epoch training resumes from;
        `listing` is os.listdir(ModelFolderPath()), None where it raises, and `loads` says
        whether load_model succeeds on a path. Afterwards getEpoch() reports that epoch. */
    method GetModel(listing: Option<seq<string>>, loads: string -> bool) returns (model: LoadedModel, e: int)
      modifies this`epoch
      ensures (model, e) == RecoverOf(filename, listing, loads)
      ensures GetEpoch() == Success(e)
    {
      epoch := Some(0);
      var folder := ModelFolderPath();
      if folder.Failure? || listing.None? {
        return Fresh, 0;
      }
      var files := listing.value;
      var all: seq<string> := [];
      var k := 0;
      while k < |files|
        invariant 0 <= k <= |files|
        invariant all == Candidates(files[..k])
      {
        assert files[..k + 1][..k] == files[..k];
        if Contains(files[k], ".hdf5") {
          all := all + [files[k]];
        }
        k := k + 1;
      }
      assert files[..k] == files;
      e := 0;
      if |all| == 0 {
        model := Fresh;
      } else {
        SortedLastIsLexMax(all);
        all := SortNames(all);
        var newest := all[|all| - 1];
        var parsed := ParseEpoch(newest);
        if parsed.None? {
          model := Fresh;
        } else {
          e := parsed.value;
          epoch := Some(e);
          var modelPath := folder.value + newest;
          if loads(modelPath) {
            model := Loaded(modelPath);
          } else {
            model := Fresh;
          }
        }
      }
    }
  }
}
