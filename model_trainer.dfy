/**
 * The training stage: two candidate models are fitted and scored, their
 * results are kept in an insertion-ordered dictionary, and the one with
 * the highest score is saved and reported.
 */
module ModelTrainer {
  import opened Outcomes
  import opened Frames
  import opened Constants
  import opened ConfigEntity
  import opened ArtifactEntity

  const RandomForest: string := "RandomForest"
  const LogisticRegression: string := "LogisticRegression"

  /** The train and test splits: features without the target, and the target column. */
  datatype Split = Split(xTrain: Frame, xTest: Frame, yTrain: seq<real>, yTest: seq<real>)

  /** A fitted model with its F1 score on the test split. */
  datatype Fit<M> = Fit(model: M, score: real)

  /** A training routine: fits one candidate on a split, or raises. */
  type Trainer<M> = Split -> Result<Fit<M>>

  /** The `results` dictionary as its list of items, in insertion order. */
  type Results<M> = seq<(string, Fit<M>)>

  function Keys<M>(results: Results<M>): set<string> {
    set j | 0 <= j < |results| :: results[j].0
  }

  /** `results[key] = value`: an existing key keeps its position, a new key goes last. */
  function Put<M>(results: Results<M>, key: string, value: Fit<M>): (r: Results<M>)
    ensures Keys(r) == Keys(results) + {key}
    ensures key !in Keys(results) ==> r == results + [(key, value)]
    ensures key in Keys(results) ==> |r| == |results| && forall j :: 0 <= j < |r| ==>
      r[j].0 == results[j].0 && (if results[j].0 == key then r[j].1 == value else r[j] == results[j])
  {
    if key in Keys(results) then
      var r := seq(|results|, j requires 0 <= j < |results| => if results[j].0 == key then (key, value) else results[j]);
      assert forall j :: 0 <= j < |r| ==> r[j].0 == results[j].0;
      assert Keys(r) == Keys(results);
      r
    else
      var r := results + [(key, value)];
      assert r[|results|].0 == key;
      assert forall j :: 0 <= j < |results| ==> r[j] == results[j];
      r
  }

  /**
   * The position `max(results.items(), key=score)` picks: scanning left to
   * right, a later item replaces the current best only when its score is
   * strictly greater, so ties go to the earliest item.
   */
  function BestIndex<M>(results: Results<M>): (i: nat)
    requires |results| > 0
    ensures i < |results|
    ensures forall j :: 0 <= j < |results| ==> results[j].1.score <= results[i].1.score
    ensures forall j :: 0 <= j < i ==> results[j].1.score < results[i].1.score
  {
    if |results| == 1 then 0
    else
      var k := BestIndex(results[..|results| - 1]);
      if results[|results| - 1].1.score > results[k].1.score then |results| - 1 else k
  }

  /** `load_data`: both transformed frames, each split into features and target. */
  function LoadData(transformation: DataTransformationArtifact, read: Reader): (r: Result<Split>)
    ensures r.Ok? <==>
      && read(transformation.transformedTrainPath).Some?
      && read(transformation.transformedTestPath).Some?
      && TargetColumn in read(transformation.transformedTrainPath).value.columns
      && TargetColumn in read(transformation.transformedTestPath).value.columns
    ensures r.Ok? ==> TargetColumn !in r.value.xTrain.columns && TargetColumn !in r.value.xTest.columns
    ensures r.Ok? ==> |r.value.yTrain| == |r.value.xTrain.rows| && |r.value.yTest| == |r.value.xTest.rows|
    ensures r.Ok? ==>
      var train, test := read(transformation.transformedTrainPath).value, read(transformation.transformedTestPath).value;
      && r.value.xTrain == DropColumn(train, TargetColumn).value && r.value.yTrain == Column(train, TargetColumn).value
      && r.value.xTest == DropColumn(test, TargetColumn).value && r.value.yTest == Column(test, TargetColumn).value
  {
    match ReadCsv(read, transformation.transformedTrainPath)
    case Err(e) => Err(e)
    case Ok(train) =>
      match ReadCsv(read, transformation.transformedTestPath)
      case Err(e) => Err(e)
      case Ok(test) =>
        match DropColumn(train, TargetColumn)
        case Err(e) => Err(e)
        case Ok(xTrain) =>
          match DropColumn(test, TargetColumn)
          case Err(e) => Err(e)
          case Ok(xTest) =>
            Ok(Split(xTrain, xTest, Column(train, TargetColumn).value, Column(test, TargetColumn).value))
  }

  /** The metrics file: the chosen candidate's name and score. */
  datatype TrainerMetrics = TrainerMetrics(bestModel: string, bestF1Score: real)

  datatype TrainerOutcome<M> = TrainerOutcome(
    artifact: ModelTrainerArtifact,
    savedModel: M,              // pickled to the configured model path
    metrics: TrainerMetrics)    // written to the configured metrics path

  /**
   * `initiate_model_training`: trains the random forest, then the logistic
   * regression, records both in `results`, and keeps the best. Any failure
   * leaves the stage wrapped in `CustomException`.
   */
  method InitiateModelTraining<M>(transformation: DataTransformationArtifact, config: ModelTrainerConfig, read: Reader,
                                  trainTree: Trainer<M>, trainLinear: Trainer<M>) returns (r: Result<TrainerOutcome<M>>)
    ensures r.Err? ==> IsWrapped(r.error)
    ensures r.Ok? <==>
      var split := LoadData(transformation, read);
      split.Ok? && trainTree(split.value).Ok? && trainLinear(split.value).Ok?
    ensures r.Ok? ==>
      var split := LoadData(transformation, read).value;
      var tree, linear := trainTree(split).value, trainLinear(split).value;
      var name, score := r.value.artifact.bestModelName, r.value.artifact.bestModelScore;
      && (name == RandomForest || name == LogisticRegression)
      && score >= tree.score && score >= linear.score
      && (tree.score >= linear.score ==> name == RandomForest)
      && (name == RandomForest ==> r.value.savedModel == tree.model && score == tree.score)
      && (name == LogisticRegression ==> r.value.savedModel == linear.model && score == linear.score)
      && r.value.metrics == TrainerMetrics(name, score)
      && r.value.artifact.trainedModelPath == config.trainedModelPath
  {
    var split := LoadData(transformation, read);
    if split.Err? {
      return Err(CustomException(split.error));
    }
    var results: Results<M> := [];
    var tree := trainTree(split.value);
    if tree.Err? {
      return Err(CustomException(tree.error));
    }
    results := Put(results, RandomForest, tree.value);
    var linear := trainLinear(split.value);
    if linear.Err? {
      return Err(CustomException(linear.error));
    }
    results := Put(results, LogisticRegression, linear.value);
    assert results == [(RandomForest, tree.value), (LogisticRegression, linear.value)];
    var best := results[BestIndex(results)];
    var name, fit := best.0, best.1;
    var metrics := TrainerMetrics(name, fit.score);
    return Ok(TrainerOutcome(ModelTrainerArtifact(config.trainedModelPath, name, fit.score), fit.model, metrics));
  }
}
