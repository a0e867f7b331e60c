/**
 * The evaluation gate: the saved model's fraud probabilities on the test
 * frame are thresholded, three metrics are measured, and the model is
 * accepted only when every metric meets its floor.
 */
module ModelEvaluation {
  import opened Outcomes
  import opened Frames
  import opened Constants
  import opened ConfigEntity
  import opened ArtifactEntity

  /** The fixed decision threshold on the fraud probability. */
  const DecisionThreshold: real := 0.15

  /** The configured floors MIN_F2_SCORE, MIN_RECALL and MIN_PRECISION. */
  datatype Floors = Floors(minF2: real, minRecall: real, minPrecision: real)

  datatype Metrics = Metrics(f2: real, recall: real, precision: real)

  /** The evaluation report file, written whether or not the model is accepted. */
  datatype EvaluationReport = EvaluationReport(f2Score: real, recall: real, precision: real, accepted: bool)

  datatype EvaluationOutcome = EvaluationOutcome(artifact: ModelEvaluationArtifact, report: EvaluationReport)

  /** `(probs >= threshold).astype(int)`: the comparison is inclusive. */
  function Predictions(probs: seq<real>): (preds: seq<int>)
    ensures |preds| == |probs|
    ensures forall i :: 0 <= i < |probs| ==> preds[i] == 0 || preds[i] == 1
    ensures forall i :: 0 <= i < |probs| ==> (preds[i] == 1 <==> probs[i] >= DecisionThreshold)
  {
    seq(|probs|, i requires 0 <= i < |probs| => if probs[i] >= DecisionThreshold then 1 else 0)
  }

  /** The guardrail: an AND of the three floors, not a weighted score. */
  function IsAccepted(m: Metrics, floors: Floors): (accepted: bool)
    ensures accepted ==> m.f2 >= floors.minF2 && m.recall >= floors.minRecall && m.precision >= floors.minPrecision
    ensures m.f2 >= floors.minF2 && m.recall >= floors.minRecall && m.precision >= floors.minPrecision ==> accepted
  {
    m.f2 >= floors.minF2 && m.recall >= floors.minRecall && m.precision >= floors.minPrecision
  }

  /** Any one metric below its floor rejects the model, however high the other two are. */
  lemma OneMissedFloorRejects(m: Metrics, floors: Floors)
    requires m.f2 < floors.minF2 || m.recall < floors.minRecall || m.precision < floors.minPrecision
    ensures !IsAccepted(m, floors)
    ensures m.f2 < floors.minF2 ==> !IsAccepted(Metrics(m.f2, 1.0, 1.0), floors)
    ensures m.recall < floors.minRecall ==> !IsAccepted(Metrics(1.0, m.recall, 1.0), floors)
    ensures m.precision < floors.minPrecision ==> !IsAccepted(Metrics(1.0, 1.0, m.precision), floors)
  {
  }

  /** Raising any metric never turns an accepted model into a rejected one. */
  lemma AcceptanceMonotone(m: Metrics, better: Metrics, floors: Floors)
    requires IsAccepted(m, floors)
    requires better.f2 >= m.f2 && better.recall >= m.recall && better.precision >= m.precision
    ensures IsAccepted(better, floors)
  {
  }

  /** The metrics of the saved model on the test frame, or the first failure met on the way. */
  function Measure<M>(trainer: ModelTrainerArtifact, transformation: DataTransformationArtifact,
                      loadModel: string -> Option<M>, read: Reader,
                      predictProba: (M, Frame) -> seq<real>, measure: (seq<real>, seq<int>) -> Metrics): (r: Result<Metrics>)
    ensures r.Ok? <==>
      && loadModel(trainer.trainedModelPath).Some?
      && read(transformation.transformedTestPath).Some?
      && TargetColumn in read(transformation.transformedTestPath).value.columns
    ensures r.Ok? ==>
      var test := read(transformation.transformedTestPath).value;
      var probs := predictProba(loadModel(trainer.trainedModelPath).value, DropColumn(test, TargetColumn).value);
      r.value == measure(Column(test, TargetColumn).value, Predictions(probs))
  {
    match loadModel(trainer.trainedModelPath)
    case None => Err(FileNotFound(trainer.trainedModelPath))
    case Some(model) =>
      match ReadCsv(read, transformation.transformedTestPath)
      case Err(e) => Err(e)
      case Ok(test) =>
        match DropColumn(test, TargetColumn)
        case Err(e) => Err(e)
        case Ok(xTest) =>
          var yTest := Column(test, TargetColumn).value;
          var probs := predictProba(model, xTest);
          Ok(measure(yTest, Predictions(probs)))
  }

  /**
   * `initiate_model_evaluation`: a rejected model is a normal result; only
   * a failure to load the model or the test frame raises, wrapped in
   * `CustomException`.
   */
  function InitiateModelEvaluation<M>(trainer: ModelTrainerArtifact, transformation: DataTransformationArtifact,
                                      config: ModelEvaluationConfig, floors: Floors,
                                      loadModel: string -> Option<M>, read: Reader,
                                      predictProba: (M, Frame) -> seq<real>,
                                      measure: (seq<real>, seq<int>) -> Metrics): (r: Result<EvaluationOutcome>)
    ensures r.Ok? <==> Measure(trainer, transformation, loadModel, read, predictProba, measure).Ok?
    ensures r.Err? ==> IsWrapped(r.error)
    ensures r.Ok? ==>
      var m := Measure(trainer, transformation, loadModel, read, predictProba, measure).value;
      && r.value.report == EvaluationReport(m.f2, m.recall, m.precision, r.value.artifact.isModelAccepted)
      && (r.value.artifact.isModelAccepted <==>
            m.f2 >= floors.minF2 && m.recall >= floors.minRecall && m.precision >= floors.minPrecision)
      && r.value.artifact.evaluatedMetric == m.f2
      && r.value.artifact.evaluationReportPath == config.evaluationReportPath
  {
    match Measure(trainer, transformation, loadModel, read, predictProba, measure)
    case Err(e) => Err(CustomException(e))
    case Ok(m) =>
      var accepted := IsAccepted(m, floors);
      Ok(EvaluationOutcome(
        ModelEvaluationArtifact(accepted, m.f2, config.evaluationReportPath),
        EvaluationReport(m.f2, m.recall, m.precision, accepted)))
  }

  /**
   * The threshold is fixed: nothing the trainer artifact records besides
   * the model path (its chosen name and score) affects the evaluation.
   */
  lemma ThresholdNotFromTrainer<M>(t1: ModelTrainerArtifact, t2: ModelTrainerArtifact,
                                   transformation: DataTransformationArtifact, config: ModelEvaluationConfig,
                                   floors: Floors, loadModel: string -> Option<M>, read: Reader,
                                   predictProba: (M, Frame) -> seq<real>, measure: (seq<real>, seq<int>) -> Metrics)
    requires t1.trainedModelPath == t2.trainedModelPath
    ensures InitiateModelEvaluation(t1, transformation, config, floors, loadModel, read, predictProba, measure)
         == InitiateModelEvaluation(t2, transformation, config, floors, loadModel, read, predictProba, measure)
  {
  }
}
