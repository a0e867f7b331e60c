/**
 * The serving endpoint: the feature list and threshold are read once from
 * the registered model's metadata; each request is aligned to the feature
 * list and its fraud probability compared with the threshold.
 */
module Service {
  import opened Outcomes
  import opened Seqs
  import opened Constants

  /** The threshold used when the metadata records none. */
  const DefaultThreshold: real := 0.15

  /** The metadata stored with the registered model; either key may be absent. */
  datatype ModelMetadata = ModelMetadata(threshold: Option<real>, features: Option<seq<string>>)

  /** The module-level `THRESHOLD` and `FEATURES`. */
  datatype ServiceConfig = ServiceConfig(threshold: real, features: seq<string>)

  function NotTarget(c: string): bool {
    c != TargetColumn
  }

  /**
   * `THRESHOLD` is `metadata.get("threshold", 0.15)`; `FEATURES` indexes
   * `metadata["features"]`, which raises when the key is missing, and
   * drops every occurrence of the target column.
   */
  function LoadServiceConfig(meta: ModelMetadata): (r: Result<ServiceConfig>)
    ensures r.Err? <==> meta.features.None?
    ensures r.Err? ==> r.error == KeyError("features")
    ensures r.Ok? ==> r.value.threshold == (if meta.threshold.Some? then meta.threshold.value else DefaultThreshold)
    ensures r.Ok? ==> forall c :: c in r.value.features <==> c in meta.features.value && c != TargetColumn
  {
    match meta.features
    case None => Err(KeyError("features"))
    case Some(features) =>
      FilterMembers(features, NotTarget);
      var threshold := match meta.threshold case Some(t) => t case None => DefaultThreshold;
      Ok(ServiceConfig(threshold, Filter(features, NotTarget)))
  }

  /**
   * `FEATURES` keeps the metadata's order: it is the metadata list at a
   * strictly increasing sequence of positions, and every position that
   * does not hold the target is among them.
   */
  lemma FeaturesKeepOrder(meta: ModelMetadata)
    requires meta.features.Some?
    ensures var features, kept := meta.features.value, LoadServiceConfig(meta).value.features;
      exists ix: seq<nat> ::
        && |ix| == |kept|
        && (forall k :: 0 <= k < |ix| ==> ix[k] < |features| && features[ix[k]] == kept[k])
        && (forall k, m :: 0 <= k < m < |ix| ==> ix[k] < ix[m])
        && (forall j :: 0 <= j < |features| && features[j] != TargetColumn ==> j in ix)
  {
    var ix := Kept(meta.features.value, NotTarget);
    assert forall j :: 0 <= j < |meta.features.value| && meta.features.value[j] != TargetColumn ==> j in ix;
  }

  /** A request body: feature name to value. */
  type Input = map<string, real>

  /**
   * `reindex(columns=FEATURES, fill_value=0)` of the one-row frame: one
   * cell per feature, in feature order, taken from the request when the
   * key is present and 0 otherwise.
   */
  function Align(features: seq<string>, input: Input): (row: seq<real>)
    ensures |row| == |features|
    ensures forall i :: 0 <= i < |features| && features[i] in input ==> row[i] == input[features[i]]
    ensures forall i :: 0 <= i < |features| && features[i] !in input ==> row[i] == 0.0
  {
    seq(|features|, i requires 0 <= i < |features| => if features[i] in input then input[features[i]] else 0.0)
  }

  /** Keys outside the feature list never reach the model. */
  lemma AlignReadsOnlyFeatures(features: seq<string>, a: Input, b: Input)
    requires forall c :: c in features ==> (c in a <==> c in b)
    requires forall c :: c in features && c in a ==> a[c] == b[c]
    ensures Align(features, a) == Align(features, b)
  {
    var ra, rb := Align(features, a), Align(features, b);
    forall i | 0 <= i < |features|
      ensures ra[i] == rb[i]
    {
      assert features[i] in features;
    }
  }

  datatype Response = Response(fraudProbability: real, threshold: real, isFraud: int)

  /**
   * `predict`: drops the target key if present (a missing key is no
   * error), aligns the request and asks the model for the probability.
   */
  function Predict(config: ServiceConfig, input: Input, proba: seq<real> -> real): (r: Response)
    ensures r.isFraud == 0 || r.isFraud == 1
    ensures r.isFraud == 1 <==> r.fraudProbability >= config.threshold
    ensures r.threshold == config.threshold
    ensures r.fraudProbability == proba(Align(config.features, input - {TargetColumn}))
  {
    var prob := proba(Align(config.features, input - {TargetColumn}));
    Response(prob, config.threshold, if prob >= config.threshold then 1 else 0)
  }

  /**
   * With the service's own configuration, a target key in the request has
   * no effect on the response, whatever its value.
   */
  lemma TargetKeyIgnored(meta: ModelMetadata, input: Input, targetValue: real, proba: seq<real> -> real)
    requires LoadServiceConfig(meta).Ok?
    ensures var config := LoadServiceConfig(meta).value;
      Predict(config, input[TargetColumn := targetValue], proba) == Predict(config, input - {TargetColumn}, proba)
  {
    var config := LoadServiceConfig(meta).value;
    assert input[TargetColumn := targetValue] - {TargetColumn} == (input - {TargetColumn}) - {TargetColumn};
  }

  /** With the service's own configuration the aligned row never carries the target. */
  lemma TargetNeverAligned(meta: ModelMetadata, input: Input)
    requires LoadServiceConfig(meta).Ok?
    ensures var config := LoadServiceConfig(meta).value;
      Align(config.features, input - {TargetColumn}) == Align(config.features, input)
  {
    var config := LoadServiceConfig(meta).value;
    AlignReadsOnlyFeatures(config.features, input - {TargetColumn}, input);
  }
}
