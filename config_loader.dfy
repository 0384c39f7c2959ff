// The JSON configuration file and the write-back of trained feature weights into it.
module ConfigLoader {
  import opened Wrappers
  import opened PyDict

  /** A decoded JSON value; objects keep their keys in file order. */
  datatype Json =
    | JNull
    | JBool(b: bool)
    | JNum(n: real)
    | JStr(s: string)
    | JList(items: seq<Json>)
    | JObj(fields: Dict<string, Json>)

  /** What the decoder produces: no object repeats a key. */
  predicate Decoded(j: Json)
    decreases j
  {
    match j
    case JList(items) => forall i :: 0 <= i < |items| ==> Decoded(items[i])
    case JObj(fs) => DistinctKeys(fs) && forall i :: 0 <= i < |fs| ==> Decoded(fs[i].1)
    case _ => true
  }

  /** The config file on disk: absent, not valid JSON, or holding a decoded value. */
  datatype Disk = Missing | Garbled | Holds(config: Json)

  const WeightKey := "weight"
  const FeaturesKey := "features"

  /** `value[key]` on a decoded value: a missing key is a KeyError, a non-object a TypeError. */
  function Field(j: Json, key: string): (r: Result<Json>)
    ensures r.Ok? ==> j.JObj? && Get(j.fields, key) == Some(r.value)
    ensures r.Err? ==> r.error == (if j.JObj? then KeyError else TypeError)
  {
    match j
    case JObj(fs) => (match Get(fs, key) case Some(v) => Ok(v) case None => Err(KeyError))
    case _ => Err(TypeError)
  }

  /** `load_config()`: the decoded file; a missing or undecodable file raises again after logging. */
  function Load(disk: Disk): (r: Result<Json>)
    ensures disk.Missing? <==> r == Err(FileNotFoundError)
    ensures disk.Garbled? <==> r == Err(JsonDecodeError)
    ensures disk.Holds? ==> r == Ok(disk.config)
  {
    match disk
    case Missing => Err(FileNotFoundError)
    case Garbled => Err(JsonDecodeError)
    case Holds(c) => Ok(c)
  }

  /**
   * The features table from position `k` on with weights reweighted: feature k takes
   * `weights[k]`; a list too short is an IndexError, a feature that is not an object a TypeError.
   */
  function Reweighted(fs: Dict<string, Json>, weights: seq<real>, k: nat): (r: Result<Dict<string, Json>>)
    requires k <= |fs|
    decreases |fs| - k
  {
    if k == |fs| then Ok(fs)
    else if k >= |weights| then Err(IndexError)
    else if !fs[k].1.JObj? || !DistinctKeys(fs[k].1.fields) then Err(TypeError)
    else Reweighted(fs[k := (fs[k].0, JObj(Put(fs[k].1.fields, WeightKey, JNum(weights[k]))))], weights, k + 1)
  }

  /** The config `update_weight_config` writes back, or the exception that stops it first. */
  function UpdatedConfig(disk: Disk, weights: seq<real>): Result<Json>
  {
    match Load(disk)
    case Err(e) => Err(e)
    case Ok(config) =>
      match Field(config, FeaturesKey)
      case Err(e) => Err(e)
      case Ok(features) =>
        if !features.JObj? then Err(AttributeError)
        else if !DistinctKeys(config.fields) then Err(TypeError)
        else Installed(config.fields, Reweighted(features.fields, weights, 0))
  }

  /** The reweighted table put back under "features", or the error that stopped it. */
  function Installed(config: Dict<string, Json>, table: Result<Dict<string, Json>>): Result<Json>
    requires DistinctKeys(config)
  {
    match table
    case Err(e) => Err(e)
    case Ok(fs) => Ok(JObj(Put(config, FeaturesKey, JObj(fs))))
  }

  class ConfigFile {
    var disk: Disk

    /** The file's content came from the decoder or from `json.dump`. */
    ghost predicate Valid()
      reads this
    {
      disk.Holds? ==> Decoded(disk.config)
    }

    constructor (initial: Disk)
      requires initial.Holds? ==> Decoded(initial.config)
      ensures disk == initial && Valid()
    {
      disk := initial;
    }

    /** `load_config()`. */
    method LoadConfig() returns (r: Result<Json>)
      ensures r == Load(disk)
    {
      match disk
      case Missing => return Err(FileNotFoundError);
      case Garbled => return Err(JsonDecodeError);
      case Holds(c) => return Ok(c);
    }

    /**
     * `update_weight_config(changed_weights)`: feature i of the features table, in key order,
     * gets `changed_weights[i]`; the file is rewritten only when every assignment succeeded.
     */
    method UpdateWeightConfig(changedWeights: seq<real>) returns (r: Result<()>)
      requires Valid()
      modifies this
      ensures Valid()
      ensures r.Ok? <==> UpdatedConfig(old(disk), changedWeights).Ok?
      ensures r.Ok? ==> disk == Holds(UpdatedConfig(old(disk), changedWeights).value)
      ensures r.Err? ==> disk == old(disk) && r.error == UpdatedConfig(old(disk), changedWeights).error
    {
      var loaded := LoadConfig();
      if loaded.Err? {
        return Err(loaded.error);
      }
      var config := loaded.value;
      var table := Field(config, FeaturesKey);
      if table.Err? {
        return Err(table.error);
      }
      if !table.value.JObj? {
        return Err(AttributeError);
      }
      assert config.JObj? && DistinctKeys(config.fields);
      var features := table.value.fields;
      assert Decoded(table.value) by { DecodedField(config, FeaturesKey); }
      assert UpdatedConfig(disk, changedWeights) == Installed(config.fields, Reweighted(features, changedWeights, 0));
      var reweighted := AssignWeights(features, changedWeights);
      if reweighted.Err? {
        return Err(reweighted.error);
      }
      DecodedReweighted(features, changedWeights, 0);
      features := reweighted.value;
      var result := JObj(Put(config.fields, FeaturesKey, JObj(features)));
      DecodedPut(config.fields, FeaturesKey, JObj(features));
      disk := Holds(result);
      return Ok(());
    }
  }

  /** The loop of `update_weight_config` over the feature names, on the loaded features table. */
  method AssignWeights(features: Dict<string, Json>, changedWeights: seq<real>) returns (r: Result<Dict<string, Json>>)
    requires DistinctKeys(features)
    ensures r == Reweighted(features, changedWeights, 0)
  {
    var table := features;
    var names := Keys(table);
    for i := 0 to |names|
      invariant |table| == |names| && Keys(table) == names && DistinctKeys(table)
      invariant Reweighted(features, changedWeights, 0) == Reweighted(table, changedWeights, i)
    {
      if i >= |changedWeights| {
        return Err(IndexError);
      }
      var w := changedWeights[i];
      var entry := Get(table, names[i]);
      GetAt(table, i);
      if !entry.value.JObj? || !DistinctKeys(entry.value.fields) {
        return Err(TypeError);
      }
      var updated := JObj(Put(entry.value.fields, WeightKey, JNum(w)));
      PutAt(table, i, updated);
      table := Put(table, names[i], updated);
    }
    return Ok(table);
  }

  /** Assigning an existing key replaces its entry in place. */
  lemma PutAt<V>(d: Dict<string, V>, i: int, v: V)
    requires DistinctKeys(d) && 0 <= i < |d|
    ensures Put(d, d[i].0, v) == d[i := (d[i].0, v)]
    ensures Keys(d[i := (d[i].0, v)]) == Keys(d)
  {
    assert HasKey(d, d[i].0);
    var r := Put(d, d[i].0, v);
    forall j | 0 <= j < |d| ensures r[j] == d[i := (d[i].0, v)][j] {
      if j != i { assert d[j].0 != d[i].0; }
    }
  }

  lemma DecodedField(j: Json, key: string)
    requires Decoded(j) && Field(j, key).Ok?
    ensures Decoded(Field(j, key).value)
  {
    var i :| 0 <= i < |j.fields| && j.fields[i].0 == key && j.fields[i].1 == Field(j, key).value;
  }

  lemma DecodedPut(d: Dict<string, Json>, key: string, v: Json)
    requires DistinctKeys(d) && Decoded(v)
    requires forall i :: 0 <= i < |d| ==> Decoded(d[i].1)
    ensures Decoded(JObj(Put(d, key, v)))
  {
    var r := Put(d, key, v);
    forall i | 0 <= i < |r| ensures Decoded(r[i].1) {
      if i >= |d| || d[i].0 == key { assert r[i].0 == key; } else { assert r[i] == d[i]; }
    }
  }

  lemma {:induction false} DecodedReweighted(fs: Dict<string, Json>, weights: seq<real>, k: nat)
    requires k <= |fs| && Decoded(JObj(fs))
    ensures Reweighted(fs, weights, k).Ok? ==> Decoded(JObj(Reweighted(fs, weights, k).value))
    decreases |fs| - k
  {
    if k < |fs| && k < |weights| && fs[k].1.JObj? && DistinctKeys(fs[k].1.fields) {
      var entry := fs[k].1;
      assert Decoded(entry);
      DecodedPut(entry.fields, WeightKey, JNum(weights[k]));
      var next := fs[k := (fs[k].0, JObj(Put(entry.fields, WeightKey, JNum(weights[k]))))];
      assert Keys(next) == Keys(fs);
      DecodedReweighted(next, weights, k + 1);
    }
  }

  /** Feature `j` with its weight set to `w`. */
  function WithWeight(entry: (string, Json), w: real): (string, Json)
    requires entry.1.JObj? && DistinctKeys(entry.1.fields)
  {
    (entry.0, JObj(Put(entry.1.fields, WeightKey, JNum(w))))
  }

  /** Every feature from `k` on is an object and has a weight waiting for it. */
  predicate Assignable(fs: Dict<string, Json>, weights: seq<real>, k: nat)
  {
    forall j :: k <= j < |fs| ==> CanTake(fs, weights, j)
  }

  /** Feature `j` exists, is an object and has a weight waiting for it. */
  predicate CanTake(fs: Dict<string, Json>, weights: seq<real>, j: int)
  {
    0 <= j < |fs| && j < |weights| && fs[j].1.JObj? && DistinctKeys(fs[j].1.fields)
  }

  /** The assignment succeeds exactly when every remaining feature can take its weight. */
  lemma {:induction false} ReweightedOk(fs: Dict<string, Json>, weights: seq<real>, k: nat)
    requires k <= |fs|
    ensures Reweighted(fs, weights, k).Ok? <==> Assignable(fs, weights, k)
    decreases |fs| - k
  {
    if k < |fs| {
      if k < |weights| && fs[k].1.JObj? && DistinctKeys(fs[k].1.fields) {
        var next := fs[k := WithWeight(fs[k], weights[k])];
        assert Reweighted(fs, weights, k) == Reweighted(next, weights, k + 1);
        ReweightedOk(next, weights, k + 1);
        if Assignable(next, weights, k + 1) {
          forall j | k <= j < |fs| ensures CanTake(fs, weights, j) {
            if j > k { assert CanTake(next, weights, j); assert next[j] == fs[j]; }
          }
          assert Assignable(fs, weights, k);
        }
        if Assignable(fs, weights, k) {
          forall j | k + 1 <= j < |next| ensures CanTake(next, weights, j) {
            assert CanTake(fs, weights, j);
            assert next[j] == fs[j];
          }
          assert Assignable(next, weights, k + 1);
        }
      } else {
        assert !CanTake(fs, weights, k);
      }
    }
  }

  /** A successful assignment sets each remaining feature's weight and leaves the rest alone. */
  lemma {:induction false} ReweightedValues(fs: Dict<string, Json>, weights: seq<real>, k: nat)
    requires k <= |fs| && Reweighted(fs, weights, k).Ok?
    ensures k < |fs| ==> |fs| <= |weights|
    ensures var r := Reweighted(fs, weights, k).value;
      |r| == |fs| && (forall j :: 0 <= j < k ==> r[j] == fs[j]) &&
      forall j :: k <= j < |fs| ==> j < |weights| && fs[j].1.JObj? && DistinctKeys(fs[j].1.fields) &&
                                    r[j] == WithWeight(fs[j], weights[j])
    decreases |fs| - k
  {
    if k < |fs| {
      var next := fs[k := WithWeight(fs[k], weights[k])];
      assert Reweighted(fs, weights, k) == Reweighted(next, weights, k + 1);
      ReweightedValues(next, weights, k + 1);
      var r := Reweighted(fs, weights, k).value;
      forall j | k < j < |fs|
        ensures j < |weights| && fs[j].1.JObj? && DistinctKeys(fs[j].1.fields) && r[j] == WithWeight(fs[j], weights[j])
      {
        assert next[j] == fs[j];
      }
      assert r[k] == next[k];
    }
  }

  /** `fs2` is `fs` with feature i's weight set to `weights[i]` and nothing else changed. */
  ghost predicate WeightsSet(fs: Dict<string, Json>, fs2: Dict<string, Json>, weights: seq<real>)
  {
    |fs2| == |fs| && |fs| <= |weights| &&
    forall i :: 0 <= i < |fs| ==>
      fs[i].1.JObj? && fs2[i].1.JObj? && fs2[i].0 == fs[i].0 &&
      Get(fs2[i].1.fields, WeightKey) == Some(JNum(weights[i])) &&
      forall k :: k != WeightKey ==> Get(fs2[i].1.fields, k) == Get(fs[i].1.fields, k)
  }

  /**
   * Round trip: after a successful update, `load_config()` gives back the same keys in the same
   * order; every other config key is as it was; under "features", feature i (in key order)
   * has `changed_weights[i]` as its weight and every other field of it as it was.
   */
  lemma WeightsRoundTrip(config: Json, weights: seq<real>)
    requires Decoded(config)
    requires UpdatedConfig(Holds(config), weights).Ok?
    ensures var updated := UpdatedConfig(Holds(config), weights).value;
      Load(Holds(updated)) == Ok(updated) && updated.JObj? && config.JObj? &&
      Keys(updated.fields) == Keys(config.fields) &&
      (forall k :: k != FeaturesKey ==> Get(updated.fields, k) == Get(config.fields, k)) &&
      Field(updated, FeaturesKey).Ok? && Field(updated, FeaturesKey).value.JObj? &&
      WeightsSet(Field(config, FeaturesKey).value.fields, Field(updated, FeaturesKey).value.fields, weights)
  {
    var fs := Field(config, FeaturesKey).value.fields;
    ReweightedValues(fs, weights, 0);
    var fs2 := Reweighted(fs, weights, 0).value;
    var updated := UpdatedConfig(Holds(config), weights).value;
    assert updated == JObj(Put(config.fields, FeaturesKey, JObj(fs2)));
    PutFeatures(config.fields, JObj(fs2));
    forall i | 0 <= i < |fs|
      ensures Get(fs2[i].1.fields, WeightKey) == Some(JNum(weights[i]))
      ensures forall k :: k != WeightKey ==> Get(fs2[i].1.fields, k) == Get(fs[i].1.fields, k)
    {
      WithWeightFields(fs[i], weights[i]);
    }
  }

  /** Replacing "features" keeps the config's keys and every other value. */
  lemma PutFeatures(config: Dict<string, Json>, v: Json)
    requires DistinctKeys(config) && HasKey(config, FeaturesKey)
    ensures Keys(Put(config, FeaturesKey, v)) == Keys(config)
    ensures forall k :: Get(Put(config, FeaturesKey, v), k) == if k == FeaturesKey then Some(v) else Get(config, k)
  {
    forall k ensures Get(Put(config, FeaturesKey, v), k) == if k == FeaturesKey then Some(v) else Get(config, k) {
      GetPut(config, FeaturesKey, v, k);
    }
  }

  /** A feature given weight `w` reads back `w` under "weight" and every other field as before. */
  lemma WithWeightFields(entry: (string, Json), w: real)
    requires entry.1.JObj? && DistinctKeys(entry.1.fields)
    ensures Get(WithWeight(entry, w).1.fields, WeightKey) == Some(JNum(w))
    ensures forall k :: k != WeightKey ==> Get(WithWeight(entry, w).1.fields, k) == Get(entry.1.fields, k)
  {
    forall k ensures Get(WithWeight(entry, w).1.fields, k) == if k == WeightKey then Some(JNum(w)) else Get(entry.1.fields, k) {
      GetPut(entry.1.fields, WeightKey, JNum(w), k);
    }
  }

  /**
   * The update succeeds exactly when the file holds an object whose "features" is an object of
   * objects and `changed_weights` has at least one entry per feature.
   */
  lemma UpdateSucceeds(config: Json, weights: seq<real>)
    requires Decoded(config)
    ensures UpdatedConfig(Holds(config), weights).Ok? <==>
      Field(config, FeaturesKey).Ok? && Field(config, FeaturesKey).value.JObj? &&
      (forall j :: 0 <= j < |Field(config, FeaturesKey).value.fields| ==> Field(config, FeaturesKey).value.fields[j].1.JObj?) &&
      |weights| >= |Field(config, FeaturesKey).value.fields|
  {
    if Field(config, FeaturesKey).Ok? && Field(config, FeaturesKey).value.JObj? {
      DecodedField(config, FeaturesKey);
      var fs := Field(config, FeaturesKey).value.fields;
      ReweightedOk(fs, weights, 0);
      if Reweighted(fs, weights, 0).Ok? {
        ReweightedValues(fs, weights, 0);
      }
      forall j | 0 <= j < |fs| ensures fs[j].1.JObj? ==> DistinctKeys(fs[j].1.fields) {
        assert Decoded(fs[j].1);
      }
    }
  }

  /** Entries of `changed_weights` past the last feature make no difference. */
  lemma {:induction false} ExtraWeightsIgnored(fs: Dict<string, Json>, weights: seq<real>, k: nat)
    requires k <= |fs| <= |weights|
    ensures Reweighted(fs, weights, k) == Reweighted(fs, weights[..|fs|], k)
    decreases |fs| - k
  {
    if k < |fs| && fs[k].1.JObj? && DistinctKeys(fs[k].1.fields) {
      var next := fs[k := WithWeight(fs[k], weights[k])];
      assert weights[..|fs|][k] == weights[k];
      ExtraWeightsIgnored(next, weights, k + 1);
    }
  }

  /** With a weight for every feature, the only failure left is a feature that is not an object. */
  lemma {:induction false} ReweightedError(fs: Dict<string, Json>, weights: seq<real>, k: nat)
    requires k <= |fs| <= |weights|
    ensures Reweighted(fs, weights, k).Err? ==> Reweighted(fs, weights, k).error == TypeError
    decreases |fs| - k
  {
    if k < |fs| && fs[k].1.JObj? && DistinctKeys(fs[k].1.fields) {
      ReweightedError(fs[k := WithWeight(fs[k], weights[k])], weights, k + 1);
    }
  }

  /** A missing file raises FileNotFoundError and an undecodable one JSONDecodeError, before anything is written. */
  lemma LoadErrors(weights: seq<real>)
    ensures UpdatedConfig(Missing, weights) == Err(FileNotFoundError)
    ensures UpdatedConfig(Garbled, weights) == Err(JsonDecodeError)
  {
  }
}
