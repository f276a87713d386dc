/** The startup validation of the service configuration: the three fields read
    with `config.get(...)` are checked in a fixed order with Python truthiness,
    and the first field that is missing or falsy stops the service with a
    diagnostic. Absent keys and JSON `null` both read as `None`. */
module StartupConfig {
  import opened Wrappers

  /** The three fields as read from the configuration file. */
  datatype Config = Config(modelFile: Option<string>, vectorizerFile: Option<string>, otherThreshold: Option<real>)

  /** The fields once they have passed the check. */
  datatype Settings = Settings(modelFile: string, vectorizerFile: string, otherThreshold: real)

  /** The diagnostic for a missing classifier file name; the source prints the same
      text for a missing vectorizer file name. */
  const MissingFileName: string := "Model filename not in configuration"

  /** The diagnostic for a missing threshold, spelled as in the source. */
  const MissingThreshold: string := "Threshold for nferring 'other' documents not in configuration"

  /** Python truthiness of a string field: present and non-empty. */
  predicate TruthyName(v: Option<string>) {
    v.Some? && v.value != ""
  }

  /** Python truthiness of a numeric field: present and not zero. */
  predicate TruthyNumber(v: Option<real>) {
    v.Some? && v.value != 0.0
  }

  /** The guards of the startup code, in source order. The service starts exactly
      when all three fields are truthy; otherwise the diagnostic is the one of the
      first falsy field. */
  function Validate(c: Config): (r: Result<Settings, string>)
    ensures r.Success? <==> TruthyName(c.modelFile) && TruthyName(c.vectorizerFile) && TruthyNumber(c.otherThreshold)
    ensures r.Success? ==> r.value.modelFile != "" && r.value.vectorizerFile != "" && r.value.otherThreshold != 0.0
    ensures r.Failure? ==> r.error == MissingFileName || r.error == MissingThreshold
    ensures r.Failure? && r.error == MissingThreshold ==> TruthyName(c.modelFile) && TruthyName(c.vectorizerFile)
  {
    if !TruthyName(c.modelFile) then Failure(MissingFileName)
    else if !TruthyName(c.vectorizerFile) then Failure(MissingFileName)
    else if !TruthyNumber(c.otherThreshold) then Failure(MissingThreshold)
    else Success(Settings(c.modelFile.value, c.vectorizerFile.value, c.otherThreshold.value))
  }

  /** A falsy classifier file name is reported whatever the later fields hold: the
      classifier field is checked first. */
  lemma ModelFileCheckedFirst(c: Config, vectorizerFile: Option<string>, otherThreshold: Option<real>)
    requires !TruthyName(c.modelFile)
    ensures Validate(c) == Validate(c.(vectorizerFile := vectorizerFile, otherThreshold := otherThreshold)) == Failure(MissingFileName)
  {
  }

  /** A falsy vectorizer file name is reported, after a good classifier name,
      whatever the threshold holds, with the same text as a missing classifier
      name: the diagnostic does not say which of the two file names is missing. */
  lemma VectorizerFileCheckedSecond(c: Config, otherThreshold: Option<real>)
    requires TruthyName(c.modelFile) && !TruthyName(c.vectorizerFile)
    ensures Validate(c) == Validate(c.(otherThreshold := otherThreshold)) == Failure(MissingFileName)
    ensures Validate(c) == Validate(c.(modelFile := None))
  {
  }

  /** The threshold is only required to be non-zero: a negative threshold passes,
      and a zero one is rejected like a missing one. */
  lemma ThresholdOnlyNonZero(c: Config)
    requires TruthyName(c.modelFile) && TruthyName(c.vectorizerFile)
    ensures c.otherThreshold.Some? && c.otherThreshold.value < 0.0 ==> Validate(c).Success?
    ensures Validate(c.(otherThreshold := Some(0.0))) == Validate(c.(otherThreshold := None)) == Failure(MissingThreshold)
  {
  }

  /** A check that passes hands on the configured values unchanged. */
  lemma ValidatePreservesValues(c: Config)
    requires Validate(c).Success?
    ensures Some(Validate(c).value.modelFile) == c.modelFile
    ensures Some(Validate(c).value.vectorizerFile) == c.vectorizerFile
    ensures Some(Validate(c).value.otherThreshold) == c.otherThreshold
  {
  }
}
