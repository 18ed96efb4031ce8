/** The record a packaging run returns, and its two factories. */
module PackagingResults {
  import opened Wrappers
  import opened PackageConfigurations

  /**
   * `outputPath` is null (None) unless the run succeeded. The creation timestamp,
   * read from the clock, is not part of the model.
   */
  datatype PackagingResult = PackagingResult(
    success: bool,
    message: string,
    logs: seq<string>,
    outputPath: Option<string>,
    executionTimeMs: int,
    configuration: PackageConfiguration)

  /** `PackagingResult.success(...)`: a successful result that records where the bundle went. */
  function SuccessResult(message: string, outputPath: string, logs: seq<string>,
                         executionTimeMs: int, config: PackageConfiguration): (r: PackagingResult)
    ensures r.success && r.outputPath == Some(outputPath)
    ensures r.message == message && r.logs == logs
    ensures r.executionTimeMs == executionTimeMs && r.configuration == config
  {
    PackagingResult(true, message, logs, Some(outputPath), executionTimeMs, config)
  }

  /** `PackagingResult.failure(...)`: a failed result; the output path stays null. */
  function FailureResult(message: string, logs: seq<string>,
                         executionTimeMs: int, config: PackageConfiguration): (r: PackagingResult)
    ensures !r.success && r.outputPath == None
    ensures r.message == message && r.logs == logs
    ensures r.executionTimeMs == executionTimeMs && r.configuration == config
  {
    PackagingResult(false, message, logs, None, executionTimeMs, config)
  }

  /** The two factories agree on everything but the success flag and the output path. */
  lemma FactoriesDifferOnlyInOutcome(message: string, outputPath: string, logs: seq<string>,
                                     executionTimeMs: int, config: PackageConfiguration)
    ensures SuccessResult(message, outputPath, logs, executionTimeMs, config)
         == FailureResult(message, logs, executionTimeMs, config).(success := true, outputPath := Some(outputPath))
  {
  }
}
