/**
 * An external tool invocation as the services observe it. The process itself
 * (spawning, waiting, the reader threads) is outside the model: a run is either the
 * lines it printed on each stream and its exit code, or the message of the exception
 * `ProcessBuilder.start` threw.
 */
module ToolRuns {

  datatype ToolRun =
    | Ran(stdout: seq<string>, stderr: seq<string>, exitCode: int)
    | SpawnFailed(message: string)
}
