/**
 * Result and error types shared by the toolchain probes and the build
 * strategies. The error kinds are those of the repository's error enum that
 * the modelled code produces; the strings it formats into them are replaced
 * by a structured reason.
 */
module Errors {

  datatype Option<+T> = None | Some(value: T)

  datatype Result<+T> = Ok(value: T) | Err(error: Error)

  /** The build step a failure is attributed to. */
  datatype Step = Configure | Make | MakeInstall

  /** What is wrong with the build environment (the `BuildEnvError` kind). */
  datatype EnvProblem =
    | ConfigureMissing              // ./configure does not exist
    | MakeNotFound                  // neither PATH has a `make`
    | CompilerNotFound(name: string) // the PATH search for a compiler failed
    | SdkLocatorSpawnFailed         // `xcrun --show-sdk-path` could not be started
    | SdkLocatorFailed              // it exited non-zero
    | SdkPathEmptyOrRoot            // it printed nothing, or "/"
    | SdkPathMissing(path: string)  // it printed a path that does not exist
    | VersionQuerySpawnFailed       // `sw_vers -productVersion` could not be started
    | VersionQueryFailed            // it exited non-zero

  /** A step that ran to completion but reported failure (the `Generic` kind). */
  datatype Failure =
    | StepFailed(step: Step, status: int)
    | InstallFailedNoArtifacts(status: int)  // `make install` failed and nothing could be installed by hand

  /** A file-system operation that failed (the `Io` kind). */
  datatype IoProblem = BinDirNotCreatable  // `<install>/bin` exists and is not a directory

  datatype Error =
    | BuildEnvError(problem: EnvProblem)
    | CommandExecError(step: Step)   // the operating system could not start the step
    | Generic(failure: Failure)
    | Io(io: IoProblem)
}
