/** Outcomes of child-process invocations (Python's `subprocess.run`). The
    child processes themselves are not modelled: each invocation's outcome is
    an input of the model. */
module Process {

  /** How one `subprocess.run` call ended:
      - `Exited(code)`: the program ran and exited with `code`;
      - `NotFound`: the executable could not be located (`FileNotFoundError`);
      - `Failed`: any other error while starting or running it. */
  datatype Run = Exited(code: int) | NotFound | Failed {

    /** The run that `subprocess.run(..., check=True)` lets through without
        raising: the program ran and exited with status 0. */
    predicate Succeeded() {
      Exited? && code == 0
    }
  }
}
