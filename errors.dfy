/** The fatal conditions of the pipeline. Every one of them ends the run in the
    source (`sys.exit()` after logging, or an uncaught exception); here they
    are values that the operations return instead. */
module Errors {

  /** One external tool invocation: the tool, the files it reads that the
      pipeline itself names, and the file it writes. Whether it succeeds is
      decided outside the model: operations take an oracle
      `ok: Command -> bool`. */
  datatype Command = Run(tool: string, inputs: seq<string>, output: string)

  datatype Error =
    | ToolFailed(command: Command)     // a nonzero exit status
    | BadNumber                        // `float()` rejected a coordinate or radius
    | MissingRadius                    // no radius argument and no usable radius field
    | RadiusIndex                      // `fields[5]` on a five-field line (IndexError)
    | MissingSeedFile(path: string)    // `add_seed` on a file that is not there
    | NoSeeds                          // `extract_ts` with an empty seed registry
    | MissingTimecourse(session: string, seed: string)
    | MissingZMap(session: string, seed: string)
    | MissingReport(seed: string)      // `report[seed]` absent (KeyError)
    | EmptyPath                        // `os.path.relpath('')` (ValueError)
    | EmptyMatrix                      // `nanmax` of an empty matrix (ValueError)
    | MissingDir(path: string)
    | MissingFile(path: string)

  datatype Outcome = Done | Fatal(error: Error)

  /** Running a command: failure is fatal. */
  function RunCommand(ok: Command -> bool, c: Command): (o: Outcome)
    ensures o.Done? <==> ok(c)
    ensures o.Fatal? ==> o.error == ToolFailed(c)
  {
    if ok(c) then Done else Fatal(ToolFailed(c))
  }
}
