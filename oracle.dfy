/**
 * The outside world the build code observes, as a record of answers:
 * environment variables, which paths exist or are regular files, the text of
 * readable files, the outcome of each command line, what a command leaves in
 * the install directory, and what the two PATH searches find.
 */
module Oracle {
  import opened Errors

  /** A command line: the program and its arguments, in order. */
  datatype Cmd = Cmd(program: string, args: seq<string>)

  /** What running a command gave: the process could not be started, or it
      exited with a status code (0 is success) and printed `stdout`. */
  datatype CmdResult = SpawnFailed | Exited(code: int, stdout: string)
  {
    predicate Succeeded() {
      Exited? && code == 0
    }
  }

  /** An entry of the install directory: a file with its permission bits, or
      a directory with its entries by name. */
  datatype Node = File(mode: nat) | Dir(entries: map<string, Node>)

  datatype World = World(
    env: map<string, string>,                 // set environment variables
    present: set<string>,                     // existing paths that are not regular files
    files: set<string>,                       // regular files
    modes: map<string, nat>,                  // permission bits of regular files
    readable: map<string, string>,            // text of the files that can be read
    results: map<Cmd, CmdResult>,             // outcome of each command line that can be started
    writes: map<Cmd, map<string, Node>>,      // install directory left behind by a command
    envPath: map<string, string>,             // hits of the search in the build environment's PATH
    systemPath: map<string, string>           // hits of the search in the process's PATH
  )
  {
    /** `Path::is_file`. */
    predicate IsFile(path: string) {
      path in files
    }

    /** `Path::exists`: a regular file, or any other existing entry. */
    predicate Exists(path: string) {
      path in files || path in present
    }

    /** `fs::read_to_string`: the text, or `None` when the file cannot be
        opened or read. */
    function Read(path: string): Option<string> {
      if path in readable then Some(readable[path]) else None
    }

    /** Running a command line; one the world knows nothing about cannot be
        started. */
    function Run(c: Cmd): CmdResult {
      if c in results then results[c] else SpawnFailed
    }

    /** The install directory after `c` has run, starting from `install`. */
    function InstallAfter(c: Cmd, install: map<string, Node>): map<string, Node> {
      if c in writes && !Run(c).SpawnFailed? then writes[c] else install
    }

    /** Permission bits of a regular file (0 when unknown). */
    function Mode(path: string): nat {
      if path in modes then modes[path] else 0
    }

    /** A PATH search only ever finds regular files. */
    ghost predicate SearchesFindFiles() {
      && (forall n :: n in systemPath ==> systemPath[n] in files)
      && (forall n :: n in envPath ==> envPath[n] in files)
    }
  }
}
