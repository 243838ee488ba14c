/** The whole build-script entry point: locate the `.env` file, read it, run
    the per-line loop, and on success emit the rerun-if-changed directive for
    the located file. The package name and output directory are parameters
    (the original takes them from the environment); reading the file is the
    parameter `read`, whose failures are opaque values of type `E`. */
module Ctenv {
  import opened Wrappers
  import opened Parser
  import opened Locator
  import opened Errors
  import opened Materializer

  /** Why a run fails. */
  datatype RunError<E> =
    | LookupFailure            // no ancestor of the output directory is named `target`
    | ReadFailure(cause: E)    // the `.env` file could not be read
    | Parse(error: ParseError) // a line is malformed

  /** What a run leaves behind: the output directory, how it ended, and the
      path named by the rerun-if-changed directive if it was emitted. */
  datatype Report<E> = Report(artifacts: Artifacts, status: Outcome<RunError<E>>, rerunIfChanged: Option<Path>)

  function Run<E>(pkgName: string, outDir: Path, read: Path -> Result<seq<string>, E>, dir: Artifacts): (r: Report<E>)
    ensures r.rerunIfChanged.Some? <==> r.status.Pass?
    ensures r.rerunIfChanged.Some? ==> Locate(outDir) == r.rerunIfChanged
    ensures r.status == Fail(LookupFailure) <==> TargetDir !in outDir
    ensures r.status.Pass? <==>
              && TargetDir in outDir
              && read(Locate(outDir).value).Success?
              && WellFormed(read(Locate(outDir).value).value)
    ensures r.status.Fail? && !r.status.error.Parse? ==> r.artifacts == dir
    ensures r.status.Fail? && r.status.error.ReadFailure? ==>
              read(Locate(outDir).value) == Failure(r.status.error.cause)
    ensures r.status.Fail? && r.status.error.Parse? ==>
              TargetDir in outDir && read(Locate(outDir).value).Success? &&
              var m := Materialize(read(Locate(outDir).value).value, pkgName, dir);
              r.artifacts == m.artifacts && m.status == Fail(r.status.error.error)
  {
    match Locate(outDir)
    case None => Report(dir, Fail(LookupFailure), None)
    case Some(dotenv) =>
      match read(dotenv)
      case Failure(e) => Report(dir, Fail(ReadFailure(e)), None)
      case Success(lines) =>
        StatusMeaning(lines, pkgName, dir);
        var m := Materialize(lines, pkgName, dir);
        match m.status
        case Pass => Report(m.artifacts, Pass, Some(dotenv))
        case Fail(pe) => Report(m.artifacts, Fail(Parse(pe)), None)
  }

  /** After a successful run, each file holds the value of the last entry for
      this package with that key, and every other file is as it was. */
  lemma RunArtifact<E>(pkgName: string, outDir: Path, read: Path -> Result<seq<string>, E>,
                       dir: Artifacts, key: string)
    requires Run(pkgName, outDir, read, dir).status.Pass?
    ensures var lines := read(Locate(outDir).value).value;
            var last := LastWrite(KindsOf(lines), pkgName, key);
            Lookup(Run(pkgName, outDir, read, dir).artifacts, key)
            == if last.Some? then last else Lookup(dir, key)
  {
    var lines := read(Locate(outDir).value).value;
    FinalArtifact(lines, pkgName, dir, key);
  }

  /** When the `.env` file's first malformed line follows the well-formed
      lines `pre`, the run fails with that line's 1-based number, keeps
      exactly the files the lines before it wrote, and emits no directive. */
  lemma RunStopsAtFirstMalformed<E>(pkgName: string, outDir: Path, read: Path -> Result<seq<string>, E>,
                                    dir: Artifacts, pre: seq<string>, line: string, post: seq<string>)
    requires TargetDir in outDir
    requires read(Locate(outDir).value) == Success(pre + [line] + post)
    requires WellFormed(pre) && Classify(line).Malformed?
    ensures Run(pkgName, outDir, read, dir)
            == Report(Materialize(pre, pkgName, dir).artifacts, Fail(Parse(ParseError(|pre| + 1))), None)
  {
    FirstMalformedReported(pre, line, post, pkgName, dir);
  }
}
