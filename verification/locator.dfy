/** Finding the project's `.env` file from the per-crate build output
    directory. A path is the sequence of its normal components below the
    root, outermost first; the empty sequence is the root. */
module Locator {
  import opened Wrappers

  type Path = seq<string>

  /** The build tool's conventional name for its shared output directory. */
  const TargetDir: string := "target"

  /** The fixed name of the shared configuration file. */
  const DotenvName: string := ".env"

  /** The upward walk: keep popping the last component until the path's file
      name is `target`. This stops at the deepest ancestor (or the path itself)
      named `target`. Where no such ancestor exists the walk reaches the root,
      where popping changes nothing and the original loop never ends; the
      model answers `None` there. */
  function TargetRoot(path: Path): (r: Option<Path>)
    ensures r.None? <==> TargetDir !in path
    ensures r.Some? ==> |r.value| >= 1 && r.value[|r.value| - 1] == TargetDir
    ensures r.Some? ==> r.value <= path && TargetDir !in path[|r.value|..]
    decreases |path|
  {
    if |path| == 0 then None
    else if path[|path| - 1] == TargetDir then Some(path)
    else
      assert path == path[..|path| - 1] + [path[|path| - 1]];
      TargetRoot(path[..|path| - 1])
  }

  /** The `.env` path: from the `target` directory, pop once to reach the
      project root and push `.env`. */
  function Locate(outDir: Path): (r: Option<Path>)
    ensures r.None? <==> TargetDir !in outDir
    ensures r.Some? ==> |r.value| >= 1 && r.value[|r.value| - 1] == DotenvName
    ensures r.Some? ==> r.value[..|r.value| - 1] + [TargetDir] <= outDir
  {
    match TargetRoot(outDir)
    case None => None
    case Some(root) =>
      var dotenv := root[..|root| - 1] + [DotenvName];
      assert dotenv[..|dotenv| - 1] + [TargetDir] == root;
      Some(dotenv)
  }

  /** The located file sits next to the LAST `target` component of the output
      directory, including when the output directory itself is `target`. */
  lemma {:induction false} LocateLastTarget(outDir: Path, k: nat)
    requires k < |outDir| && outDir[k] == TargetDir
    requires TargetDir !in outDir[k + 1..]
    ensures Locate(outDir) == Some(outDir[..k] + [DotenvName])
  {
    var root := TargetRoot(outDir);
    assert outDir[k] in outDir;
    assert root.value == outDir[..k + 1];
    assert outDir[..k + 1][..k] == outDir[..k];
  }
}
