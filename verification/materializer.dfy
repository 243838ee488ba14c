/** The per-line loop: skip comments, parse entries, stop at the first
    malformed line, and write the value of every entry owned by the current
    package into a file named by its key. The package's output directory is a
    map from file name to file contents.

    The loop is split in two: `KindsOf` parses every line on its own, and
    `Process` walks the parsed lines in file order and acts on them. Parsing
    is pure, so parsing a line the loop never reaches changes nothing. */
module Materializer {
  import opened Wrappers
  import opened Parser
  import opened Errors

  type Artifacts = map<string, string>

  /** The output directory after the loop, and how the loop ended. */
  datatype Materialized = Materialized(artifacts: Artifacts, status: Outcome<ParseError>)

  /** The parse of every line, in file order. */
  function KindsOf(lines: seq<string>): (ks: seq<LineKind>)
    ensures |ks| == |lines|
  {
    seq(|lines|, i requires 0 <= i < |lines| => Classify(lines[i]))
  }

  /** Every line is a comment or an entry. */
  predicate WellFormed(lines: seq<string>)
  {
    forall i :: 0 <= i < |lines| ==> !Classify(lines[i]).Malformed?
  }

  /** No parsed line is malformed. */
  predicate Clean(ks: seq<LineKind>)
  {
    forall i :: 0 <= i < |ks| ==> !ks[i].Malformed?
  }

  /** The write an entry causes: `fs::write(out_dir/key, value)` when the entry
      belongs to the current package, nothing otherwise. */
  function Apply(dir: Artifacts, e: Entry, pkgName: string): Artifacts
  {
    if e.owner == pkgName then dir[e.key := e.value] else dir
  }

  /** A run seen from one line earlier in the file: a failure's line number
      moves down by one. */
  function Later(m: Materialized): Materialized
  {
    Renumber(m, 0)
  }

  /** The directory after acting on one line that is not malformed. */
  function Next(dir: Artifacts, k: LineKind, pkgName: string): Artifacts
  {
    if k.Parsed? then Apply(dir, k.entry, pkgName) else dir
  }

  /** Acting on the parsed lines in order. Files are only ever written, never
      removed. */
  function Process(ks: seq<LineKind>, pkgName: string, dir: Artifacts): (r: Materialized)
    ensures dir.Keys <= r.artifacts.Keys
    decreases |ks|
  {
    if |ks| == 0 then Materialized(dir, Pass)
    else if ks[0].Malformed? then Materialized(dir, Fail(ParseError(1)))
    else Later(Process(ks[1..], pkgName, Next(dir, ks[0], pkgName)))
  }

  /** The whole loop over the lines of the `.env` file. */
  function Materialize(lines: seq<string>, pkgName: string, dir: Artifacts): Materialized
  {
    Process(KindsOf(lines), pkgName, dir)
  }

  // ---------------------------------------------------------------------
  // Facts about the parsed lines

  lemma KindsOfConcat(a: seq<string>, b: seq<string>)
    ensures KindsOf(a + b) == KindsOf(a) + KindsOf(b)
  {
    var l := KindsOf(a + b);
    var r := KindsOf(a) + KindsOf(b);
    forall i | 0 <= i < |l|
      ensures l[i] == r[i]
    {
      if i < |a| {
        assert (a + b)[i] == a[i];
      } else {
        assert (a + b)[i] == b[i - |a|];
      }
    }
  }

  lemma KindsOfSplice(pre: seq<string>, line: string, post: seq<string>)
    ensures KindsOf(pre + [line] + post) == KindsOf(pre) + [Classify(line)] + KindsOf(post)
  {
    KindsOfConcat(pre + [line], post);
    KindsOfConcat(pre, [line]);
  }

  lemma WellFormedClean(lines: seq<string>)
    ensures WellFormed(lines) <==> Clean(KindsOf(lines))
  {
    var ks := KindsOf(lines);
    assert forall i :: 0 <= i < |lines| ==> ks[i] == Classify(lines[i]);
  }

  lemma CleanCons(ks: seq<LineKind>)
    requires |ks| > 0
    ensures Clean(ks) <==> !ks[0].Malformed? && Clean(ks[1..])
  {
    if !ks[0].Malformed? && Clean(ks[1..]) {
      forall i | 0 <= i < |ks|
        ensures !ks[i].Malformed?
      {
        if i > 0 {
          assert ks[i] == ks[1..][i - 1];
        }
      }
    }
  }

  // ---------------------------------------------------------------------
  // Facts about acting on parsed lines

  /** Success exactly when no parsed line is malformed; a failure names the
      first malformed one. */
  lemma {:induction false} ProcessStatus(ks: seq<LineKind>, pkgName: string, dir: Artifacts)
    ensures Process(ks, pkgName, dir).status.Pass? <==> Clean(ks)
    ensures Process(ks, pkgName, dir).status.Fail? ==>
              var n := Process(ks, pkgName, dir).status.error.line;
              1 <= n <= |ks| && ks[n - 1].Malformed? && Clean(ks[..n - 1])
    decreases |ks|
  {
    if |ks| > 0 {
      CleanCons(ks);
      if !ks[0].Malformed? {
        var m := Process(ks[1..], pkgName, Next(dir, ks[0], pkgName));
        ProcessStatus(ks[1..], pkgName, Next(dir, ks[0], pkgName));
        if m.status.Fail? {
          var n := m.status.error.line;
          assert ks[..n] == [ks[0]] + ks[1..][..n - 1];
          assert ks[n] == ks[1..][n - 1];
          CleanCons(ks[..n]);
        }
      }
    }
  }

  /** Acting on parsed lines overlays the files written on whatever the
      directory held; where the walk stops does not depend on the directory. */
  lemma {:induction false} ProcessOverlay(ks: seq<LineKind>, pkgName: string, dir: Artifacts)
    ensures Process(ks, pkgName, dir).artifacts == dir + Process(ks, pkgName, map[]).artifacts
    ensures Process(ks, pkgName, dir).status == Process(ks, pkgName, map[]).status
    decreases |ks|
  {
    if |ks| > 0 && !ks[0].Malformed? {
      var next := Next(dir, ks[0], pkgName);
      var next0 := Next(map[], ks[0], pkgName);
      ProcessOverlay(ks[1..], pkgName, next);
      ProcessOverlay(ks[1..], pkgName, next0);
      var w := Process(ks[1..], pkgName, map[]).artifacts;
      assert next + w == dir + (next0 + w);
    }
  }

  /** Reference definition, independent of the walk: the value that the LAST
      parsed entry owned by `pkgName` with key `key` assigns, if any. */
  function LastWrite(ks: seq<LineKind>, pkgName: string, key: string): Option<string>
    decreases |ks|
  {
    if |ks| == 0 then None
    else if LastWrite(ks[1..], pkgName, key).Some? then LastWrite(ks[1..], pkgName, key)
    else if ks[0].Parsed? && ks[0].entry.owner == pkgName && ks[0].entry.key == key then Some(ks[0].entry.value)
    else None
  }

  /** The contents of file `key` in a directory, if it exists. */
  function Lookup(dir: Artifacts, key: string): Option<string>
  {
    if key in dir then Some(dir[key]) else None
  }

  lemma {:induction false} ProcessFinal(ks: seq<LineKind>, pkgName: string, dir: Artifacts, key: string)
    requires Clean(ks)
    ensures Lookup(Process(ks, pkgName, dir).artifacts, key)
            == if LastWrite(ks, pkgName, key).Some? then LastWrite(ks, pkgName, key) else Lookup(dir, key)
    decreases |ks|
  {
    if |ks| > 0 {
      CleanCons(ks);
      ProcessFinal(ks[1..], pkgName, Next(dir, ks[0], pkgName), key);
    }
  }

  lemma {:induction false} ProcessStops(pre: seq<LineKind>, post: seq<LineKind>, pkgName: string, dir: Artifacts)
    requires Clean(pre)
    ensures Process(pre + [Malformed] + post, pkgName, dir)
            == Materialized(Process(pre, pkgName, dir).artifacts, Fail(ParseError(|pre| + 1)))
    decreases |pre|
  {
    var ks := pre + [Malformed] + post;
    if |pre| > 0 {
      CleanCons(pre);
      assert ks[0] == pre[0];
      assert ks[1..] == pre[1..] + [Malformed] + post;
      ProcessStops(pre[1..], post, pkgName, Next(dir, pre[0], pkgName));
    }
  }

  /** A parsed line that can neither fail nor write. */
  predicate Inert(k: LineKind, pkgName: string)
  {
    k.Comment? || (k.Parsed? && k.entry.owner != pkgName)
  }

  /** The outcome of a run once a line has been inserted at index `at`:
      failures after the insertion point move down by one. `Later` is the
      case of a line inserted in front. */
  function Renumber(m: Materialized, at: nat): Materialized
  {
    match m.status
    case Fail(ParseError(n)) => if n > at then Materialized(m.artifacts, Fail(ParseError(n + 1))) else m
    case Pass => m
  }

  lemma {:induction false} ProcessInert(pre: seq<LineKind>, k: LineKind, post: seq<LineKind>,
                                        pkgName: string, dir: Artifacts)
    requires Inert(k, pkgName)
    ensures Process(pre + [k] + post, pkgName, dir) == Renumber(Process(pre + post, pkgName, dir), |pre|)
    decreases |pre|
  {
    var ks := pre + [k] + post;
    if |pre| == 0 {
      assert ks[0] == k;
      assert ks[1..] == post;
      assert pre + post == post;
    } else {
      assert ks[0] == pre[0];
      assert ks[1..] == pre[1..] + [k] + post;
      assert (pre + post)[0] == pre[0];
      assert (pre + post)[1..] == pre[1..] + post;
      if !pre[0].Malformed? {
        ProcessInert(pre[1..], k, post, pkgName, Next(dir, pre[0], pkgName));
      }
    }
  }

  // ---------------------------------------------------------------------
  // The loop over lines

  /** The run succeeds exactly when every line is a comment or an entry; when
      it fails, the reported 1-based line is malformed and every line before it
      is not, so it is the first malformed line. */
  lemma StatusMeaning(lines: seq<string>, pkgName: string, dir: Artifacts)
    ensures Materialize(lines, pkgName, dir).status.Pass? <==> WellFormed(lines)
    ensures Materialize(lines, pkgName, dir).status.Fail? ==>
              var n := Materialize(lines, pkgName, dir).status.error.line;
              1 <= n <= |lines| && Classify(lines[n - 1]).Malformed? && WellFormed(lines[..n - 1])
  {
    var ks := KindsOf(lines);
    ProcessStatus(ks, pkgName, dir);
    WellFormedClean(lines);
    var m := Process(ks, pkgName, dir);
    if m.status.Fail? {
      var n := m.status.error.line;
      assert ks[..n - 1] == KindsOf(lines[..n - 1]);
      WellFormedClean(lines[..n - 1]);
    }
  }

  /** After a successful run each file holds the value of the last entry for
      this package that writes it; a file no such entry writes is left as it
      was, so stale artifacts survive and entries for other packages change
      nothing. */
  lemma FinalArtifact(lines: seq<string>, pkgName: string, dir: Artifacts, key: string)
    requires WellFormed(lines)
    ensures var last := LastWrite(KindsOf(lines), pkgName, key);
            Lookup(Materialize(lines, pkgName, dir).artifacts, key)
            == if last.Some? then last else Lookup(dir, key)
  {
    WellFormedClean(lines);
    ProcessFinal(KindsOf(lines), pkgName, dir, key);
  }

  /** Running the loop a second time over the directory the first run left
      behind changes nothing: every write is an overwrite with the same value. */
  lemma Idempotent(lines: seq<string>, pkgName: string, dir: Artifacts)
    ensures Materialize(lines, pkgName, Materialize(lines, pkgName, dir).artifacts)
            == Materialize(lines, pkgName, dir)
  {
    var ks := KindsOf(lines);
    var once := Process(ks, pkgName, dir);
    ProcessOverlay(ks, pkgName, dir);
    ProcessOverlay(ks, pkgName, once.artifacts);
    var w := Process(ks, pkgName, map[]).artifacts;
    assert (dir + w) + w == dir + w;
  }

  /** The first malformed line stops the loop with its own 1-based number;
      the files written by the lines before it stay, and no later line is
      looked at. */
  lemma FirstMalformedReported(pre: seq<string>, line: string, post: seq<string>,
                               pkgName: string, dir: Artifacts)
    requires WellFormed(pre) && Classify(line).Malformed?
    ensures Materialize(pre + [line] + post, pkgName, dir)
            == Materialized(Materialize(pre, pkgName, dir).artifacts, Fail(ParseError(|pre| + 1)))
  {
    KindsOfSplice(pre, line, post);
    WellFormedClean(pre);
    ProcessStops(KindsOf(pre), KindsOf(post), pkgName, dir);
  }

  /** An empty line is neither a comment nor an entry: it fails at its own
      line number. */
  lemma EmptyLineFails(pre: seq<string>, post: seq<string>, pkgName: string, dir: Artifacts)
    requires WellFormed(pre)
    ensures Materialize(pre + [""] + post, pkgName, dir).status == Fail(ParseError(|pre| + 1))
  {
    assert Classify("").Malformed?;
    FirstMalformedReported(pre, "", post, pkgName, dir);
  }

  /** A comment, whatever it holds, can be removed from anywhere in the file:
      the files written stay the same and only a later failure is renumbered. */
  lemma CommentIgnored(pre: seq<string>, line: string, post: seq<string>,
                       pkgName: string, dir: Artifacts)
    requires IsComment(line)
    ensures Materialize(pre + [line] + post, pkgName, dir)
            == Renumber(Materialize(pre + post, pkgName, dir), |pre|)
  {
    KindsOfSplice(pre, line, post);
    KindsOfConcat(pre, post);
    ProcessInert(KindsOf(pre), Classify(line), KindsOf(post), pkgName, dir);
  }

  /** An entry owned by another package can be removed from anywhere in the
      file with the same effect as a comment. */
  lemma ForeignEntryIgnored(pre: seq<string>, e: Entry, post: seq<string>,
                            pkgName: string, dir: Artifacts)
    requires ValidEntry(e) && e.owner != pkgName
    ensures Materialize(pre + [Format(e)] + post, pkgName, dir)
            == Renumber(Materialize(pre + post, pkgName, dir), |pre|)
  {
    ParseFormat(e);
    KindsOfSplice(pre, Format(e), post);
    KindsOfConcat(pre, post);
    ProcessInert(KindsOf(pre), Classify(Format(e)), KindsOf(post), pkgName, dir);
  }

  /** A non-comment line without any `:` fails at its own line number. */
  lemma MissingColonFails(pre: seq<string>, line: string, post: seq<string>,
                          pkgName: string, dir: Artifacts)
    requires WellFormed(pre) && !IsComment(line) && ':' !in line
    ensures Materialize(pre + [line] + post, pkgName, dir).status == Fail(ParseError(|pre| + 1))
  {
    FirstMalformedReported(pre, line, post, pkgName, dir);
  }

  /** A non-comment line with no `=` after its first `:` fails at its own line
      number, e.g. `foo:BUF_SZ128`. */
  lemma MissingEqualsFailsAt(pre: seq<string>, owner: string, rest: string, post: seq<string>,
                             pkgName: string, dir: Artifacts)
    requires WellFormed(pre) && !IsComment(owner + ":" + rest)
    requires ':' !in owner && '=' !in rest
    ensures Materialize(pre + [owner + ":" + rest] + post, pkgName, dir).status == Fail(ParseError(|pre| + 1))
  {
    MissingEqualsFails(owner, rest);
    FirstMalformedReported(pre, owner + ":" + rest, post, pkgName, dir);
  }
}
