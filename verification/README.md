# ctenv in Dafny

A model of `ctenv::run()`, the build-script half of ctenv. ctenv gives a
dependency crate compile-time configuration values that the top-level crate
supplies in one shared `.env` file. `run()` does four things:

1. It finds the `.env` file. Starting from the crate's build output directory
   (`OUT_DIR`), it walks upward to the deepest directory named `target`, then
   steps to that directory's parent and appends `.env`.
2. It reads the file line by line. A line whose first character is `#` is a
   comment. Every other line must have the form `owner:key=value`. The owner
   ends at the first `:`. The key ends at the first `=` after that. The value
   is the rest of the line.
3. For each entry whose owner is the current package's name, it writes the
   value to a file named after the key in `OUT_DIR`. The first line that is
   neither a comment nor an entry stops the run with `ParseError` and the
   line's 1-based number. Files written before that point stay.
4. If every line is processed, it prints `cargo:rerun-if-changed=<.env path>`.

Modules, one per component:

- `Wrappers`: `Option`, `Outcome` and `Result`.
- `Text`: `IndexOf` and `SplitOnce`. `SplitOnce` is the two-part case of
  `str::splitn(2, c)`. The module also renders and reads decimal numbers.
- `Locator`: the upward walk (`TargetRoot`) and the `.env` path (`Locate`).
  A path is the sequence of its components below the root.
- `Parser`: comment lines, the line grammar (`ParseLine`, `Format`), and
  `Classify`, which tells what the loop does with one line.
- `Errors`: `ParseError` and its display text.
- `Materializer`: the per-line loop, `Materialize = Process(KindsOf(lines))`. The output directory is a
  `map<string, string>` from file name to contents. `KindsOf` parses every
  line, and `Process` acts on the parsed lines in order. Parsing is pure, so
  parsing lines the loop never reaches does not change the result.
- `Ctenv`: `Run`, which chains the steps above together.

The model follows the code except for the points listed under
"## Left out" and one departure in the locator. Say no ancestor of
`OUT_DIR` is named `target`. The code then loops forever:
`PathBuf::pop` stops changing the path at the root, and the `while`
condition never becomes false. A clean design would fail with a distinct
lookup error instead. The model returns `None` from `TargetRoot` and
`Locate` in exactly that case, and `Run` reports it as `LookupFailure`.
That result stands for the code's divergence. The code never returns
such an error.

## Model

| member | source | states |
|---|---|---|
| Text.SplitOnce | src/lib.rs:88-95 | `splitn(2, c)` yields a second part exactly when `c` occurs; the first part holds no `c`, and the parts joined around `c` give back the input |
| Text.SplitOnceJoin | src/lib.rs:88-95 | the split point is unique: splitting `a + c + b` at `c` gives back `(a, b)` whenever `a` holds no `c` |
| Parser.ParseLine | src/lib.rs:86-98 | a parsed entry has an owner without `:` and a key without `=`, and `owner:key=value` rebuilds the line exactly; a line without `:` never parses |
| Parser.ParseFormat | src/lib.rs:86-98 | parsing the text of any entry with an owner free of `:` and a key free of `=` returns that entry, byte for byte |
| Parser.ParseLineFailsIff | src/lib.rs:86-99 | the parse helper fails exactly on the lines that are not `owner:key=value` for such an entry |
| Parser.MissingEqualsFails | src/lib.rs:93-95 | a line whose text after the first `:` holds no `=` fails to parse |
| Parser.ValueKeepsEquals | src/lib.rs:93-97 | only the first `=` after the first `:` splits: `foo:KEY=a=b=c` has key `KEY` and value `a=b=c` |
| Locator.TargetRoot | src/lib.rs:68-71 | the walk stops at the deepest prefix of the path whose last component is `target`; no later component is `target`; there is no result exactly when `target` occurs nowhere |
| Locator.Locate | src/lib.rs:68-77 | the located path ends in `.env`, and with `.env` replaced by `target` it is a prefix of the output directory; there is no result exactly when no component is `target` |
| Locator.LocateLastTarget | src/lib.rs:68-75 | when `target` last occurs at index k, the result is the first k components followed by `.env`, including when the output directory itself ends in `target` |
| Materializer.Process | src/lib.rs:102-105 | acting on lines only adds or overwrites files and never removes one, so stale files survive |
| Materializer.StatusMeaning | src/lib.rs:79-99 | the loop succeeds exactly when every line is a comment or an entry; a reported line number n is 1-based, line n is malformed, and lines 1 to n-1 are not |
| Materializer.FirstMalformedReported | src/lib.rs:79-99 | the first malformed line, at index i, fails the run with line i+1; the files are exactly those left by the lines before it; nothing after it matters |
| Materializer.EmptyLineFails | src/lib.rs:80-91 | an empty line is not a comment and has no `:`, so it fails at its own line number |
| Materializer.MissingColonFails | src/lib.rs:86-99 | a non-comment line without `:` fails at its own line number |
| Materializer.MissingEqualsFailsAt | src/lib.rs:86-99 | a non-comment line with no `=` after its first `:` fails at its own line number |
| Materializer.CommentIgnored | src/lib.rs:80-83 | removing a `#` line from anywhere leaves the written files unchanged; only a later failure's line number shifts |
| Materializer.ForeignEntryIgnored | src/lib.rs:101-105 | removing an entry owned by another package from anywhere leaves the written files unchanged; only a later failure's line number shifts |
| Materializer.FinalArtifact | src/lib.rs:102-105 | after success, file `key` holds the value of the last entry for this package with that key; if no such entry exists, the file is as it was before the run |
| Materializer.Idempotent | src/lib.rs:79-106 | running the loop again on the directory the first run left gives the same files and the same outcome |
| Errors.Message | src/lib.rs:121-124 | the display text is `parse error at line ` followed by decimal digits with no leading zero, as `{}` prints a `usize` |
| Errors.MessageNamesLine | src/lib.rs:121-124 | the line number read back from the display text is the error's line |
| Ctenv.Run | src/lib.rs:58-111 | the directive is emitted exactly on success and names the located `.env` path; success means a `target` ancestor exists, the file reads, and every line is well formed; lookup and read failures leave the directory untouched, and a read failure carries `read`'s own error; a parse failure returns exactly the files and the `ParseError` of the loop over the file's lines |
| Ctenv.RunStopsAtFirstMalformed | src/lib.rs:79-99 | when the file's first malformed line comes after the well-formed lines `pre`, the run fails with line number `|pre| + 1`, keeps exactly the files written by the lines before it, and emits no directive |
| Ctenv.RunArtifact | src/lib.rs:79-111 | after a successful run, each file holds the value of the last matching entry for its key, and files no such entry names keep their old contents |

## Left out

- Reading `CARGO_PKG_NAME` and `OUT_DIR` (src/lib.rs:60, 65). Both are parameters of `Run`, and their `VarError` paths are calls into the environment.
- File I/O. `fs::read_to_string` is the parameter `read`, and its failure is an opaque error value. `fs::write` is a map update, and every write succeeds in the model. A real write can fail for operating-system reasons such as permissions or a full disk. It also fails for some keys, as the `Materializer.Apply` line below describes.
- `str::lines()`. The file arrives already split into lines, so CR stripping and the trailing newline are not modelled.
- The text printed by `println!`. `Run` only records whether the rerun-if-changed directive was emitted and which path it names.
- The `ctenv!` macro in macros/src/lib.rs. It is a single `macro_rules!` wrapper around `include!`, so it has no logic to verify.
- The `Box<dyn Error>` plumbing and the `Error` trait impl. Only the `Display` text of `ParseError` is modelled.
- Path details. A path is a sequence of components below the root. `.` components and non-UTF-8 names are not modelled: a name that is not UTF-8 can never equal `target`, and `.` never appears in a path the build tool assigns.
- `usize` overflow of the line counter `i + 1`. A file can never hold that many lines.
- Materializer.Apply: a key is taken as a plain file name. The code writes to `out_dir.join(key)`, which treats the key as a path, and the model does not follow that. An empty key, `.` or `..` names a directory, so the write fails and the run ends with an I/O error. A key with a `/` fails when its subdirectory does not exist. An absolute key writes outside the output directory. Two different keys can name the same file, such as `a` and `./a`. In all these cases the model records the key as written in the output-directory map, so `FinalArtifact` and `Run` describe keys that are plain file names.
- Locator.TargetRoot: when no component is `target`, the code loops forever. The model returns `None` there instead.
