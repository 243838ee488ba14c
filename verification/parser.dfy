/** The grammar of one line of the shared `.env` file:
    `# comment` or `owner:key=value`. */
module Parser {
  import opened Wrappers
  import opened Text

  /** One configuration entry, exactly as written on its line. */
  datatype Entry = Entry(owner: string, key: string, value: string)

  /** A line is a comment when its very first character is `#`
      (`str::starts_with("#")`); leading blanks make it an ordinary line. */
  predicate IsComment(line: string)
  {
    |line| > 0 && line[0] == '#'
  }

  /** The entries the grammar can produce: the owner stops at the first `:`
      and the key at the first `=` after it. */
  predicate ValidEntry(e: Entry)
  {
    ':' !in e.owner && '=' !in e.key
  }

  /** The line text of an entry. */
  function Format(e: Entry): string
  {
    e.owner + ":" + e.key + "=" + e.value
  }

  /** The per-line parse helper: split at the first `:`, then split the rest at
      its first `=`. `None` when either delimiter is missing; the caller attaches
      the line number. */
  function ParseLine(line: string): (r: Option<Entry>)
    ensures r.Some? ==> ValidEntry(r.value) && Format(r.value) == line
    ensures ':' !in line ==> r.None?
  {
    match SplitOnce(line, ':')
    case None => None
    case Some((owner, keyValue)) =>
      match SplitOnce(keyValue, '=')
      case None => None
      case Some((key, value)) =>
        var e := Entry(owner, key, value);
        assert Format(e) == owner + [':'] + (key + ['='] + value);
        Some(e)
  }

  /** What the loop makes of one line: comments are recognised before any
      parsing is attempted. */
  datatype LineKind = Comment | Malformed | Parsed(entry: Entry)

  function Classify(line: string): LineKind
  {
    if IsComment(line) then Comment
    else
      match ParseLine(line)
      case None => Malformed
      case Some(e) => Parsed(e)
  }

  /** Parsing the text of any entry the grammar can produce gives that entry
      back, so owner, key and value are recovered byte for byte. */
  lemma ParseFormat(e: Entry)
    requires ValidEntry(e)
    ensures ParseLine(Format(e)) == Some(e)
  {
    var rest := e.key + "=" + e.value;
    assert Format(e) == e.owner + [':'] + rest;
    SplitOnceJoin(e.owner, ':', rest);
    assert rest == e.key + ['='] + e.value;
    SplitOnceJoin(e.key, '=', e.value);
  }

  /** A line fails to parse exactly when it is not the text of any entry the
      grammar can produce. */
  lemma ParseLineFailsIff(line: string)
    ensures ParseLine(line).None? <==> forall e :: ValidEntry(e) ==> Format(e) != line
  {
    if ParseLine(line).None? {
      forall e | ValidEntry(e)
        ensures Format(e) != line
      {
        if Format(e) == line {
          ParseFormat(e);
        }
      }
    }
  }

  /** Text after the first `:` that holds no `=` makes the line fail,
      whatever the owner part holds. */
  lemma MissingEqualsFails(owner: string, rest: string)
    requires ':' !in owner && '=' !in rest
    ensures ParseLine(owner + ":" + rest).None?
  {
    SplitOnceJoin(owner, ':', rest);
  }

  /** Only the first `=` after the first `:` is a delimiter:
      `foo:KEY=a=b=c` has key `KEY` and value `a=b=c`. */
  lemma ValueKeepsEquals()
    ensures ParseLine("foo:KEY=a=b=c") == Some(Entry("foo", "KEY", "a=b=c"))
  {
    var e := Entry("foo", "KEY", "a=b=c");
    assert Format(e) == "foo:KEY=a=b=c";
    ParseFormat(e);
  }
}
