/** The parse error the loop reports, and the message it displays. */
module Errors {
  import opened Wrappers
  import opened Text

  /** A malformed line, carrying its 1-based line number. */
  datatype ParseError = ParseError(line: nat)

  const MessagePrefix: string := "parse error at line "

  /** The `Display` text of a parse error: the fixed prefix followed by the
      line number in decimal, with no leading zero. */
  function Message(e: ParseError): (msg: string)
    ensures |msg| > |MessagePrefix| && msg[..|MessagePrefix|] == MessagePrefix
    ensures IsDigits(msg[|MessagePrefix|..])
    ensures msg[|MessagePrefix|] == '0' ==> |msg| == |MessagePrefix| + 1
  {
    var digits := Decimal(e.line);
    assert (MessagePrefix + digits)[|MessagePrefix|..] == digits;
    MessagePrefix + digits
  }

  /** Reading a line number back out of a message; `None` for any text that is
      not a parse error message. */
  function LineOfMessage(msg: string): Option<nat>
  {
    if |msg| > |MessagePrefix| && msg[..|MessagePrefix|] == MessagePrefix && IsDigits(msg[|MessagePrefix|..])
    then Some(DecimalValue(msg[|MessagePrefix|..]))
    else None
  }

  /** The message names the line exactly: the number can be read back from it. */
  lemma MessageNamesLine(e: ParseError)
    ensures LineOfMessage(Message(e)) == Some(e.line)
  {
    var digits := Decimal(e.line);
    assert Message(e)[|MessagePrefix|..] == digits;
    DecimalRoundTrip(e.line);
  }
}
