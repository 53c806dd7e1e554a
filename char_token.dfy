/**
 * The text a character-valued CSV setting (quote, separator, escape character)
 * is written as inside the datastore XML element.
 */
module CharToken {
  import opened Wrappers

  /** The "no character" sentinel of a CSV configuration, e.g. "no escape character". */
  const NOT_A_CHAR: char := '\0'

  /** The characters that are not written as themselves. */
  predicate IsEscaped(c: char) {
    c == NOT_A_CHAR || c == '\t' || c == '\n' || c == '\r'
  }

  /**
   * The sentinel becomes the word NOT_A_CHAR, tab, line feed and carriage
   * return become a backslash followed by t, n or r, and every other
   * character is written as itself.
   */
  function EncodeChar(c: char): (r: string)
    ensures !IsEscaped(c) ==> r == [c]
    ensures IsEscaped(c) <==> |r| > 1
  {
    if c == NOT_A_CHAR then "NOT_A_CHAR"
    else if c == '\t' then "\\t"
    else if c == '\n' then "\\n"
    else if c == '\r' then "\\r"
    else [c]
  }

  /**
   * Reads a character back from its text. Only the texts EncodeChar produces
   * are accepted: a lone character that would have been escaped is refused.
   */
  function DecodeChar(s: string): (r: Option<char>)
    ensures r.Some? ==> EncodeChar(r.value) == s
  {
    if s == "NOT_A_CHAR" then Some(NOT_A_CHAR)
    else if s == "\\t" then Some('\t')
    else if s == "\\n" then Some('\n')
    else if s == "\\r" then Some('\r')
    else if |s| == 1 && !IsEscaped(s[0]) then Some(s[0])
    else None
  }

  /** Decoding undoes encoding, for every character. */
  lemma DecodeEncode(c: char)
    ensures DecodeChar(EncodeChar(c)) == Some(c)
  {
    if !IsEscaped(c) {
      assert EncodeChar(c) == [c];
      assert [c] != "NOT_A_CHAR" && [c] != "\\t" && [c] != "\\n" && [c] != "\\r";
    }
  }

  /** A text decodes to c exactly when it is the encoding of c. */
  lemma DecodeCharIff(s: string, c: char)
    ensures DecodeChar(s) == Some(c) <==> EncodeChar(c) == s
  {
    DecodeEncode(c);
  }

  /** Two different characters never share a text. */
  lemma EncodeCharInjective(c: char, d: char)
    ensures EncodeChar(c) == EncodeChar(d) ==> c == d
  {
    DecodeEncode(c);
    DecodeEncode(d);
  }

  /** The four escaped characters, as written in the XML. */
  lemma EncodingTable()
    ensures EncodeChar(NOT_A_CHAR) == "NOT_A_CHAR"
    ensures EncodeChar('\t') == ['\\', 't'] && EncodeChar('\n') == ['\\', 'n'] && EncodeChar('\r') == ['\\', 'r']
  {
  }
}
