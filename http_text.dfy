/** The two separators of HTTP/1.1 message text, shared by the proxy and the origin server. */
module HttpText {
  import opened Wrappers
  import opened Seqs

  /** The end of a line. */
  const Crlf := "\r\n"

  /** The end of the header section: an empty line after the last header line. */
  const BlankLine := "\r\n\r\n"

  /** The first blank line of `x + BlankLine` is the appended one. */
  predicate EndsBeforeBlankLine(x: string) {
    Find(x + BlankLine, BlankLine) == Some(|x|)
  }
}
