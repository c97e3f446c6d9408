/**
 * Library code the operator calls but does not define: Unicode tables, SHA-256, X.509 parsing and
 * URL parsing. Everything proved here holds for every choice of these functions that meets the
 * facts named where they are needed.
 */
module Platform {
  /**
   * lower:    Unicode lower-casing of one character
   * graphic:  whether a non-ASCII character is printable
   * digest:   SHA-256 in hexadecimal
   * bundle:   whether a text holds PEM certificates
   * keyPair:  whether a certificate and a key parse as a pair
   * endpoint: whether a text is a ws:// or wss:// URL
   */
  datatype Libraries = Libraries(
    lower: char -> char,
    graphic: char -> bool,
    digest: string -> string,
    bundle: string -> bool,
    keyPair: (string, string) -> bool,
    endpoint: string -> bool)

  predicate IsHex(c: char) {
    ('0' <= c <= '9') || ('a' <= c <= 'f')
  }

  /** A SHA-256 digest is 64 lower-case hexadecimal digits. */
  ghost predicate ProperDigest(lib: Libraries) {
    forall s :: |lib.digest(s)| == 64 && forall i :: 0 <= i < 64 ==> IsHex(lib.digest(s)[i])
  }
}
