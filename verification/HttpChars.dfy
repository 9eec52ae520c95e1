/** Bytes and the character classes of the parser's lookup tables. */
module HttpChars {

  type byte = b: int | 0 <= b < 256

  const LF: byte := 10
  const CR: byte := 13
  const SP: byte := 32
  const HASH: byte := 35      // #
  const STAR: byte := 42      // *
  const DASH: byte := 45      // -
  const DOT: byte := 46       // .
  const SLASH: byte := 47     // /
  const COLON: byte := 58     // :
  const SEMICOLON: byte := 59 // ;
  const QUESTION: byte := 63  // ?

  predicate IsDigit(ch: byte) { 48 <= ch <= 57 }

  predicate IsUpper(ch: byte) { 65 <= ch <= 90 }

  /** `LOWER(ch)`: the byte with bit 5 set. */
  function Lower(ch: byte): byte {
    if ch / 32 % 2 == 1 then ch else ch + 32
  }

  /** `LOWER(ch)` lies in 'a'..'z'. */
  predicate IsAlpha(ch: byte) { 97 <= Lower(ch) <= 122 }

  /** The `tokens` table: 0 for bytes that may not occur in a header name, the lower-case byte otherwise.
      The space is in the table; the entries from 128 on are not initialised and hence 0. */
  function Token(ch: byte): byte {
    if IsUpper(ch) then ch + 32
    else if ch < 32 || ch == 40 || ch == 41 || ch == 44 || 58 <= ch <= 64 || 91 <= ch <= 93
            || ch == 123 || 127 <= ch then 0
    else ch
  }

  /** The `normal_url_char` table. */
  predicate IsUrlChar(ch: byte) { 33 <= ch <= 126 && ch != HASH && ch != QUESTION }

  /** The `unhex` table, which lists 128 of its 256 entries: bytes from 128 on read as digit 0. */
  function Unhex(ch: byte): (v: int)
    ensures -1 <= v < 16
  {
    if IsDigit(ch) then ch - 48
    else if 65 <= ch <= 70 then ch - 55
    else if 97 <= ch <= 102 then ch - 87
    else if 128 <= ch then 0
    else -1
  }

  /** ASCII case folding: the meaning of "case-insensitive" in section 4.2 of RFC 2616. */
  function Fold(ch: byte): byte {
    if IsUpper(ch) then ch + 32 else ch
  }

  function FoldAll(s: seq<byte>): (r: seq<byte>)
    ensures |r| == |s|
    ensures forall i :: 0 <= i < |s| ==> r[i] == Fold(s[i])
  {
    seq(|s|, i requires 0 <= i < |s| => Fold(s[i]))
  }
}
