/** The words and characters of the protocol, spelled out: what the tables of the parser are compared with. */
module HttpText {
  import opened HttpChars
  import opened HttpAutomaton

  /** Any other character than these 256 is read as 0. */
  function Ascii(s: string): (r: seq<byte>)
    ensures |r| == |s|
  {
    seq(|s|, i requires 0 <= i < |s| => if s[i] as int < 256 then s[i] as int else 0)
  }

  /** The method names of sections 5.1.1 of RFC 2616 and 8 and 9 of RFC 2518, and of its extensions. */
  function NameOf(m: Method): string {
    match m
    case Delete => "DELETE"
    case Get => "GET"
    case Head => "HEAD"
    case Post => "POST"
    case Put => "PUT"
    case Connect => "CONNECT"
    case Options => "OPTIONS"
    case Trace => "TRACE"
    case Copy => "COPY"
    case Lock => "LOCK"
    case Mkcol => "MKCOL"
    case Move => "MOVE"
    case Propfind => "PROPFIND"
    case Proppatch => "PROPPATCH"
    case Unlock => "UNLOCK"
    case Report => "REPORT"
    case Mkactivity => "MKACTIVITY"
    case Checkout => "CHECKOUT"
    case Merge => "MERGE"
    case Msearch => "M-SEARCH"
    case Notify => "NOTIFY"
    case Subscribe => "SUBSCRIBE"
    case Unsubscribe => "UNSUBSCRIBE"
  }

  function Name(m: Method): seq<byte> { Ascii(NameOf(m)) }

  /** The table of the parser holds these names. */
  lemma NameIs(m: Method)
    ensures MethodString(m) == Name(m)
  {
    hide MethodString, Ascii, NameOf;
    if m in {Delete, Get, Head, Post, Put, Connect} {
      CommonNames(m);
    } else if m in {Options, Trace, Copy, Lock, Unlock, Report} {
      OtherNames(m);
    } else if m in {Mkcol, Move, Mkactivity, Merge, Msearch, Notify} {
      WorkspaceNames(m);
    } else {
      LongNames(m);
    }
  }

  lemma CommonNames(m: Method)
    requires m in {Delete, Get, Head, Post, Put, Connect}
    ensures MethodString(m) == Name(m)
  {
  }

  lemma OtherNames(m: Method)
    requires m in {Options, Trace, Copy, Lock, Unlock, Report}
    ensures MethodString(m) == Name(m)
  {
  }

  lemma WorkspaceNames(m: Method)
    requires m in {Mkcol, Move, Mkactivity, Merge, Msearch, Notify}
    ensures MethodString(m) == Name(m)
  {
  }

  lemma LongNames(m: Method)
    requires m in {Propfind, Proppatch, Checkout, Subscribe, Unsubscribe}
    ensures MethodString(m) == Name(m)
  {
  }

  /** The bytes with a meaning of their own. */
  lemma BytesAreSpelled()
    ensures [CR, LF, SP] == Ascii("\r\n ")
    ensures [HASH, STAR, DASH, DOT, SLASH, COLON, SEMICOLON, QUESTION] == Ascii("#*-./:;?")
  {
  }

  /** The words of the header matchers. */
  lemma WordsAreSpelled()
    ensures WORD_CONNECTION == Ascii("connection") && WORD_PROXY_CONNECTION == Ascii("proxy-connection")
    ensures WORD_CONTENT_LENGTH == Ascii("content-length") && WORD_TRANSFER_ENCODING == Ascii("transfer-encoding")
    ensures WORD_UPGRADE == Ascii("upgrade")
    ensures WORD_CHUNKED == Ascii("chunked") && WORD_KEEP_ALIVE == Ascii("keep-alive") && WORD_CLOSE == Ascii("close")
  {
  }

  /** The bytes of a header name: those of a token of section 2.2 of RFC 2616, and besides these the space, the double
      quote, the slash and the closing brace. */
  predicate IsNameByte(ch: byte) {
    32 <= ch <= 39 || ch == 42 || ch == 43 || 45 <= ch <= 57 || 65 <= ch <= 90 || 94 <= ch <= 122 || 124 <= ch <= 126
  }

  /** The table of the parser holds these bytes, in lower case. */
  lemma TokenIs(ch: byte)
    ensures Token(ch) != 0 <==> IsNameByte(ch)
    ensures Token(ch) != 0 ==> Token(ch) == Fold(ch)
  {
  }

  /** Case folding and the classes of bytes, in letters and digits. */
  lemma ClassesAreSpelled(ch: byte)
    ensures IsDigit(ch) <==> ch in Ascii("0123456789")
    ensures IsAlpha(ch) <==> 65 <= ch <= 90 || 97 <= ch <= 122
    ensures Fold(ch) == if 65 <= ch <= 90 then ch + 32 else ch
    ensures IsUrlChar(ch) <==> 33 <= ch <= 126 && ch != 35 && ch != 63
  {
    assert Ascii("0123456789") == [48, 49, 50, 51, 52, 53, 54, 55, 56, 57];
  }

  // ---------------------------------------------------------------- runs of digits

  predicate AllDigits(s: seq<byte>) { forall i :: 0 <= i < |s| ==> IsDigit(s[i]) }

  /** How many of the first bytes are digits. */
  function DigitsLength(w: seq<byte>): (k: nat)
    ensures k <= |w| && (k < |w| ==> !IsDigit(w[k])) && AllDigits(w[..k])
  {
    if w == [] || !IsDigit(w[0]) then 0
    else
      var k := DigitsLength(w[1..]);
      assert forall i :: 0 < i < 1 + k ==> w[i] == w[1..][..k][i - 1];
      1 + k
  }
}
