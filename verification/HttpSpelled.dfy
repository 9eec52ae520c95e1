/** The header names and values that the parser looks for, letter by letter. */
module HttpSpelled {
  import opened Options
  import opened HttpChars
  import opened HttpAutomaton
  import opened HttpText
  import opened HttpRun
  import opened HttpHeaderWords
  import opened HttpHeaders

  /** A word without spaces at its end is folded as it stands. */
  lemma FoldsTo(s: seq<byte>, word: seq<byte>)
    requires s != [] && s[|s| - 1] != SP && |s| == |word|
    requires forall i :: 0 <= i < |s| ==> Fold(s[i]) == word[i]
    ensures FoldAll(TrimRight(s)) == word
  {
  }

  lemma SpelledConnection()
    ensures ValidName(Ascii("Connection")) && Classify(Ascii("Connection")) == Connection
  {
    assert Ascii("Connection") == [67, 111, 110, 110, 101, 99, 116, 105, 111, 110];
    FoldsTo(Ascii("Connection"), WORD_CONNECTION);
  }

  lemma SpelledProxyConnection()
    ensures ValidName(Ascii("Proxy-Connection")) && Classify(Ascii("Proxy-Connection")) == Connection
  {
    ProxyLetters();
    hide Ascii;
    FoldsTo(Ascii("Proxy-Connection"), WORD_PROXY_CONNECTION);
  }

  lemma ProxyLetters()
    ensures Ascii("Proxy-Connection")
            == [80, 114, 111, 120, 121, 45, 67, 111, 110, 110, 101, 99, 116, 105, 111, 110]
  {
  }

  lemma EncodingLetters()
    ensures Ascii("Transfer-Encoding")
            == [84, 114, 97, 110, 115, 102, 101, 114, 45, 69, 110, 99, 111, 100, 105, 110, 103]
  {
  }

  lemma SpelledContentLength()
    ensures ValidName(Ascii("Content-Length")) && Classify(Ascii("Content-Length")) == ContentLength
  {
    assert Ascii("Content-Length") == [67, 111, 110, 116, 101, 110, 116, 45, 76, 101, 110, 103, 116, 104];
    FoldsTo(Ascii("Content-Length"), WORD_CONTENT_LENGTH);
    Letters();
  }

  lemma SpelledTransferEncoding()
    ensures ValidName(Ascii("Transfer-Encoding")) && Classify(Ascii("Transfer-Encoding")) == TransferEncoding
  {
    EncodingLetters();
    hide Ascii;
    FoldsTo(Ascii("Transfer-Encoding"), WORD_TRANSFER_ENCODING);
    Letters();
  }

  lemma SpelledUpgrade()
    ensures ValidName(Ascii("Upgrade")) && Classify(Ascii("Upgrade")) == Upgrade
  {
    assert Ascii("Upgrade") == [85, 112, 103, 114, 97, 100, 101];
    FoldsTo(Ascii("Upgrade"), WORD_UPGRADE);
    Letters();
  }

  /** Behind the colon of each of these names the parser knows which header it is. */
  lemma NamesRecognised(c: Core, at: nat)
    requires c.state.HeaderFieldStart?
    ensures Recognises(Run(c, Ascii("Connection") + Ascii(":"), at), IsConnection)
    ensures Recognises(Run(c, Ascii("Proxy-Connection") + Ascii(":"), at), IsConnection)
    ensures Recognises(Run(c, Ascii("Content-Length") + Ascii(":"), at), IsContentLength)
    ensures Recognises(Run(c, Ascii("Transfer-Encoding") + Ascii(":"), at), IsTransferEncoding)
    ensures Recognises(Run(c, Ascii("Upgrade") + Ascii(":"), at), IsUpgrade)
  {
    hide Run, Classify, ValidName;
    assert Ascii(":") == [COLON];
    SpelledConnection();
    SpelledProxyConnection();
    SpelledContentLength();
    SpelledTransferEncoding();
    SpelledUpgrade();
    hide Ascii;
    ColonState(c, Ascii("Connection"), at);
    ColonState(c, Ascii("Proxy-Connection"), at);
    ColonState(c, Ascii("Content-Length"), at);
    ColonState(c, Ascii("Transfer-Encoding"), at);
    ColonState(c, Ascii("Upgrade"), at);
  }

  predicate Recognises(r: RunResult, hs: HeaderState) {
    r.stop.Running? && r.core.state.HeaderValueStart? && r.core.headerState == hs
  }

  /** A whole line with one of the words. */
  function Spelled(name: string, value: string): seq<byte> { Ascii(name) + Ascii(": ") + Ascii(value) + Ascii("\r\n") }

  lemma SpelledIsLine(name: string, value: string)
    requires value != "" && Ascii(value)[0] != SP && ValidName(Ascii(name)) && ValidValue(Ascii(value))
    ensures var l := Line(Ascii(name), Some([SP] + Ascii(value)), true);
            && ValidLine(l) && Encode(l) == Spelled(name, value) && LineValue(l) == Ascii(value)
  {
    hide ValidName;
    var v := Ascii(value);
    assert Ascii(": ") == [COLON, SP] && Ascii("\r\n") == [CR, LF];
    assert ([SP] + v)[1..] == v;
    assert TrimLeft(v) == v;
    assert Ascii(name) + ([COLON] + ([SP] + v) + [CR, LF]) == Ascii(name) + [COLON, SP] + v + [CR, LF];
  }

  /** What the run over such a line sets. */
  lemma SpelledRun(c: Core, name: string, value: string, at: nat)
    requires c.state.HeaderFieldStart? && value != "" && Ascii(value)[0] != SP
    requires ValidName(Ascii(name)) && ValidValue(Ascii(value))
    requires GoodLine(Line(Ascii(name), Some([SP] + Ascii(value)), true))
    ensures var l, r := Line(Ascii(name), Some([SP] + Ascii(value)), true), Run(c, Spelled(name, value), at);
            r.stop.Running? && IsAfterLine(c, l, r.core)
  {
    hide Run, ValidName, ValidValue, GoodLine, Spelled, IsAfterLine;
    SpelledIsLine(name, value);
    LineRun(c, Line(Ascii(name), Some([SP] + Ascii(value)), true), at);
  }

  lemma SpelledValues()
    ensures ValidValue(Ascii("chunked")) && FoldAll(TrimRight(Ascii("chunked"))) == WORD_CHUNKED
    ensures ValidValue(Ascii("keep-alive")) && FoldAll(TrimRight(Ascii("keep-alive"))) == WORD_KEEP_ALIVE
    ensures ValidValue(Ascii("close")) && FoldAll(TrimRight(Ascii("close"))) == WORD_CLOSE
  {
    assert Ascii("chunked") == [99, 104, 117, 110, 107, 101, 100];
    FoldsTo(Ascii("chunked"), WORD_CHUNKED);
    assert Ascii("keep-alive") == [107, 101, 101, 112, 45, 97, 108, 105, 118, 101];
    FoldsTo(Ascii("keep-alive"), WORD_KEEP_ALIVE);
    assert Ascii("close") == [99, 108, 111, 115, 101];
    FoldsTo(Ascii("close"), WORD_CLOSE);
  }

  /** The parser behind a line: ready for the next one, with this flag set. */
  predicate Sets(c: Core, r: RunResult, f: Flags) {
    r.stop.Running? && r.core.state.HeaderFieldStart? && r.core.flags == f && r.core.contentLength == c.contentLength
  }

  lemma ChunkedLine(c: Core, at: nat)
    requires c.state.HeaderFieldStart?
    ensures Sets(c, Run(c, Spelled("Transfer-Encoding", "chunked"), at), c.flags.(chunked := true))
  {
    hide Run, ValidName, Classify, TrimRight, TrimLeft;
    SpelledTransferEncoding();
    SpelledValues();
    SpelledIsLine("Transfer-Encoding", "chunked");
    SpelledRun(c, "Transfer-Encoding", "chunked", at);
    FlagsAfterWords(c.flags, Line(Ascii("Transfer-Encoding"), Some([SP] + Ascii("chunked")), true));
  }

  lemma KeepAliveLine(c: Core, at: nat)
    requires c.state.HeaderFieldStart?
    ensures Sets(c, Run(c, Spelled("Connection", "keep-alive"), at), c.flags.(keepAlive := true))
  {
    hide Run, ValidName, Classify, TrimRight, TrimLeft;
    SpelledConnection();
    SpelledValues();
    SpelledIsLine("Connection", "keep-alive");
    SpelledRun(c, "Connection", "keep-alive", at);
    FlagsAfterWords(c.flags, Line(Ascii("Connection"), Some([SP] + Ascii("keep-alive")), true));
  }

  lemma CloseLine(c: Core, at: nat)
    requires c.state.HeaderFieldStart?
    ensures Sets(c, Run(c, Spelled("Connection", "close"), at), c.flags.(close := true))
  {
    hide Run, ValidName, Classify, TrimRight, TrimLeft;
    SpelledConnection();
    SpelledValues();
    SpelledIsLine("Connection", "close");
    SpelledRun(c, "Connection", "close", at);
    FlagsAfterWords(c.flags, Line(Ascii("Connection"), Some([SP] + Ascii("close")), true));
  }

  lemma UpgradeLine(c: Core, at: nat)
    requires c.state.HeaderFieldStart?
    ensures Sets(c, Run(c, Spelled("Upgrade", "h2c"), at), c.flags.(upgrade := true))
  {
    hide Run, ValidName, Classify, TrimRight, TrimLeft;
    SpelledUpgrade();
    assert Ascii("h2c") == [104, 50, 99];
    SpelledIsLine("Upgrade", "h2c");
    SpelledRun(c, "Upgrade", "h2c", at);
  }

  lemma LengthLine(c: Core, at: nat)
    requires c.state.HeaderFieldStart?
    ensures var r := Run(c, Spelled("Content-Length", "1049"), at);
            r.stop.Running? && r.core.state.HeaderFieldStart? && r.core.flags == c.flags && r.core.contentLength == 1049
  {
    hide Run, ValidName, Classify, TrimRight, TrimLeft;
    SpelledContentLength();
    var w := Ascii("1049");
    assert w == [49, 48, 52, 57];
    assert w[..3] == [49, 48, 52] && [49, 48, 52][..2] == [49, 48] && [49, 48][..1] == [49] && [49][..0] == [];
    assert Decimal([49]) == 1;
    assert Decimal([49, 48]) == 10;
    assert Decimal([49, 48, 52]) == 104;
    assert Decimal(w) == 1049;
    SpelledIsLine("Content-Length", "1049");
    SpelledRun(c, "Content-Length", "1049", at);
  }

  /** The words that decide about a message, as a sender writes them. */
  lemma LinesRecognised(c: Core, at: nat)
    requires c.state.HeaderFieldStart?
    ensures Sets(c, Run(c, Spelled("Transfer-Encoding", "chunked"), at), c.flags.(chunked := true))
    ensures Sets(c, Run(c, Spelled("Connection", "keep-alive"), at), c.flags.(keepAlive := true))
    ensures Sets(c, Run(c, Spelled("Connection", "close"), at), c.flags.(close := true))
    ensures Sets(c, Run(c, Spelled("Upgrade", "h2c"), at), c.flags.(upgrade := true))
    ensures Run(c, Spelled("Content-Length", "1049"), at).core.contentLength == 1049
  {
    hide *;
    ChunkedLine(c, at);
    KeepAliveLine(c, at);
    CloseLine(c, at);
    UpgradeLine(c, at);
    LengthLine(c, at);
  }
}
