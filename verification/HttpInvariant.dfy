/** The joint invariant of the parser's fields: what makes its assertions hold and its truncated save safe. */
module HttpInvariant {
  import opened HttpChars
  import opened HttpAutomaton
  import opened HttpRun
  import opened HttpShape

  /** The sub-states a header value can be in. */
  predicate IsValueState(hs: HeaderState) {
    hs.General? || hs.IsContentLength? || hs.MatchingChunked? || hs.MatchingKeepAlive? || hs.MatchingClose?
    || hs.ValueChunked? || hs.ValueKeepAlive? || hs.ValueClose?
  }

  /** How far a matcher can have come. */
  predicate MatchBound(hs: HeaderState, index: nat) {
    match hs
    case MatchC => index == 0
    case MatchCO => index == 1
    case MatchCON => index == 2
    case MatchingConnection => 3 <= index < |WORD_CONNECTION| - 1
    case MatchingProxyConnection => index < |WORD_PROXY_CONNECTION| - 1
    case MatchingContentLength => 3 <= index < |WORD_CONTENT_LENGTH| - 1
    case MatchingTransferEncoding => index < |WORD_TRANSFER_ENCODING| - 1
    case MatchingUpgrade => index < |WORD_UPGRADE| - 1
    case MatchingChunked => index < |WORD_CHUNKED| - 1
    case MatchingKeepAlive => index < |WORD_KEEP_ALIVE| - 1
    case MatchingClose => index < |WORD_CLOSE| - 1
    case _ => true
  }

  predicate HeaderInv(c: Core) {
    && (c.state.HeaderField? ==> IsNameState(c.headerState) && MatchBound(c.headerState, c.index))
    && (c.state.HeaderValueStart? ==> IsNameState(c.headerState))
    && (c.state.HeaderValue? ==> IsValueState(c.headerState) && MatchBound(c.headerState, c.index))
  }

  predicate BodyInv(c: Core) {
    && c.contentLength < U64
    && (IsChunkState(c.state) ==> c.flags.chunked)
    && (c.state.ChunkData? || c.state.BodyIdentity? ==> c.contentLength > 0)
    && !c.state.BodyIdentityEof?
    && !c.flags.skipBody
  }

  /** The version and status numbers fit the C fields of 16 bits, and so do the numbers one digit longer that
      are computed before they are checked. */
  predicate VersionInv(c: Core) {
    && c.httpMajor < 65536 && c.httpMinor < 65536 && c.statusCode < 65536
    && (c.state.ReqMajor? || c.state.ResMajor? ==> c.httpMajor <= 999)
    && (c.state.ReqMinor? || c.state.ResMinor? ==> c.httpMinor <= 999)
    && (c.state.ResStatusCode? ==> c.statusCode <= 999)
  }

  predicate CoreInv(c: Core) {
    && c.index < 256
    && (c.state.ReqMethod? ==> c.index <= |MethodString(c.meth)| + 1)
    && HeaderInv(c) && BodyInv(c) && VersionInv(c)
  }

  /** The states between the reset of `nread` and the next chunk size. */
  predicate CountIsZero(s: State) {
    s.ChunkSizeStart? || s.ChunkData? || s.ChunkDataAlmostDone? || s.ChunkDataDone?
  }

  predicate Inv(c: Core, n: nat) {
    CoreInv(c) && (CountIsZero(c.state) ==> n == 0)
  }

  /** What a step result owes the invariant. */
  predicate Keeps(r: StepResult) {
    !r.stop.AssertFailed? && (r.stop.Running? ==> CoreInv(r.core))
  }

  /** The same, for the parts of the switch that do not lead to a state that needs a zero counter. */
  predicate KeepsLine(r: StepResult) {
    Keeps(r) && (r.stop.Running? ==> !CountIsZero(r.core.state))
  }

  lemma StartKeepsInv(c: Core, ch: byte)
    requires CoreInv(c) && IsStartState(c.state)
    ensures KeepsLine(StepStart(c, ch))
  {
    hide AssignMethod, MatchBound, VersionInv, MethodString;
    StartFrame(c, ch);
    StartFields(c, ch);
    MethodStringLengths();
    VersionElsewhere(c, StepStart(c, ch).core);
    hide StepStart;
  }

  lemma MethodStringLengths()
    ensures forall m :: |MethodString(m)| >= 3
  {
    hide MethodString;
  }

  lemma StartFields(c: Core, ch: byte)
    requires IsStartState(c.state)
    ensures var d := StepStart(c, ch).core;
            && (d.index == c.index || d.index <= 2) && (d.state.ReqMethod? ==> d.index <= 2)
            && (d.contentLength == c.contentLength || d.contentLength == U64 - 1)
            && (d.flags == c.flags || d.flags == NO_FLAGS)
            && d.httpMajor == c.httpMajor && d.httpMinor == c.httpMinor && d.statusCode == c.statusCode
  {
    hide AssignMethod;
    AssignMethodFrame(FreshMessage(c), ch);
    AssignMethodFrame(FreshMessage(c).(kind := Request), ch);
  }

  lemma LiteralKeepsInv(c: Core, ch: byte)
    requires CoreInv(c) && IsLiteralState(c.state)
    ensures KeepsLine(Apply(c, LiteralMove(c.state, ch)))
  {
    hide LiteralMove, MatchBound;
    LiteralTarget(c.state, ch);
  }

  lemma NumberKeepsVersion(c: Core, ch: byte)
    requires VersionInv(c) && IsNumberState(c.state)
    ensures var r := StepNumber(c, ch); r.stop.Running? ==> VersionInv(r.core)
  {
  }

  lemma NumberKeepsInv(c: Core, ch: byte)
    requires CoreInv(c) && IsNumberState(c.state)
    ensures KeepsLine(StepNumber(c, ch))
  {
    hide StepNumber, MatchBound, VersionInv;
    NumberKeepsVersion(c, ch);
    NumberTarget(c, ch);
    NumberFrame(c, ch);
  }

  lemma MethodKeepsInv(c: Core, ch: byte)
    requires CoreInv(c) && c.state.ReqMethod?
    ensures KeepsLine(StepMethod(c, ch))
  {
    hide StepMethod, MatchBound;
    MethodFrame(c, ch);
    MethodIndex(c, ch);
  }

  lemma UrlKeepsInv(c: Core, ch: byte)
    requires CoreInv(c) && IsUrlState(c.state)
    ensures KeepsLine(StepUrl(c, ch))
  {
    hide UrlMove, MatchBound;
    UrlTarget(c.state, ch);
  }

  lemma StepNameKeepsBound(hs: HeaderState, index: nat, t: byte)
    requires IsNameState(hs) && MatchBound(hs, index) && index < 256
    ensures var n := StepName(hs, index, t); IsNameState(n.0) && MatchBound(n.0, n.1) && n.1 < 256
  {
  }

  lemma StepValueKeepsBound(hs: HeaderState, index: nat, t: byte, ch: byte)
    requires IsValueState(hs) && !hs.IsContentLength? && MatchBound(hs, index) && index < 256
    ensures var v := StepValue(hs, index, t, ch);
            IsValueState(v.0) && !v.0.IsContentLength? && MatchBound(v.0, v.1) && v.1 < 256
  {
  }

  /** The number states are the only ones that bound the numbers. */
  lemma VersionElsewhere(c: Core, d: Core)
    requires VersionInv(c) && !IsNumberState(d.state)
    requires d.httpMajor == c.httpMajor && d.httpMinor == c.httpMinor && d.statusCode == c.statusCode
    ensures VersionInv(d)
  {
  }

  lemma HeaderFieldKeepsInv(c: Core, ch: byte)
    requires CoreInv(c) && c.state.HeaderField?
    ensures KeepsLine(StepHeaderField(c, ch))
  {
    hide VersionInv;
    VersionElsewhere(c, StepHeaderField(c, ch).core);
    hide StepName, MatchBound;
    StepNameKeepsBound(c.headerState, c.index, Token(ch));
  }

  lemma HeaderValueStartKeepsInv(c: Core, ch: byte)
    requires CoreInv(c) && c.state.HeaderValueStart?
    ensures KeepsLine(StepHeaderValueStart(c, ch))
  {
    hide VersionInv;
    VersionElsewhere(c, StepHeaderValueStart(c, ch).core);
  }

  lemma HeaderValueKeepsInv(c: Core, ch: byte)
    requires CoreInv(c) && c.state.HeaderValue?
    ensures KeepsLine(StepHeaderValue(c, ch))
  {
    hide StepValue, MatchBound, VersionInv;
    if ch == CR || ch == LF {
      VersionElsewhere(c, StepHeaderValue(c, ch).core);
    } else if c.headerState.IsContentLength? {
      DigitStays();
      VersionElsewhere(c, StepHeaderValue(c, ch).core);
    } else {
      ValueByteKeepsInv(c, ch);
    }
  }

  lemma ValueByteKeepsInv(c: Core, ch: byte)
    requires CoreInv(c) && c.state.HeaderValue? && ch != CR && ch != LF && !c.headerState.IsContentLength?
    ensures KeepsLine(StepHeaderValue(c, ch))
  {
    hide StepValue, MatchBound, VersionInv;
    StepValueKeepsBound(c.headerState, c.index, Lower(ch), ch);
    VersionElsewhere(c, StepHeaderValue(c, ch).core);
  }

  lemma DigitStays()
    ensures forall index :: MatchBound(IsContentLength, index)
  {
  }

  lemma EndHeadersKeepsInv(c: Core)
    requires CoreInv(c) && c.state.HeadersAlmostDone?
    ensures var r := EndHeaders(c); Keeps(r) && (r.stop.Running? && CountIsZero(r.core.state) ==> r.reset)
  {
    hide MatchBound;
  }

  lemma HeaderKeepsInv(c: Core, ch: byte)
    requires CoreInv(c) && IsHeaderState(c.state)
    ensures var r := StepHeader(c, ch); Keeps(r) && (r.stop.Running? && CountIsZero(r.core.state) ==> r.reset)
  {
    hide StepHeaderField, StepHeaderValueStart, StepHeaderValue, EndHeaders;
    match c.state {
      case HeaderField => HeaderFieldKeepsInv(c, ch);
      case HeaderValueStart => HeaderValueStartKeepsInv(c, ch);
      case HeaderValue => HeaderValueKeepsInv(c, ch);
      case HeaderFieldStart => EndHeadersKeepsInv(c.(state := HeadersAlmostDone));
      case HeadersAlmostDone => EndHeadersKeepsInv(c);
      case _ =>
    }
  }

  lemma ChunkKeepsInv(c: Core, ch: byte)
    requires CoreInv(c) && IsChunkState(c.state)
    ensures var r := StepChunk(c, ch);
            && Keeps(r)
            && (r.stop.Running? && CountIsZero(r.core.state)
                ==> r.reset || (CountIsZero(c.state) && !ParsingHeader(c.state)))
  {
    hide VersionInv;
    VersionElsewhere(c, StepChunk(c, ch).core);
    hide MatchBound;
  }

  lemma IdentityKeepsInv(c: Core)
    requires CoreInv(c) && c.state.BodyIdentity?
    ensures KeepsLine(StepIdentity(c))
  {
    hide MatchBound;
  }

  /** One byte keeps the invariant, and no assertion fails on it. */
  lemma StepKeepsInv(c: Core, n: nat, ch: byte)
    requires Inv(c, n)
    ensures var r := Step(c, ch);
            !r.stop.AssertFailed? && (r.stop.Running? ==> Inv(r.core, CountStep(c, n, ch)))
  {
    hide StepStart, LiteralMove, StepNumber, StepMethod, UrlMove, StepHeader, StepChunk, StepIdentity, CoreInv;
    assert !c.state.BodyIdentityEof? by { NoEof(c); }
    if IsStartState(c.state) {
      StartKeepsInv(c, ch);
    } else if IsLiteralState(c.state) {
      LiteralKeepsInv(c, ch);
    } else if IsNumberState(c.state) {
      NumberKeepsInv(c, ch);
    } else if c.state.ReqMethod? {
      MethodKeepsInv(c, ch);
    } else if IsUrlState(c.state) {
      UrlKeepsInv(c, ch);
    } else if IsHeaderState(c.state) {
      HeaderKeepsInv(c, ch);
    } else if IsChunkState(c.state) {
      ChunkKeepsInv(c, ch);
    } else if c.state.BodyIdentity? {
      IdentityKeepsInv(c);
    }
  }

  lemma NoEof(c: Core)
    requires CoreInv(c)
    ensures !c.state.BodyIdentityEof?
  {
  }
}
