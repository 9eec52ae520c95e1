/** The parser as a Mealy machine over single bytes: what one byte does to the parser's fields, which
    callbacks without data it fires, and whether it stops the parser. The header byte counter `nread` is
    kept beside it (module HttpRun). */
module HttpAutomaton {
  import opened Options
  import opened HttpChars

  datatype ParserType = Request | Response | Both

  datatype Method =
    | Delete | Get | Head | Post | Put | Connect | Options | Trace | Copy | Lock | Mkcol | Move
    | Propfind | Proppatch | Unlock | Report | Mkactivity | Checkout | Merge | Msearch | Notify
    | Subscribe | Unsubscribe

  datatype State =
    | Dead
    | StartReqOrRes | ResOrRespH | StartRes
    | ResH | ResHT | ResHTT | ResHTTP | ResFirstMajor | ResMajor | ResFirstMinor | ResMinor
    | ResFirstStatus | ResStatusCode | ResStatus | ResLineAlmostDone
    | StartReq | ReqMethod
    | ReqSpacesBeforeUrl | ReqSchema | ReqSchemaSlash | ReqSchemaSlashSlash | ReqHost | ReqPort
    | ReqPath | ReqQueryStart | ReqQuery | ReqFragmentStart | ReqFragment
    | ReqHttpStart | ReqHttpH | ReqHttpHT | ReqHttpHTT | ReqHttpHTTP
    | ReqFirstMajor | ReqMajor | ReqFirstMinor | ReqMinor | ReqLineAlmostDone
    | HeaderFieldStart | HeaderField | HeaderValueStart | HeaderValue | HeaderAlmostDone
    | ChunkSizeStart | ChunkSize | ChunkParameters | ChunkSizeAlmostDone
    | HeadersAlmostDone
    | ChunkData | ChunkDataAlmostDone | ChunkDataDone | BodyIdentity | BodyIdentityEof

  /** `PARSING_HEADER`: the states whose bytes count against the header limit. */
  predicate ParsingHeader(s: State) {
    !(s.ChunkData? || s.ChunkDataAlmostDone? || s.ChunkDataDone? || s.BodyIdentity? || s.BodyIdentityEof?)
  }

  datatype HeaderState =
    | General | MatchC | MatchCO | MatchCON
    | MatchingConnection | MatchingProxyConnection | MatchingContentLength
    | MatchingTransferEncoding | MatchingUpgrade
    | IsConnection | IsContentLength | IsTransferEncoding | IsUpgrade
    | MatchingChunked | MatchingKeepAlive | MatchingClose
    | ValueChunked | ValueKeepAlive | ValueClose

  datatype Flags = Flags(chunked: bool, keepAlive: bool, close: bool, trailing: bool, upgrade: bool, skipBody: bool)

  const NO_FLAGS := Flags(false, false, false, false, false, false)

  /** The fields of `http_parser` and the loop's local copies of them, except `nread`. */
  datatype Core = Core(
    kind: ParserType, flags: Flags, state: State, headerState: HeaderState, index: nat, contentLength: nat,
    httpMajor: nat, httpMinor: nat, statusCode: nat, meth: Method, upgrade: bool)

  /** The callbacks that carry no data. */
  datatype Control = MessageBegin | HeadersComplete | MessageComplete

  /** Why the loop ended before the end of its buffer. `OutOfBounds` stands for the two places where the C
      code leaves its objects (past the end of a method string, or a chunk size that is negative as a signed
      number); `AssertFailed` for an `assert` that does not hold. */
  datatype Stop = Running | Error | Upgraded | OutOfBounds | AssertFailed

  /** `reset` says that the byte sets `nread` to 0. */
  datatype StepResult = StepResult(core: Core, ctl: seq<Control>, stop: Stop, reset: bool)

  const U64: nat := 0x1_0000_0000_0000_0000
  const I64: nat := 0x8000_0000_0000_0000

  // ---------------------------------------------------------------- words

  const WORD_CONNECTION: seq<byte> := [99, 111, 110, 110, 101, 99, 116, 105, 111, 110]
  const WORD_PROXY_CONNECTION: seq<byte> :=
    [112, 114, 111, 120, 121, 45, 99, 111, 110, 110, 101, 99, 116, 105, 111, 110]
  const WORD_CONTENT_LENGTH: seq<byte> := [99, 111, 110, 116, 101, 110, 116, 45, 108, 101, 110, 103, 116, 104]
  const WORD_TRANSFER_ENCODING: seq<byte> :=
    [116, 114, 97, 110, 115, 102, 101, 114, 45, 101, 110, 99, 111, 100, 105, 110, 103]
  const WORD_UPGRADE: seq<byte> := [117, 112, 103, 114, 97, 100, 101]
  const WORD_CHUNKED: seq<byte> := [99, 104, 117, 110, 107, 101, 100]
  const WORD_KEEP_ALIVE: seq<byte> := [107, 101, 101, 112, 45, 97, 108, 105, 118, 101]
  const WORD_CLOSE: seq<byte> := [99, 108, 111, 115, 101]

  function MethodString(m: Method): (s: seq<byte>)
    ensures 3 <= |s| <= 11
  {
    match m
    case Delete => [68, 69, 76, 69, 84, 69]
    case Get => [71, 69, 84]
    case Head => [72, 69, 65, 68]
    case Post => [80, 79, 83, 84]
    case Put => [80, 85, 84]
    case Connect => [67, 79, 78, 78, 69, 67, 84]
    case Options => [79, 80, 84, 73, 79, 78, 83]
    case Trace => [84, 82, 65, 67, 69]
    case Copy => [67, 79, 80, 89]
    case Lock => [76, 79, 67, 75]
    case Mkcol => [77, 75, 67, 79, 76]
    case Move => [77, 79, 86, 69]
    case Propfind => [80, 82, 79, 80, 70, 73, 78, 68]
    case Proppatch => [80, 82, 79, 80, 80, 65, 84, 67, 72]
    case Unlock => [85, 78, 76, 79, 67, 75]
    case Report => [82, 69, 80, 79, 82, 84]
    case Mkactivity => [77, 75, 65, 67, 84, 73, 86, 73, 84, 89]
    case Checkout => [67, 72, 69, 67, 75, 79, 85, 84]
    case Merge => [77, 69, 82, 71, 69]
    case Msearch => [77, 45, 83, 69, 65, 82, 67, 72]
    case Notify => [78, 79, 84, 73, 70, 89]
    case Subscribe => [83, 85, 66, 83, 67, 82, 73, 66, 69]
    case Unsubscribe => [85, 78, 83, 85, 66, 83, 67, 82, 73, 66, 69]
  }

  // ---------------------------------------------------------------- results

  function Go(c: Core): StepResult { StepResult(c, [], Running, false) }

  function To(c: Core, s: State): StepResult { Go(c.(state := s)) }

  function Halt(c: Core, why: Stop): StepResult { StepResult(c, [], why, false) }

  function Fail(c: Core): StepResult { Halt(c, Error) }

  // ---------------------------------------------------------------- message boundaries

  /** `http_should_keep_alive` */
  predicate KeepAlive(c: Core) {
    if c.httpMajor > 0 && c.httpMinor > 0 then !c.flags.close else c.flags.keepAlive
  }

  function StartState(kind: ParserType): State {
    if kind.Request? then StartReq else StartRes
  }

  /** `NEW_MESSAGE` in strict mode. */
  function NewMessage(c: Core): Core {
    c.(state := if KeepAlive(c) then StartState(c.kind) else Dead)
  }

  function FreshMessage(c: Core): Core {
    c.(flags := NO_FLAGS, contentLength := U64 - 1)
  }

  /** The first guess at the method from its first byte. */
  function FirstMethod(ch: byte): Option<Method> {
    if ch == 67 then Some(Connect)
    else if ch == 68 then Some(Delete)
    else if ch == 71 then Some(Get)
    else if ch == 72 then Some(Head)
    else if ch == 76 then Some(Lock)
    else if ch == 77 then Some(Mkcol)
    else if ch == 78 then Some(Notify)
    else if ch == 79 then Some(Options)
    else if ch == 80 then Some(Post)
    else if ch == 82 then Some(Report)
    else if ch == 83 then Some(Subscribe)
    else if ch == 84 then Some(Trace)
    else if ch == 85 then Some(Unlock)
    else None
  }

  function AssignMethod(c: Core, ch: byte): StepResult {
    match FirstMethod(ch)
    case Some(m) => To(c.(index := 1, meth := m), ReqMethod)
    case None => Fail(c.(index := 1, meth := Delete))
  }

  function Begin(r: StepResult): StepResult {
    r.(ctl := [MessageBegin] + r.ctl)
  }

  predicate IsStartState(s: State) {
    s.StartReqOrRes? || s.ResOrRespH? || s.StartRes? || s.StartReq?
  }

  function StepStart(c: Core, ch: byte): StepResult
    requires IsStartState(c.state)
  {
    if c.state.ResOrRespH? then
      if ch == 84 then To(c.(kind := Response), ResHT)
      else if ch != 69 then Fail(c)
      else To(c.(kind := Request, meth := Head, index := 2), ReqMethod)
    else if !c.state.StartRes? && (ch == CR || ch == LF) then Go(c)
    else
      var c := FreshMessage(c);
      match c.state
      case StartReqOrRes => Begin(if ch == 72 then To(c, ResOrRespH) else AssignMethod(c.(kind := Request), ch))
      case StartRes => Begin(if ch == 72 then To(c, ResH) else if ch == CR || ch == LF then Go(c) else Fail(c))
      case _ => Begin(if IsUpper(ch) then AssignMethod(c, ch) else Fail(c))
  }

  // ---------------------------------------------------------------- versions and the status line

  /** A transition that depends on the state and the byte alone. */
  datatype Move = Next(state: State) | Reject

  function Apply(c: Core, m: Move): StepResult {
    match m
    case Next(s) => To(c, s)
    case Reject => Fail(c)
  }

  /** Strict mode: the byte must be `want`. */
  function Expect(ch: byte, want: byte, next: State): Move {
    if ch == want then Next(next) else Reject
  }

  predicate IsLiteralState(s: State) {
    s.ResH? || s.ResHT? || s.ResHTT? || s.ResHTTP? || s.ResStatus? || s.ResLineAlmostDone?
    || s.ReqHttpStart? || s.ReqHttpH? || s.ReqHttpHT? || s.ReqHttpHTT? || s.ReqHttpHTTP? || s.ReqLineAlmostDone?
  }

  function LiteralMove(s: State, ch: byte): Move
    requires IsLiteralState(s)
  {
    match s
    case ResH => Expect(ch, 84, ResHT)
    case ResHT => Expect(ch, 84, ResHTT)
    case ResHTT => Expect(ch, 80, ResHTTP)
    case ResHTTP => Expect(ch, SLASH, ResFirstMajor)
    case ResStatus =>
      if ch == CR then Next(ResLineAlmostDone) else if ch == LF then Next(HeaderFieldStart) else Next(ResStatus)
    case ResLineAlmostDone => Expect(ch, LF, HeaderFieldStart)
    case ReqHttpStart => if ch == 72 then Next(ReqHttpH) else if ch == SP then Next(ReqHttpStart) else Reject
    case ReqHttpH => Expect(ch, 84, ReqHttpHT)
    case ReqHttpHT => Expect(ch, 84, ReqHttpHTT)
    case ReqHttpHTT => Expect(ch, 80, ReqHttpHTTP)
    case ReqHttpHTTP => Expect(ch, SLASH, ReqFirstMajor)
    case _ => Expect(ch, LF, HeaderFieldStart)
  }

  predicate IsNumberState(s: State) {
    s.ResFirstMajor? || s.ResMajor? || s.ResFirstMinor? || s.ResMinor? || s.ResFirstStatus? || s.ResStatusCode?
    || s.ReqFirstMajor? || s.ReqMajor? || s.ReqFirstMinor? || s.ReqMinor?
  }

  /** One more decimal digit of a version or status number. */
  function Digits(n: nat, ch: byte): nat
    requires IsDigit(ch)
  {
    10 * n + (ch - 48)
  }

  function MajorDigit(c: Core, ch: byte): StepResult {
    if !IsDigit(ch) then Fail(c)
    else var c := c.(httpMajor := Digits(c.httpMajor, ch)); if c.httpMajor > 999 then Fail(c) else Go(c)
  }

  function MinorDigit(c: Core, ch: byte): StepResult {
    if !IsDigit(ch) then Fail(c)
    else var c := c.(httpMinor := Digits(c.httpMinor, ch)); if c.httpMinor > 999 then Fail(c) else Go(c)
  }

  function StatusDigit(c: Core, ch: byte): StepResult {
    if !IsDigit(ch) then Fail(c)
    else var c := c.(statusCode := Digits(c.statusCode, ch)); if c.statusCode > 999 then Fail(c) else Go(c)
  }

  function StepNumber(c: Core, ch: byte): StepResult
    requires IsNumberState(c.state)
  {
    match c.state
    case ResFirstMajor => if 49 <= ch <= 57 then To(c.(httpMajor := ch - 48), ResMajor) else Fail(c)
    case ReqFirstMajor => if 49 <= ch <= 57 then To(c.(httpMajor := ch - 48), ReqMajor) else Fail(c)
    case ResMajor => if ch == DOT then To(c, ResFirstMinor) else MajorDigit(c, ch)
    case ReqMajor => if ch == DOT then To(c, ReqFirstMinor) else MajorDigit(c, ch)
    case ResFirstMinor => if IsDigit(ch) then To(c.(httpMinor := ch - 48), ResMinor) else Fail(c)
    case ReqFirstMinor => if IsDigit(ch) then To(c.(httpMinor := ch - 48), ReqMinor) else Fail(c)
    case ResMinor => if ch == SP then To(c, ResFirstStatus) else MinorDigit(c, ch)
    case ReqMinor =>
      if ch == CR then To(c, ReqLineAlmostDone) else if ch == LF then To(c, HeaderFieldStart) else MinorDigit(c, ch)
    case ResFirstStatus =>
      if IsDigit(ch) then To(c.(statusCode := ch - 48), ResStatusCode) else if ch == SP then Go(c) else Fail(c)
    case _ =>
      if ch == SP then To(c, ResStatus)
      else if ch == CR then To(c, ResLineAlmostDone)
      else if ch == LF then To(c, HeaderFieldStart)
      else StatusDigit(c, ch)
  }

  // ---------------------------------------------------------------- request line

  /** The method a mismatching byte switches to. CONNECT and MKCOL accept any byte. */
  function SwitchMethod(m: Method, index: nat, ch: byte): Option<Method> {
    match m
    case Connect =>
      Some(if index == 1 && ch == 72 then Checkout else if index == 2 && ch == 80 then Copy else Connect)
    case Mkcol =>
      Some(if index == 1 && ch == 79 then Move
           else if index == 1 && ch == 69 then Merge
           else if index == 1 && ch == DASH then Msearch
           else if index == 2 && ch == 65 then Mkactivity
           else Mkcol)
    case Post =>
      if index == 1 && ch == 82 then Some(Propfind) else if index == 1 && ch == 85 then Some(Put) else None
    case Unlock => if index == 2 && ch == 83 then Some(Unsubscribe) else None
    case Propfind => if index == 4 && ch == 80 then Some(Proppatch) else None
    case _ => None
  }

  function StepMethod(c: Core, ch: byte): StepResult {
    var m := MethodString(c.meth);
    var next := c.(index := c.index + 1);
    if ch == 0 then Fail(c)
    else if c.index > |m| then Halt(c, OutOfBounds)
    else if ch == SP && c.index == |m| then To(next, ReqSpacesBeforeUrl)
    else if c.index < |m| && ch == m[c.index] then Go(next)
    else
      match SwitchMethod(c.meth, c.index, ch)
      case Some(other) => Go(next.(meth := other))
      case None => Fail(c)
  }

  predicate IsUrlState(s: State) {
    s.ReqSpacesBeforeUrl? || s.ReqSchema? || s.ReqSchemaSlash? || s.ReqSchemaSlashSlash? || s.ReqHost?
    || s.ReqPort? || s.ReqPath? || s.ReqQueryStart? || s.ReqQuery? || s.ReqFragmentStart? || s.ReqFragment?
  }

  /** The bytes that end a request target. */
  function EndTarget(ch: byte): Move {
    if ch == SP then Next(ReqHttpStart)
    else if ch == CR then Next(ReqLineAlmostDone)
    else if ch == LF then Next(HeaderFieldStart)
    else Reject
  }

  function UrlMove(s: State, ch: byte): Move
    requires IsUrlState(s)
  {
    match s
    case ReqSpacesBeforeUrl =>
      if ch == SP then Next(ReqSpacesBeforeUrl)
      else if ch == SLASH || ch == STAR then Next(ReqPath)
      else if IsAlpha(ch) then Next(ReqSchema)
      else Reject
    case ReqSchema =>
      if IsAlpha(ch) then Next(ReqSchema)
      else if ch == COLON then Next(ReqSchemaSlash)
      else if ch == DOT || IsDigit(ch) then Next(ReqHost)
      else Reject
    case ReqSchemaSlash => Expect(ch, SLASH, ReqSchemaSlashSlash)
    case ReqSchemaSlashSlash => Expect(ch, SLASH, ReqHost)
    case ReqHost =>
      if IsAlpha(ch) || IsDigit(ch) || ch == DOT || ch == DASH then Next(ReqHost)
      else if ch == COLON then Next(ReqPort)
      else if ch == SLASH then Next(ReqPath)
      else Expect(ch, SP, ReqHttpStart)
    case ReqPort =>
      if IsDigit(ch) then Next(ReqPort) else if ch == SLASH then Next(ReqPath) else Expect(ch, SP, ReqHttpStart)
    case ReqPath =>
      if IsUrlChar(ch) then Next(ReqPath)
      else if ch == QUESTION then Next(ReqQueryStart)
      else if ch == HASH then Next(ReqFragmentStart)
      else EndTarget(ch)
    case ReqQueryStart =>
      if IsUrlChar(ch) then Next(ReqQuery)
      else if ch == QUESTION then Next(ReqQueryStart)
      else if ch == HASH then Next(ReqFragmentStart)
      else EndTarget(ch)
    case ReqQuery =>
      if IsUrlChar(ch) || ch == QUESTION then Next(ReqQuery)
      else if ch == HASH then Next(ReqFragmentStart)
      else EndTarget(ch)
    case ReqFragmentStart =>
      if IsUrlChar(ch) || ch == QUESTION then Next(ReqFragment)
      else if ch == HASH then Next(ReqFragmentStart)
      else EndTarget(ch)
    case _ =>
      if IsUrlChar(ch) || ch == QUESTION || ch == HASH then Next(ReqFragment) else EndTarget(ch)
  }

  /** A request line that ends right after the target is an HTTP/0.9 request. */
  function StepUrl(c: Core, ch: byte): StepResult
    requires IsUrlState(c.state)
  {
    var m := UrlMove(c.state, ch);
    Apply(if m.Next? && (m.state.ReqLineAlmostDone? || m.state.HeaderFieldStart?)
          then c.(httpMajor := 0, httpMinor := 9) else c, m)
  }

  // ---------------------------------------------------------------- header fields

  predicate IsHeaderState(s: State) {
    s.HeaderFieldStart? || s.HeaderField? || s.HeaderValueStart? || s.HeaderValue? || s.HeaderAlmostDone?
    || s.HeadersAlmostDone?
  }

  /** The sub-state a first name byte selects; `t` is the byte's lower-case token. */
  function FirstNameState(t: byte): HeaderState {
    if t == 99 then MatchC
    else if t == 112 then MatchingProxyConnection
    else if t == 116 then MatchingTransferEncoding
    else if t == 117 then MatchingUpgrade
    else General
  }

  /** One more byte of a word that has matched up to `index`. */
  function MatchWord(word: seq<byte>, index: nat, t: byte, same: HeaderState, found: HeaderState): HeaderState {
    if index + 1 >= |word| || t != word[index + 1] then General
    else if index + 1 == |word| - 1 then found
    else same
  }

  /** The sub-state and index after one more name byte; `t` is its token. */
  function StepName(hs: HeaderState, index: nat, t: byte): (HeaderState, nat) {
    match hs
    case General => (General, index)
    case MatchC => (if t == 111 then MatchCO else General, index + 1)
    case MatchCO => (if t == 110 then MatchCON else General, index + 1)
    case MatchCON =>
      (if t == 110 then MatchingConnection else if t == 116 then MatchingContentLength else General, index + 1)
    case MatchingConnection => (MatchWord(WORD_CONNECTION, index, t, hs, IsConnection), index + 1)
    case MatchingProxyConnection => (MatchWord(WORD_PROXY_CONNECTION, index, t, hs, IsConnection), index + 1)
    case MatchingContentLength => (MatchWord(WORD_CONTENT_LENGTH, index, t, hs, IsContentLength), index + 1)
    case MatchingTransferEncoding =>
      (MatchWord(WORD_TRANSFER_ENCODING, index, t, hs, IsTransferEncoding), index + 1)
    case MatchingUpgrade => (MatchWord(WORD_UPGRADE, index, t, hs, IsUpgrade), index + 1)
    case _ => (if t == SP then hs else General, index)
  }

  /** The sub-states a header name can be in. */
  predicate IsNameState(hs: HeaderState) {
    !(hs.MatchingChunked? || hs.MatchingKeepAlive? || hs.MatchingClose?
      || hs.ValueChunked? || hs.ValueKeepAlive? || hs.ValueClose?)
  }

  function StepHeaderField(c: Core, ch: byte): StepResult {
    if Token(ch) != 0 then
      if !IsNameState(c.headerState) then Halt(c, AssertFailed)
      else
        var n := StepName(c.headerState, c.index, Token(ch));
        Go(c.(headerState := n.0, index := n.1))
    else if ch == COLON then To(c, HeaderValueStart)
    else if ch == CR then To(c, HeaderAlmostDone)
    else if ch == LF then To(c, HeaderFieldStart)
    else Fail(c)
  }

  function StepHeaderValueStart(c: Core, ch: byte): StepResult {
    if ch == SP then Go(c)
    else
      var v := c.(state := HeaderValue, index := 0);
      if ch == CR then To(v.(headerState := General), HeaderAlmostDone)
      else if ch == LF then To(v, HeaderFieldStart)
      else
        match c.headerState
        case IsUpgrade => Go(v.(flags := c.flags.(upgrade := true), headerState := General))
        case IsTransferEncoding => Go(v.(headerState := if Lower(ch) == 99 then MatchingChunked else General))
        case IsContentLength => if IsDigit(ch) then Go(v.(contentLength := ch - 48)) else Fail(v)
        case IsConnection =>
          Go(v.(headerState := if Lower(ch) == 107 then MatchingKeepAlive
                               else if Lower(ch) == 99 then MatchingClose else General))
        case _ => Go(v.(headerState := General))
  }

  /** The value sub-state and index after one more value byte; `t` is its lower-case byte. */
  function StepValue(hs: HeaderState, index: nat, t: byte, ch: byte): (HeaderState, nat) {
    match hs
    case MatchingChunked => (MatchWord(WORD_CHUNKED, index, t, hs, ValueChunked), index + 1)
    case MatchingKeepAlive => (MatchWord(WORD_KEEP_ALIVE, index, t, hs, ValueKeepAlive), index + 1)
    case MatchingClose => (MatchWord(WORD_CLOSE, index, t, hs, ValueClose), index + 1)
    case ValueChunked => (if ch == SP then hs else General, index)
    case ValueKeepAlive => (if ch == SP then hs else General, index)
    case ValueClose => (if ch == SP then hs else General, index)
    case _ => (General, index)
  }

  /** The flag a completed header line sets. */
  function LineFlags(f: Flags, hs: HeaderState): Flags {
    match hs
    case ValueKeepAlive => f.(keepAlive := true)
    case ValueClose => f.(close := true)
    case ValueChunked => f.(chunked := true)
    case _ => f
  }

  function StepHeaderValue(c: Core, ch: byte): StepResult {
    if ch == CR then To(c, HeaderAlmostDone)
    else if ch == LF then To(c.(flags := LineFlags(c.flags, c.headerState)), HeaderFieldStart)
    else if c.headerState.IsConnection? || c.headerState.IsTransferEncoding? then Halt(c, AssertFailed)
    else if c.headerState.IsContentLength? then
      if ch == SP then Go(c)
      else if IsDigit(ch) then Go(c.(contentLength := (c.contentLength * 10 + (ch - 48)) % U64))
      else Fail(c)
    else
      var v := StepValue(c.headerState, c.index, Lower(ch), ch);
      Go(c.(headerState := v.0, index := v.1))
  }

  /** The end of a header block (or of a trailer). */
  function EndHeaders(c: Core): StepResult {
    if c.flags.trailing then StepResult(NewMessage(c), [MessageComplete], Running, false)
    else
      var c := c.(upgrade := c.upgrade || c.flags.upgrade || c.meth.Connect?);
      if c.upgrade then StepResult(c, [HeadersComplete, MessageComplete], Upgraded, true)
      else if c.flags.skipBody then StepResult(NewMessage(c), [HeadersComplete, MessageComplete], Running, true)
      else if c.flags.chunked then StepResult(c.(state := ChunkSizeStart), [HeadersComplete], Running, true)
      else if c.contentLength == 0 then StepResult(NewMessage(c), [HeadersComplete, MessageComplete], Running, true)
      else StepResult(c.(state := BodyIdentity), [HeadersComplete], Running, true)
  }

  function StepHeader(c: Core, ch: byte): StepResult
    requires IsHeaderState(c.state)
  {
    match c.state
    case HeaderFieldStart =>
      if ch == CR then To(c, HeadersAlmostDone)
      else if ch == LF then EndHeaders(c.(state := HeadersAlmostDone))
      else if Token(ch) == 0 then Fail(c)
      else To(c.(index := 0, headerState := FirstNameState(Token(ch))), HeaderField)
    case HeaderField => StepHeaderField(c, ch)
    case HeaderValueStart => StepHeaderValueStart(c, ch)
    case HeaderValue => StepHeaderValue(c, ch)
    case HeaderAlmostDone =>
      if ch == LF then To(c.(flags := LineFlags(c.flags, c.headerState)), HeaderFieldStart) else Fail(c)
    case _ => if ch == LF then EndHeaders(c) else Fail(c)
  }

  // ---------------------------------------------------------------- bodies

  predicate IsChunkState(s: State) {
    s.ChunkSizeStart? || s.ChunkSize? || s.ChunkParameters? || s.ChunkSizeAlmostDone?
    || s.ChunkData? || s.ChunkDataAlmostDone? || s.ChunkDataDone?
  }

  function StepChunk(c: Core, ch: byte): StepResult
    requires IsChunkState(c.state)
  {
    if !c.flags.chunked then Halt(c, AssertFailed)
    else
      match c.state
      case ChunkSizeStart =>
        if Unhex(ch) == -1 then Fail(c) else To(c.(contentLength := Unhex(ch)), ChunkSize)
      case ChunkSize =>
        if ch == CR then To(c, ChunkSizeAlmostDone)
        else if Unhex(ch) != -1 then Go(c.(contentLength := (c.contentLength * 16 + Unhex(ch)) % U64))
        else if ch == SEMICOLON || ch == SP then To(c, ChunkParameters)
        else Fail(c)
      case ChunkParameters => if ch == CR then To(c, ChunkSizeAlmostDone) else Go(c)
      case ChunkSizeAlmostDone =>
        if ch != LF then Fail(c)
        else if c.contentLength == 0 then
          StepResult(c.(flags := c.flags.(trailing := true), state := HeaderFieldStart), [], Running, true)
        else StepResult(c.(state := ChunkData), [], Running, true)
      case ChunkData =>
        if c.contentLength >= I64 then Halt(c, OutOfBounds)
        else if c.contentLength <= 1 then To(c.(contentLength := 0), ChunkDataAlmostDone)
        else Go(c.(contentLength := c.contentLength - 1))
      case ChunkDataAlmostDone => Apply(c, Expect(ch, CR, ChunkDataDone))
      case _ => Apply(c, Expect(ch, LF, ChunkSizeStart))
  }

  function StepIdentity(c: Core): StepResult {
    if c.contentLength == 0 then Go(c)
    else
      var c := c.(contentLength := c.contentLength - 1);
      if c.contentLength == 0 then StepResult(NewMessage(c), [MessageComplete], Running, false) else Go(c)
  }

  /** The byte under the cursor is handed to `on_body`. */
  predicate DeliversBody(c: Core) {
    (c.state.BodyIdentity? && c.contentLength > 0)
    || c.state.BodyIdentityEof?
    || (c.state.ChunkData? && 0 < c.contentLength < I64 && c.flags.chunked)
  }

  // ---------------------------------------------------------------- the switch

  /** One iteration of the loop of `http_parser_execute`, without the header limit. */
  function Step(c: Core, ch: byte): StepResult {
    if c.state.Dead? then Fail(c)
    else if IsStartState(c.state) then StepStart(c, ch)
    else if IsLiteralState(c.state) then Apply(c, LiteralMove(c.state, ch))
    else if IsNumberState(c.state) then StepNumber(c, ch)
    else if c.state.ReqMethod? then StepMethod(c, ch)
    else if IsUrlState(c.state) then StepUrl(c, ch)
    else if IsHeaderState(c.state) then StepHeader(c, ch)
    else if IsChunkState(c.state) then StepChunk(c, ch)
    else if c.state.BodyIdentity? then StepIdentity(c)
    else Go(c)
  }

  // ---------------------------------------------------------------- wrapping around

  lemma {:induction false} ModuloShift(x: nat, q: nat)
    ensures (x + q * U64) % U64 == x % U64
    decreases q
  {
    if q > 0 {
      ModuloShift(x, q - 1);
      assert x + q * U64 == (x + (q - 1) * U64) + U64;
    }
  }
}
