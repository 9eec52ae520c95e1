/** Whole requests (sections 4.4 and 8.1 of RFC 2616): where a body ends, and what follows it on the connection. */
module HttpFraming {
  import opened HttpChars
  import opened HttpAutomaton
  import opened HttpShape
  import opened HttpInvariant
  import opened HttpRun
  import opened HttpCalls
  import opened HttpBody
  import opened HttpHeaderWords
  import opened HttpHeaders
  import opened HttpTargets
  import opened HttpChunked
  import opened HttpRequestLine

  // ---------------------------------------------------------------- messages

  datatype Payload =
    | Identity(data: seq<byte>)
    | Chunked(chunks: seq<Chunk>, last: SizeLine, trailer: seq<Line>, crlf: bool)

  datatype Message = Message(line: RequestLine, lines: seq<Line>, blank: bool, payload: Payload)

  predicate ValidPayload(lines: seq<Line>, p: Payload)
    requires GoodLines(lines)
  {
    match p
    case Identity(data) =>
      !Carries(lines, TransferEncoding, WORD_CHUNKED) && BlockLength(0xFFFF_FFFF_FFFF_FFFF, lines) == |data|
    case Chunked(ks, last, trailer, _) =>
      && Carries(lines, TransferEncoding, WORD_CHUNKED)
      && (forall i :: 0 <= i < |ks| ==> ValidChunk(ks[i]))
      && ValidSizeLine(last) && HexValue(last.digits) == 0 && GoodLines(trailer)
  }

  /** A request that does not ask for another protocol, with a body of the length its header lines announce. */
  predicate ValidMessage(m: Message) {
    && ValidRequestLine(m.line) && m.line.meth != Connect
    && GoodLines(m.lines) && !AsksUpgrade(m.lines)
    && ValidPayload(m.lines, m.payload)
  }

  function EncodePayload(p: Payload): seq<byte> {
    match p
    case Identity(data) => data
    case Chunked(ks, last, trailer, crlf) => EncodeBody(ks, last, trailer, crlf)
  }

  function EncodeMessage(m: Message): seq<byte> {
    EncodeRequestLine(m.line) + (EncodeAll(m.lines) + (Eol(m.blank) + EncodePayload(m.payload)))
  }

  /** The entity body the message carries. */
  function BodyOf(p: Payload): seq<byte> {
    match p
    case Identity(data) => data
    case Chunked(ks, _, _, _) => Data(ks)
  }

  /** The header lines that decide about the connection: a trailer counts. */
  function ConnectionLines(m: Message): seq<Line> {
    m.lines + (if m.payload.Chunked? then m.payload.trailer else [])
  }

  /** The connection persists: from HTTP/1.1 on unless a line says close, before that if a line says keep-alive. */
  predicate Persists(m: Message)
    requires ValidRequestLine(m.line)
  {
    if Number(m.line.version.major) > 0 && Number(m.line.version.minor) > 0
    then !Carries(ConnectionLines(m), Connection, WORD_CLOSE)
    else Carries(ConnectionLines(m), Connection, WORD_KEEP_ALIVE)
  }

  // ---------------------------------------------------------------- traces

  /** The offset of the header block, of the body, and of the end of a message at offset `at`. */
  function BlockAt(m: Message, at: nat): nat { at + |EncodeRequestLine(m.line)| }

  function BodyAt(m: Message, at: nat): nat { BlockAt(m, at) + |EncodeAll(m.lines)| + |Eol(m.blank)| }

  function PayloadLens(p: Payload, k: Slice, at: nat): seq<Out> {
    match p
    case Identity(data) => if k.Body? then Range(Body, at, at + |data|) else []
    case Chunked(ks, _, trailer, crlf) =>
      var tail := |EncodeAll(trailer)| + |Eol(crlf)|;
      var n := |EncodePayload(p)|;
      Lens(ChunksOuts(ks, at) + BlockOuts(trailer, if n >= tail then at + n - tail else 0), k)
  }

  /** What callback `k` sees of a message at stream offset `at`. */
  function MessageLens(m: Message, k: Slice, at: nat): seq<Out>
  {
    [Ctl(MessageBegin, at)] + TargetOuts(m.line.target, k, TargetAt(m.line, at))
    + (Lens(BlockOuts(m.lines, BlockAt(m, at)), k)
       + ([Ctl(HeadersComplete, BodyAt(m, at) - 1)]
          + (PayloadLens(m.payload, k, BodyAt(m, at)) + [Ctl(MessageComplete, at + |EncodeMessage(m)| - 1)])))
  }

  /** The parser between two requests. */
  predicate Between(c: Core) { c.kind.Request? && !c.upgrade && c.state.StartReq? }

  /** The parser behind a message that persists or not. */
  predicate Behind(d: Core, persists: bool) {
    d.kind.Request? && !d.upgrade && d.state == (if persists then StartReq else Dead)
  }

  // ---------------------------------------------------------------- the end of the header block

  /** The parser at the end of the header block. */
  predicate AtBlank(c: Core, m: Message)
    requires ValidMessage(m)
  {
    && c.state.HeaderFieldStart? && c.kind.Request? && !c.upgrade && c.meth == m.line.meth
    && c.flags == BlockFlags(NO_FLAGS, m.lines) && c.contentLength == BlockLength(0xFFFF_FFFF_FFFF_FFFF, m.lines)
    && c.httpMajor == Number(m.line.version.major) && c.httpMinor == Number(m.line.version.minor)
  }

  /** The request line and the header block of a message. */
  lemma HeadRun(c: Core, m: Message, at: nat, k: Slice)
    requires Between(c) && ValidMessage(m)
    ensures var s := EncodeRequestLine(m.line) + EncodeAll(m.lines);
            var r := Run(c, s, at);
            && r.stop.Running? && AtBlank(r.core, m)
            && Lens(r.outs, k) == [Ctl(MessageBegin, at)] + TargetOuts(m.line.target, k, TargetAt(m.line, at))
                                  + Lens(BlockOuts(m.lines, BlockAt(m, at)), k)
  {
    hide Run, EncodeRequestLine, EncodeAll, Lens, TargetOuts, BlockOuts, BlockFlags, BlockLength, Number,
         GoodLines, ValidPayload, TargetAt, AsksUpgrade;
    var a, b := EncodeRequestLine(m.line), EncodeAll(m.lines);
    RequestLineRun(c, m.line, at, k);
    var r1 := Run(c, a, at);
    BlockRun(r1.core, m.lines, at + |a|);
    var r2 := Run(r1.core, b, at + |a|);
    RunJoin(c, a, b, at, r1, r2);
    LensAppend(r1.outs, r2.outs, k);
  }

  /** What the end of the header block does: the headers are complete, and the body is framed as announced. */
  lemma BlankEnds(c: Core, m: Message)
    requires ValidMessage(m) && AtBlank(c, m)
    ensures var r := EndHeaders(c.(state := HeadersAlmostDone));
            && r.stop.Running? && !c.flags.trailing
            && match m.payload
               case Identity(data) =>
                 if |data| == 0 then
                   r.ctl == [HeadersComplete, MessageComplete] && r.core == NewMessage(c.(state := HeadersAlmostDone))
                 else r.ctl == [HeadersComplete] && r.core == c.(state := BodyIdentity) && c.contentLength == |data|
               case Chunked(_, _, _, _) =>
                 r.ctl == [HeadersComplete] && r.core == c.(state := ChunkSizeStart) && c.flags.chunked
  {
    hide BlockFlags, BlockLength, Number, Carries, AsksUpgrade, ValidRequestLine, GoodLines, ValidChunk, HexValue,
         ValidSizeLine, NewMessage;
    BlockFlagsByWords(NO_FLAGS, m.lines);
  }

  // ---------------------------------------------------------------- persistence

  lemma CarriesAppend(a: seq<Line>, b: seq<Line>, class_: NameClass, word: seq<byte>)
    ensures Carries(a + b, class_, word) <==> Carries(a, class_, word) || Carries(b, class_, word)
  {
    hide LineCarries;
    assert forall i :: 0 <= i < |a| ==> (a + b)[i] == a[i];
    assert forall i :: 0 <= i < |b| ==> (a + b)[|a| + i] == b[i];
    assert forall i :: |a| <= i < |a + b| ==> (a + b)[i] == b[i - |a|];
  }

  /** The flags at the end of the message. */
  function FinalFlags(m: Message): Flags {
    var f := BlockFlags(NO_FLAGS, m.lines);
    if m.payload.Chunked? then BlockFlags(f.(trailing := true), m.payload.trailer) else f
  }

  /** `http_should_keep_alive` at the end of a message is what its lines say. */
  lemma PersistsIsKeepAlive(c: Core, m: Message)
    requires ValidMessage(m) && c.flags == FinalFlags(m)
    requires c.httpMajor == Number(m.line.version.major) && c.httpMinor == Number(m.line.version.minor)
    ensures KeepAlive(c) <==> Persists(m)
  {
    hide BlockFlags, BlockLength, Number, Carries, AsksUpgrade, ValidRequestLine, ValidPayload, GoodLines;
    var f := BlockFlags(NO_FLAGS, m.lines);
    BlockFlagsByWords(NO_FLAGS, m.lines);
    if m.payload.Chunked? {
      BlockFlagsByWords(f.(trailing := true), m.payload.trailer);
      CarriesAppend(m.lines, m.payload.trailer, Connection, WORD_CLOSE);
      CarriesAppend(m.lines, m.payload.trailer, Connection, WORD_KEEP_ALIVE);
    } else {
      assert ConnectionLines(m) == m.lines;
    }
  }

  /** What a message leaves at its blank line. */
  lemma BlankState(d: Core, m: Message)
    requires ValidMessage(m) && AtBlank(d, m)
    ensures d.state.HeaderFieldStart? && d.kind.Request? && !d.upgrade
    ensures d.httpMajor == Number(m.line.version.major) && d.httpMinor == Number(m.line.version.minor)
    ensures m.payload.Identity? ==> d.flags == FinalFlags(m)
  {
    hide BlockFlags, BlockLength, Number, ValidMessage;
  }

  lemma NewMessageIsBehind(c: Core, m: Message)
    requires ValidMessage(m) && c.flags == FinalFlags(m) && c.kind.Request? && !c.upgrade
    requires c.httpMajor == Number(m.line.version.major) && c.httpMinor == Number(m.line.version.minor)
    ensures Behind(NewMessage(c), Persists(m))
  {
    hide FinalFlags, KeepAlive, ValidMessage, Number, Persists;
    PersistsIsKeepAlive(c, m);
  }

  // ---------------------------------------------------------------- bodies

  /** What the run over the blank line and the body owes the message. */
  predicate Finishes(r: RunResult, m: Message, k: Slice, at: nat)
    requires ValidMessage(m)
  {
    var p := at + |Eol(m.blank)|;
    && p > 0 && p + |EncodePayload(m.payload)| > 0
    && r.stop.Running? && Behind(r.core, Persists(m))
    && Lens(r.outs, k) == [Ctl(HeadersComplete, p - 1)]
                          + (PayloadLens(m.payload, k, p) + [Ctl(MessageComplete, p + |EncodePayload(m.payload)| - 1)])
  }

  lemma LensOfControls(at: nat, at': nat, k: Slice)
    ensures Lens(CtlAt([HeadersComplete], at), k) == [Ctl(HeadersComplete, at)]
    ensures Lens(CtlAt([MessageComplete], at), k) == [Ctl(MessageComplete, at)]
    ensures Lens([Ctl(MessageComplete, at)], k) == [Ctl(MessageComplete, at)]
    ensures Lens(CtlAt([HeadersComplete, MessageComplete], at), k)
            == [Ctl(HeadersComplete, at)] + [Ctl(MessageComplete, at)]
  {
    var a, b := Ctl(HeadersComplete, at), Ctl(MessageComplete, at);
    assert CtlAt([HeadersComplete], at) == [a] && [a][1..] == [];
    assert CtlAt([MessageComplete], at) == [b] && [b][1..] == [];
    assert CtlAt([HeadersComplete, MessageComplete], at) == [a, b] && [a, b][1..] == [b];
  }

  lemma EmptyPayload(m: Message, k: Slice, at: nat)
    requires m.payload == Identity([])
    ensures PayloadLens(m.payload, k, at) == [] && EncodePayload(m.payload) == []
  {
  }

  lemma EmptyIdentity(c: Core, m: Message, at: nat, k: Slice)
    requires ValidMessage(m) && AtBlank(c, m) && m.payload == Identity([])
    ensures Finishes(Run(c, Eol(m.blank) + EncodePayload(m.payload), at), m, k, at)
  {
    hide Run, BlockFlags, BlockLength, Number, Lens, ValidMessage, KeepAlive, EndHeaders, NewMessage, CtlAt, Persists,
         AtBlank, Eol, PayloadLens, EncodePayload, FinalFlags, Behind;
    BlankEnds(c, m);
    BlankState(c, m);
    BlankLineRun(c, m.blank, at);
    EolNonEmpty(m.blank);
    var p := at + |Eol(m.blank)|;
    EmptyPayload(m, k, p);
    NoEol(m.blank);
    NewMessageIsBehind(c.(state := HeadersAlmostDone), m);
    LensOfControls(p - 1, 0, k);
    NoOuts([Ctl(MessageComplete, p - 1)]);
  }

  lemma FullIdentity(c: Core, m: Message, at: nat, k: Slice)
    requires ValidMessage(m) && AtBlank(c, m) && m.payload.Identity? && m.payload.data != []
    ensures Finishes(Run(c, Eol(m.blank) + EncodePayload(m.payload), at), m, k, at)
  {
    hide Run, BlockFlags, BlockLength, Number, Lens, ValidMessage, KeepAlive, EndHeaders, NewMessage, CtlAt, Persists,
         Range;
    BlankEnds(c, m);
    BlankLineRun(c, m.blank, at);
    var p, s := at + |Eol(m.blank)|, m.payload.data;
    var d := c.(state := BodyIdentity);
    IdentityBulk(d, s, p);
    RunJoin(c, Eol(m.blank), s, at, Run(c, Eol(m.blank), at), Run(d, s, p));
    NewMessageIsBehind(d.(contentLength := 0), m);
    LensAppend(CtlAt([HeadersComplete], p - 1), Range(Body, p, p + |s|) + CtlAt([MessageComplete], p + |s| - 1), k);
    LensAppend(Range(Body, p, p + |s|), CtlAt([MessageComplete], p + |s| - 1), k);
    LensRange(Body, p, p + |s|, k);
    LensOfControls(p - 1, 0, k);
    LensOfControls(p + |s| - 1, 0, k);
  }

  lemma ChunkedPayload(c: Core, m: Message, at: nat, k: Slice)
    requires ValidMessage(m) && AtBlank(c, m) && m.payload.Chunked?
    ensures Finishes(Run(c, Eol(m.blank) + EncodePayload(m.payload), at), m, k, at)
  {
    hide Run, BlockFlags, BlockLength, Number, Lens, KeepAlive, EndHeaders, NewMessage, CtlAt, Persists, EncodeBody,
         ChunksOuts, BlockOuts, EncodeAll, Eol, GoodLines, HexValue, ValidSizeLine, ValidChunk, ValidRequestLine,
         AsksUpgrade, Carries;
    BlankEnds(c, m);
    BlankLineRun(c, m.blank, at);
    var p, s := at + |Eol(m.blank)|, EncodePayload(m.payload);
    var d := c.(state := ChunkSizeStart);
    var pl := m.payload;
    ChunkedBodyRun(d, pl.chunks, pl.last, pl.trailer, pl.crlf, p);
    BodyNonEmpty(pl.chunks, pl.last, pl.trailer, pl.crlf);
    EolNonEmpty(m.blank);
    var r := Run(d, s, p);
    RunJoin(c, Eol(m.blank), s, at, Run(c, Eol(m.blank), at), r);
    var e := d.(flags := BlockFlags(d.flags.(trailing := true), pl.trailer),
                contentLength := BlockLength(0, pl.trailer),
                state := HeadersAlmostDone, headerState := r.core.headerState, index := r.core.index);
    assert r.core == NewMessage(e);
    NewMessageIsBehind(e, m);
    var tail := |EncodeAll(pl.trailer)| + |Eol(pl.crlf)|;
    var a, b := ChunksOuts(pl.chunks, p), BlockOuts(pl.trailer, p + |s| - tail);
    var done := [Ctl(MessageComplete, p + |s| - 1)];
    OutsAssoc(a, b, done);
    LensAppend(a + b, done, k);
    LensAppend(CtlAt([HeadersComplete], p - 1), (a + b) + done, k);
    LensOfControls(p - 1, 0, k);
    LensOfControls(p + |s| - 1, 0, k);
  }

  lemma EolNonEmpty(crlf: bool)
    ensures |Eol(crlf)| > 0
  {
  }

  // ---------------------------------------------------------------- one message

  /** Framing: a request takes exactly its own bytes; every callback sees its slices, the control callbacks fire
      once each and in order, and the parser is ready for the next request exactly if the connection persists. */
  lemma MessageRun(c: Core, m: Message, at: nat, k: Slice)
    requires Between(c) && ValidMessage(m)
    ensures var r := Run(c, EncodeMessage(m), at);
            && r.stop.Running? && r.consumed == |EncodeMessage(m)| && Behind(r.core, Persists(m))
            && Lens(r.outs, k) == MessageLens(m, k, at)
  {
    hide Run, EncodeRequestLine, EncodeAll, Lens, TargetOuts, BlockOuts, Number, Eol, AtBlank, PayloadLens,
         EncodePayload, ValidMessage, Persists, Behind, TargetAt;
    var a, b := EncodeRequestLine(m.line) + EncodeAll(m.lines), Eol(m.blank) + EncodePayload(m.payload);
    assert EncodeMessage(m) == a + b;
    HeadRun(c, m, at, k);
    var r1 := Run(c, a, at);
    var at1 := at + |a|;
    TailRun(r1.core, m, at1, k);
    var r2 := Run(r1.core, b, at1);
    RunJoin(c, a, b, at, r1, r2);
    LensAppend(r1.outs, r2.outs, k);
    var x := [Ctl(MessageBegin, at)] + TargetOuts(m.line.target, k, TargetAt(m.line, at));
    var p := at1 + |Eol(m.blank)|;
    OutsAssoc(x, Lens(BlockOuts(m.lines, BlockAt(m, at)), k), Lens(r2.outs, k));
    assert p == BodyAt(m, at) && p + |EncodePayload(m.payload)| == at + |EncodeMessage(m)|;
  }

  lemma TailRun(c: Core, m: Message, at: nat, k: Slice)
    requires ValidMessage(m) && AtBlank(c, m)
    ensures Finishes(Run(c, Eol(m.blank) + EncodePayload(m.payload), at), m, k, at)
  {
    hide Finishes, Run, AtBlank, ValidMessage, EncodePayload;
    if m.payload.Chunked? {
      ChunkedPayload(c, m, at, k);
    } else if m.payload.data == [] {
      EmptyIdentity(c, m, at, k);
    } else {
      FullIdentity(c, m, at, k);
    }
  }

  // ---------------------------------------------------------------- the body of a message

  /** The body callback's bytes are decided by what it sees. */
  lemma {:induction false} DeliveredByLens(outs: seq<Out>, s: seq<byte>, at: nat)
    ensures Delivered(Lens(outs, Body), s, at) == Delivered(outs, s, at)
    decreases |outs|
  {
    hide Delivered, Lens;
    if outs == [] {
      LensEmpty(Body);
    } else {
      var first, rest := [outs[0]], outs[1..];
      assert outs == first + rest;
      DeliveredByLens(rest, s, at);
      DeliveredOne(outs[0], s, at);
      LensAppend(first, rest, Body);
      DeliveredAppend(first, rest, s, at);
      DeliveredAppend(Lens(first, Body), Lens(rest, Body), s, at);
    }
  }

  lemma DeliveredOne(o: Out, s: seq<byte>, at: nat)
    ensures Delivered(Lens([o], Body), s, at) == Delivered([o], s, at)
  {
    assert [o][1..] == [];
    assert Lens([o], Body) == [o] || Lens([o], Body) == [];
    assert Lens([o], Body) == [] ==> o.Byte? && o.slice != Body;
  }

  lemma LineHoldsNoBody(l: Line, at: nat)
    ensures Lens(LineOuts(l, at), Body) == []
  {
    hide Lens, Range, LineValue;
    var to := at + |l.name| + (if l.value.Some? then 1 + |l.value.value| else 0);
    ValueFits(l);
    LensRange(HeaderName, at, at + |l.name|, Body);
    LensRange(HeaderText, to - |LineValue(l)|, to, Body);
    LensAppend(Range(HeaderName, at, at + |l.name|), Range(HeaderText, to - |LineValue(l)|, to), Body);
  }

  lemma {:induction false} BlockHoldsNoBody(ls: seq<Line>, at: nat)
    ensures Lens(BlockOuts(ls, at), Body) == []
    decreases |ls|
  {
    hide Lens, LineOuts, Encode;
    if ls == [] {
      LensEmpty(Body);
    } else {
      BlockHoldsNoBody(ls[1..], at + |Encode(ls[0])|);
      LineHoldsNoBody(ls[0], at);
      LensAppend(LineOuts(ls[0], at), BlockOuts(ls[1..], at + |Encode(ls[0])|), Body);
    }
  }

  lemma IdentityDelivered(data: seq<byte>, pre: seq<byte>, at: nat)
    ensures Delivered(PayloadLens(Identity(data), Body, at + |pre|), pre + data, at) == data
  {
    hide Delivered, Range;
    var s, p := pre + data, at + |pre|;
    DeliveredRange(Body, p, p + |data|, s, at);
    assert s[|pre|..] == data;
  }

  lemma ChunkedDelivered(ks: seq<Chunk>, last: SizeLine, trailer: seq<Line>, crlf: bool, pre: seq<byte>, at: nat)
    ensures var p := Chunked(ks, last, trailer, crlf);
            Delivered(PayloadLens(p, Body, at + |pre|), pre + EncodePayload(p), at) == HttpChunked.Data(ks)
  {
    hide Delivered, Lens, EncodeChunks, EncodeSize, EncodeAll, ChunksOuts, BlockOuts, Eol, HttpChunked.Data;
    var pl := Chunked(ks, last, trailer, crlf);
    var s, p := pre + EncodePayload(pl), at + |pre|;
    var tail, n := |EncodeAll(trailer)| + |Eol(crlf)|, |EncodePayload(pl)|;
    var a, b := ChunksOuts(ks, p), BlockOuts(trailer, p + n - tail);
    assert Delivered(a, s, at) == HttpChunked.Data(ks) by {
      var post := EncodeSize(last) + (EncodeAll(trailer) + Eol(crlf));
      ChunksDelivered(ks, pre, post, at);
      assert pre + (EncodeChunks(ks) + post) == pre + EncodeChunks(ks) + post;
    }
    assert Delivered(b, s, at) == [] by { TrailerDeliversNothing(trailer, s, p + n - tail, at); }
    DeliveredByLens(a + b, s, at);
    DeliveredAppend(a, b, s, at);
  }

  /** What the payload hands over, inside a stream that holds it behind `pre`. */
  lemma PayloadDelivered(m: Message, pre: seq<byte>, at: nat)
    ensures var s := pre + EncodePayload(m.payload);
            Delivered(PayloadLens(m.payload, Body, at + |pre|), s, at) == BodyOf(m.payload)
  {
    hide Delivered, PayloadLens, EncodeBody, HttpChunked.Data;
    match m.payload {
      case Identity(data) => IdentityDelivered(data, pre, at);
      case Chunked(ks, last, trailer, crlf) => ChunkedDelivered(ks, last, trailer, crlf, pre, at);
    }
  }

  /** The body callback is handed exactly the body of the message: for an announced length n, n bytes. */
  lemma MessageBody(c: Core, m: Message, at: nat)
    requires Between(c) && ValidMessage(m)
    ensures Delivered(Run(c, EncodeMessage(m), at).outs, EncodeMessage(m), at) == BodyOf(m.payload)
  {
    hide Run, EncodeRequestLine, EncodeAll, Lens, BlockOuts, Number, Eol, PayloadLens, EncodePayload, ValidMessage,
         Persists, Behind, TargetAt, Delivered, BodyOf;
    var s := EncodeMessage(m);
    MessageRun(c, m, at, Body);
    DeliveredByLens(Run(c, s, at).outs, s, at);
    BlockHoldsNoBody(m.lines, BlockAt(m, at));
    var pre := EncodeRequestLine(m.line) + EncodeAll(m.lines) + Eol(m.blank);
    assert s == pre + EncodePayload(m.payload);
    PayloadDelivered(m, pre, at);
    assert at + |pre| == BodyAt(m, at);
    EolNonEmpty(m.blank);
    var x, y := [Ctl(MessageBegin, at)], [Ctl(HeadersComplete, BodyAt(m, at) - 1)];
    var z, b := [Ctl(MessageComplete, at + |s| - 1)], PayloadLens(m.payload, Body, BodyAt(m, at));
    NoBodyBytes(m.line.target, TargetAt(m.line, at));
    assert MessageLens(m, Body, at) == x + [] + ([] + (y + (b + z)));
    assert x + [] + ([] + (y + (b + z))) == x + (y + (b + z));
    DeliveredAppend(x, y + (b + z), s, at);
    DeliveredAppend(y, b + z, s, at);
    DeliveredAppend(b, z, s, at);
    ControlDeliversNothing(MessageBegin, at, s, at);
    ControlDeliversNothing(HeadersComplete, BodyAt(m, at) - 1, s, at);
    ControlDeliversNothing(MessageComplete, at + |s| - 1, s, at);
  }

  // ---------------------------------------------------------------- pipelines

  function EncodeMessages(ms: seq<Message>): seq<byte> {
    if ms == [] then [] else EncodeMessage(ms[0]) + EncodeMessages(ms[1..])
  }

  /** Valid requests that all persist, except perhaps the last. */
  predicate ValidPipeline(ms: seq<Message>) {
    && (forall i :: 0 <= i < |ms| ==> ValidMessage(ms[i]))
    && (forall i :: 0 <= i < |ms| - 1 ==> Persists(ms[i]))
  }

  /** The parser behind a pipeline: ready, unless its last request closes the connection. */
  predicate BehindAll(d: Core, ms: seq<Message>)
    requires ValidPipeline(ms)
  {
    Behind(d, ms == [] || Persists(ms[|ms| - 1]))
  }

  /** What callback `k` sees of a pipeline: what it sees of each message, one after the other. */
  function PipelineLens(ms: seq<Message>, k: Slice, at: nat): seq<Out>
  {
    if ms == [] then [] else MessageLens(ms[0], k, at) + PipelineLens(ms[1..], k, at + |EncodeMessage(ms[0])|)
  }

  /** Pipelining: the trace of a sequence of requests is the concatenation of their traces. */
  lemma {:induction false} PipelineRun(c: Core, ms: seq<Message>, at: nat, k: Slice)
    requires Between(c) && ValidPipeline(ms)
    ensures var r := Run(c, EncodeMessages(ms), at);
            && r.stop.Running? && r.consumed == |EncodeMessages(ms)| && BehindAll(r.core, ms)
            && Lens(r.outs, k) == PipelineLens(ms, k, at)
    decreases |ms|
  {
    hide Run, EncodeMessage, ValidMessage, Lens, MessageLens, Persists;
    if ms == [] {
      RunNil(c, at, Run(c, [], at));
      LensEmpty(k);
    } else {
      var a, b := EncodeMessage(ms[0]), EncodeMessages(ms[1..]);
      MessageRun(c, ms[0], at, k);
      var r1 := Run(c, a, at);
      if |ms| == 1 {
        assert b == [] && a + b == a;
        LensEmpty(k);
        assert PipelineLens(ms[1..], k, at + |a|) == [];
        NoOuts(MessageLens(ms[0], k, at));
      } else {
        PipelineRun(r1.core, ms[1..], at + |a|, k);
        var r2 := Run(r1.core, b, at + |a|);
        RunJoin(c, a, b, at, r1, r2);
        LensAppend(r1.outs, r2.outs, k);
      }
    }
  }

  /** After a request that closes the connection, the next byte stops the parser, at the end of that request. */
  lemma NothingAfterClose(c: Core, ms: seq<Message>, more: seq<byte>, at: nat)
    requires Between(c) && ValidPipeline(ms) && ms != [] && !Persists(ms[|ms| - 1]) && more != []
    ensures var r := Run(c, EncodeMessages(ms) + more, at);
            r.stop.Error? && r.consumed == |EncodeMessages(ms)| && r.outs == Run(c, EncodeMessages(ms), at).outs
  {
    hide Run, EncodeMessages, ValidPipeline, Persists, PipelineLens, Lens;
    var a := EncodeMessages(ms);
    PipelineRun(c, ms, at, Body);
    var d := Run(c, a, at).core;
    DeadStops(d, more, at + |a|);
    RunJoin(c, a, more, at, Run(c, a, at), Run(d, more, at + |a|));
    NoOuts(Run(c, a, at).outs);
  }

  lemma DeadStops(d: Core, s: seq<byte>, at: nat)
    requires d.state.Dead? && s != []
    ensures Run(d, s, at) == RunResult(d, [], 0, Error)
  {
    hide Step;
    StepCases(d, s[0]);
    assert StepOuts(d, s[0], at) == [];
  }

  /** The same over any number of calls: however the stream of requests is cut, and below the header limit, every
      callback sees what `PipelineLens` says, and the parser is left behind the last request. */
  lemma PipelineInPieces(s: Saved, ms: seq<Message>, pieces: seq<seq<byte>>, at: nat, k: Slice)
    requires Inv(s.core, s.nread) && Between(s.core) && ValidPipeline(ms)
    requires pieces != [] && forall i :: 0 <= i < |pieces| ==> pieces[i] != []
    requires Concat(pieces) == EncodeMessages(ms)
    requires Allowed(s.core, s.nread, EncodeMessages(ms)) == |EncodeMessages(ms)|
    ensures var f := Feed(s, pieces, at);
            && f.stop.Running? && f.consumed == |EncodeMessages(ms)| && BehindAll(f.saved.core, ms)
            && Lens(f.outs, k) == PipelineLens(ms, k, at)
  {
    hide Run, Inv, Allowed, Feed, Lens, PipelineLens, EncodeMessages, ValidPipeline, BehindAll, Concat;
    FeedIsRun(s, s.nread, pieces, at);
    PipelineRun(s.core, ms, at, k);
  }

  // ---------------------------------------------------------------- messages without a length

  /** The length of a block is that of its last line that sets one; without such a line it stays. */
  lemma {:induction false} BlockLengthIs(n: nat, ls: seq<Line>)
    requires GoodLines(ls)
    ensures (forall i :: 0 <= i < |ls| ==> !SetsLength(ls[i])) ==> BlockLength(n, ls) == n
    ensures forall i :: 0 <= i < |ls| && SetsLength(ls[i]) && (forall j :: i < j < |ls| ==> !SetsLength(ls[j])) ==>
              BlockLength(n, ls) == Decimal(LineValue(ls[i])) % 0x1_0000_0000_0000_0000
  {
    hide SetsLength, GoodLine, LineValue, Decimal, DigitsAndSpaces;
    if forall i :: 0 <= i < |ls| ==> !SetsLength(ls[i]) { NothingSets(n, ls); }
    forall i | 0 <= i < |ls| && SetsLength(ls[i]) && (forall j :: i < j < |ls| ==> !SetsLength(ls[j]))
      ensures GoodLine(ls[i]) && DigitsAndSpaces(LineValue(ls[i]))
      ensures BlockLength(n, ls) == Decimal(LineValue(ls[i])) % 0x1_0000_0000_0000_0000
    {
      SettingLineIsGood(ls[i]);
      LastSets(n, ls, i);
    }
  }

  lemma {:induction false} LastSets(n: nat, ls: seq<Line>, i: nat)
    requires GoodLines(ls) && i < |ls| && SetsLength(ls[i]) && forall j :: i < j < |ls| ==> !SetsLength(ls[j])
    ensures DigitsAndSpaces(LineValue(ls[i]))
    ensures BlockLength(n, ls) == Decimal(LineValue(ls[i])) % 0x1_0000_0000_0000_0000
    decreases |ls|
  {
    hide SetsLength, GoodLine, LineValue, Decimal, DigitsAndSpaces;
    SettingLineIsGood(ls[i]);
    OneLineLength(n, ls[0]);
    var rest := ls[1..];
    if i > 0 {
      LastSets(LengthAfter(n, ls[0]), rest, i - 1);
    } else {
      NothingSets(LengthAfter(n, ls[0]), rest);
    }
  }

  lemma {:induction false} NothingSets(n: nat, ls: seq<Line>)
    requires GoodLines(ls) && forall i :: 0 <= i < |ls| ==> !SetsLength(ls[i])
    ensures BlockLength(n, ls) == n
    decreases |ls|
  {
    hide SetsLength, GoodLine;
    if ls != [] {
      OneLineLength(n, ls[0]);
      NothingSets(n, ls[1..]);
    }
  }

  lemma OneLineLength(n: nat, l: Line)
    requires GoodLine(l)
    ensures SetsLength(l) ==>
              DigitsAndSpaces(LineValue(l)) && LengthAfter(n, l) == Decimal(LineValue(l)) % 0x1_0000_0000_0000_0000
    ensures !SetsLength(l) ==> LengthAfter(n, l) == n
  {
  }

  lemma SettingLineIsGood(l: Line)
    requires GoodLine(l) && SetsLength(l)
    ensures DigitsAndSpaces(LineValue(l))
  {
  }

  /** A request that is neither chunked nor an upgrade: it is complete at its blank line exactly if its length is 0, and
      otherwise the parser waits for as many body bytes. Without a line that sets a length these are 2^64 - 1, although
      section 4.4 of RFC 2616 gives such a request no body. */
  lemma CompletesAtBlankIff(c: Core, line: RequestLine, lines: seq<Line>, blank: bool, at: nat)
    requires Between(c) && ValidRequestLine(line) && line.meth != Connect && GoodLines(lines)
    requires !AsksUpgrade(lines) && !Carries(lines, TransferEncoding, WORD_CHUNKED)
    ensures var head, n := EncodeRequestLine(line) + EncodeAll(lines), BlockLength(0xFFFF_FFFF_FFFF_FFFF, lines);
            var r, end := Run(c, head + Eol(blank), at), at + |head| + |Eol(blank)| - 1;
            && r.stop.Running?
            && (r.outs == Run(c, head, at).outs + CtlAt([HeadersComplete, MessageComplete], end) <==> n == 0)
            && (n != 0 ==> r.core.state.BodyIdentity? && r.core.contentLength == n
                           && r.outs == Run(c, head, at).outs + CtlAt([HeadersComplete], end))
            && ((forall i :: 0 <= i < |lines| ==> !SetsLength(lines[i])) ==> n == 0xFFFF_FFFF_FFFF_FFFF)
  {
    hide Run, EncodeRequestLine, EncodeAll, Lens, TargetOuts, BlockOuts, BlockLength, Number, Eol, AtBlank,
         TargetAt, AsksUpgrade, Carries, SetsLength, CtlAt, ValidRequestLine, GoodLines;
    var head, n := EncodeRequestLine(line) + EncodeAll(lines), BlockLength(0xFFFF_FFFF_FFFF_FFFF, lines);
    var m := Message(line, lines, blank, Identity(seq(n, _ => 0)));
    HeadRun(c, m, at, Body);
    BlockLengthIs(0xFFFF_FFFF_FFFF_FFFF, lines);
    var d := Run(c, head, at).core;
    BlankCompletesIff(d, m, at + |head|);
    RunJoin(c, head, Eol(blank), at, Run(c, head, at), Run(d, Eol(blank), at + |head|));
    EolNonEmpty(blank);
    CtlLengths(at + |head| + |Eol(blank)| - 1);
  }

  lemma BlankCompletesIff(d: Core, m: Message, at: nat)
    requires ValidMessage(m) && AtBlank(d, m) && m.payload.Identity?
    ensures var n, r, end := |m.payload.data|, Run(d, Eol(m.blank), at), at + |Eol(m.blank)| - 1;
            && end >= 0 && r.stop.Running?
            && r.outs == CtlAt(if n == 0 then [HeadersComplete, MessageComplete] else [HeadersComplete], end)
            && (n != 0 ==> r.core.state.BodyIdentity? && r.core.contentLength == n)
  {
    hide Run, Number, Eol, AtBlank, CtlAt, ValidMessage, EndHeaders, NewMessage, FinalFlags;
    BlankEnds(d, m);
    BlankState(d, m);
    BlankLineRun(d, m.blank, at);
    EolNonEmpty(m.blank);
  }

  lemma CtlLengths(at: nat)
    ensures |CtlAt([HeadersComplete, MessageComplete], at)| == 2 && |CtlAt([HeadersComplete], at)| == 1
  {
  }

  // ---------------------------------------------------------------- upgrades

  /** The parser at the end of any header block of a request. */
  lemma AnyHeadRun(c: Core, line: RequestLine, lines: seq<Line>, at: nat)
    requires Between(c) && ValidRequestLine(line) && GoodLines(lines)
    ensures var r := Run(c, EncodeRequestLine(line) + EncodeAll(lines), at);
            && r.stop.Running? && r.core.state.HeaderFieldStart? && !r.core.upgrade && r.core.meth == line.meth
            && r.core.flags == BlockFlags(NO_FLAGS, lines)
  {
    hide Run, EncodeRequestLine, EncodeAll, BlockOuts, BlockFlags, BlockLength, Number, GoodLines;
    var a, b := EncodeRequestLine(line), EncodeAll(lines);
    RequestLineRun(c, line, at, Body);
    BlockRun(Run(c, a, at).core, lines, at + |a|);
    RunJoin(c, a, b, at, Run(c, a, at), Run(Run(c, a, at).core, b, at + |a|));
  }

  /** The end of the blank line, if it is an upgrade. */
  lemma BlankUpgrades(d: Core, blank: bool, at: nat)
    requires d.state.HeaderFieldStart? && EndHeaders(d.(state := HeadersAlmostDone)).stop.Upgraded?
    ensures var r, end := Run(d, Eol(blank), at), |Eol(blank)| - 1;
            && end >= 0 && r.stop.Upgraded? && r.consumed == end
            && r.outs == CtlAt(EndHeaders(d.(state := HeadersAlmostDone)).ctl, at + end)
  {
    hide Run, Step, EndHeaders;
    var e := d.(state := HeadersAlmostDone);
    StepCases(d, CR);
    BlankOuts(d, at);
    if blank {
      BlankOuts(e, at + 1);
      assert Step(d, CR) == Go(e) && StepOuts(d, CR, at) == [] by { assert OpenSlices(HeadersAlmostDone) == []; }
      RunOne(d, CR, at);
      RunSnoc(d, [CR], LF, at);
      assert [CR] + [LF] == Eol(true);
      NoOuts(StepOuts(e, LF, at + 1));
    } else {
      RunOne(d, LF, at);
    }
  }

  lemma UpgradeCases(e: Core)
    requires !e.upgrade && !e.flags.trailing
    ensures var r := EndHeaders(e);
            && (r.stop.Upgraded? <==> e.flags.upgrade || e.meth.Connect?)
            && (r.stop.Upgraded? ==> r.ctl == [HeadersComplete, MessageComplete])
            && (!r.stop.Upgraded? ==> r.stop.Running?)
  {
    hide KeepAlive;
  }

  /** Any request with good header lines: the parser stops at the line feed of the blank line, for the application to
      take the connection over, exactly if a line asks for an upgrade or the method is CONNECT; it has fired both
      headers-complete and complete there. Otherwise it goes on. */
  lemma UpgradeStopsIff(c: Core, line: RequestLine, lines: seq<Line>, blank: bool, at: nat)
    requires Between(c) && ValidRequestLine(line) && GoodLines(lines)
    ensures var head := EncodeRequestLine(line) + EncodeAll(lines);
            var r, end := Run(c, head + Eol(blank), at), |head| + |Eol(blank)| - 1;
            && end >= 0
            && (r.stop.Upgraded? <==> AsksUpgrade(lines) || line.meth == Connect)
            && (r.stop.Upgraded? ==>
                  && r.consumed == end
                  && r.outs == Run(c, head, at).outs + CtlAt([HeadersComplete, MessageComplete], at + end))
            && (!r.stop.Upgraded? ==> r.stop.Running?)
  {
    hide Run, EncodeRequestLine, EncodeAll, BlockFlags, GoodLines, ValidRequestLine, EndHeaders, Eol, AsksUpgrade,
         Carries;
    var head := EncodeRequestLine(line) + EncodeAll(lines);
    AnyHeadRun(c, line, lines, at);
    BlockFlagsByWords(NO_FLAGS, lines);
    var d := Run(c, head, at).core;
    UpgradeCases(d.(state := HeadersAlmostDone));
    EolNonEmpty(blank);
    if EndHeaders(d.(state := HeadersAlmostDone)).stop.Upgraded? {
      BlankUpgrades(d, blank, at + |head|);
    } else {
      BlankLineRun(d, blank, at + |head|);
    }
    RunJoin(c, head, Eol(blank), at, Run(c, head, at), Run(d, Eol(blank), at + |head|));
  }
}
