/** The header limit message by message: a pipeline of any length passes if every message keeps its own parts short. */
module HttpLimits {
  import opened HttpChars
  import opened HttpAutomaton
  import opened HttpShape
  import opened HttpRun
  import opened HttpLog
  import opened HttpGrammar
  import opened HttpSplit
  import opened HttpInvariant
  import opened HttpBody
  import opened HttpCalls
  import opened HttpHanded
  import opened HttpMarks
  import opened HttpTargets
  import opened HttpHeaders
  import opened HttpChunked
  import opened HttpRequestLine
  import opened HttpFraming

  // ---------------------------------------------------------------- input that passes

  /** The input runs through to `d`, the limit lets it pass with `n` bytes counted before, and at most `n'` are counted
      behind it. */
  predicate Passes(c: Core, n: nat, s: seq<byte>, d: Core, n': nat) {
    Run(c, s, 0).stop.Running? && Run(c, s, 0).core == d && Allowed(c, n, s) == |s| && Count(c, n, s) <= n'
  }

  lemma {:induction false} CountMonotone(c: Core, n: nat, n': nat, s: seq<byte>)
    requires n <= n'
    ensures Count(c, n, s) <= Count(c, n', s) && Count(c, n, s) <= n + |s|
    decreases |s|
  {
    hide Step;
    if s != [] {
      CountMonotone(Step(c, s[0]).core, CountStep(c, n, s[0]), CountStep(c, n', s[0]), s[1..]);
    }
  }

  lemma PassesThen(c: Core, n: nat, a: seq<byte>, d: Core, n1: nat, b: seq<byte>, e: Core, n2: nat)
    requires Passes(c, n, a, d, n1) && Passes(d, n1, b, e, n2)
    ensures Passes(c, n, a + b, e, n2)
  {
    hide Run, Count, Allowed;
    RunAppend(c, a, b, 0);
    RunOffset(d, b, 0, |a|);
    AllowedAppend(c, n, a, b);
    CountAppend(c, n, a, b);
    AllowedMonotone(d, n1, Count(c, n, a), b);
    CountMonotone(d, Count(c, n, a), n1, b);
  }

  lemma PassesShort(c: Core, n: nat, s: seq<byte>)
    requires n + |s| <= MAX_HEADER_SIZE && Run(c, s, 0).stop.Running?
    ensures Passes(c, n, s, Run(c, s, 0).core, n + |s|)
  {
    hide Run, Count, Allowed;
    ShortInputsAreAllowed(c, n, s);
    CountMonotone(c, n, n, s);
  }

  /** Short input whose last byte resets the counter. */
  lemma PassesReset(c: Core, n: nat, t: seq<byte>, ch: byte)
    requires n + |t| + 1 <= MAX_HEADER_SIZE && Run(c, t, 0).stop.Running?
    requires Step(Run(c, t, 0).core, ch).stop.Running? && Step(Run(c, t, 0).core, ch).reset
    ensures Passes(c, n, t + [ch], Step(Run(c, t, 0).core, ch).core, 0)
  {
    hide Run, Step, Allowed;
    RunSnoc(c, t, ch, 0);
    ShortInputsAreAllowed(c, n, t + [ch]);
    CountAppend(c, n, t, [ch]);
    CountNil(Step(Run(c, t, 0).core, ch).core, 0);
    CountCons(Run(c, t, 0).core, Count(c, n, t), [ch]);
    assert [ch][1..] == [];
  }

  // ---------------------------------------------------------------- chunks

  lemma SizePasses(c: Core, n: nat, l: SizeLine)
    requires c.state.ChunkSizeStart? && c.flags.chunked && ValidSizeLine(l) && n + |EncodeSize(l)| <= MAX_HEADER_SIZE
    ensures Passes(c, n, EncodeSize(l), BehindSize(c, HexValue(l.digits) % U64), 0)
  {
    hide Run, Step, StepOuts, HexValue, Passes;
    DigitsRun(c, l.digits, 0);
    var d := c.(state := ChunkSize, contentLength := HexValue(l.digits) % U64);
    ExtensionRun(d, l.extension, |l.digits|);
    var s := l.digits + l.extension;
    var e := if l.extension == [] then d else d.(state := ChunkParameters);
    RunJoin(c, l.digits, l.extension, 0, Run(c, l.digits, 0), Run(d, l.extension, |l.digits|));
    SizeEndStep(e, |s|);
    RunSnoc(c, s, CR, 0);
    SizeLfStep(e.(state := ChunkSizeAlmostDone), |s| + 1);
    PassesReset(c, n, s + [CR], LF);
    assert s + [CR] + [LF] == EncodeSize(l);
  }

  lemma DataEndPasses(c: Core)
    requires c.state.ChunkDataAlmostDone? && c.flags.chunked
    ensures Passes(c, 0, [CR, LF], c.(state := ChunkSizeStart), 0)
  {
    hide Run, Step, Allowed;
    DataEndSteps(c, 0);
    DataCrStep(c, 0);
    DataLfStep(c.(state := ChunkDataDone), 1);
    ShortInputsAreAllowed(c, 0, [CR, LF]);
    CountCons(c, 0, [CR, LF]);
    assert [CR, LF][1..] == [LF] && [LF][1..] == [];
    CountCons(c.(state := ChunkDataDone), 0, [LF]);
    CountNil(c.(state := ChunkSizeStart), 0);
  }

  lemma ChunkPasses(c: Core, k: Chunk)
    requires c.state.ChunkSizeStart? && c.flags.chunked && ValidChunk(k) && |EncodeSize(k.size)| <= MAX_HEADER_SIZE
    ensures Passes(c, 0, EncodeChunk(k), c.(contentLength := 0), 0)
  {
    hide Run, Step, EncodeSize, HexValue, Count, Allowed;
    var n, s := |k.data|, EncodeSize(k.size);
    SizePasses(c, 0, k.size);
    assert n % U64 == n;
    var d := c.(contentLength := n, state := ChunkData);
    ChunkDataBulk(d, k.data, 0);
    ChunkDataUncounted(d, 0, k.data);
    var e := d.(contentLength := 0, state := ChunkDataAlmostDone);
    PassesThen(c, 0, s, d, 0, k.data, e, 0);
    DataEndPasses(e);
    PassesThen(c, 0, s + k.data, e, 0, [CR, LF], e.(state := ChunkSizeStart), 0);
  }

  lemma PassesNothing(c: Core, n: nat)
    ensures Passes(c, n, [], c, n)
  {
  }

  lemma {:induction false} ChunksPass(c: Core, ks: seq<Chunk>)
    requires c.state.ChunkSizeStart? && c.flags.chunked && forall i :: 0 <= i < |ks| ==> ValidChunk(ks[i])
    requires forall i :: 0 <= i < |ks| ==> |EncodeSize(ks[i].size)| <= MAX_HEADER_SIZE
    ensures Passes(c, 0, EncodeChunks(ks), if ks == [] then c else c.(contentLength := 0), 0)
    decreases |ks|
  {
    hide Passes, ValidChunk, EncodeSize, EncodeChunk;
    if ks == [] {
      PassesNothing(c, 0);
    } else {
      var d := c.(contentLength := 0);
      ChunkPasses(c, ks[0]);
      ChunksPass(d, ks[1..]);
      PassesThen(c, 0, EncodeChunk(ks[0]), d, 0, EncodeChunks(ks[1..]), d, 0);
    }
  }

  // ---------------------------------------------------------------- messages

  /** The bytes of a message that still count when the next one starts: those of a trailer. */
  function Carry(m: Message): nat {
    match m.payload
    case Identity(_) => 0
    case Chunked(_, _, trailer, crlf) => |EncodeAll(trailer)| + |Eol(crlf)|
  }

  /** The bytes up to the blank line. */
  function HeadLength(m: Message): nat { |EncodeRequestLine(m.line)| + |EncodeAll(m.lines)| + |Eol(m.blank)| }

  /** The head of the message, with what is carried over to it, its size lines and its trailer each fit the limit. The
      body may be as long as it likes. */
  predicate WithinLimit(m: Message, carried: nat) {
    && carried + HeadLength(m) <= 81920
    && match m.payload
       case Identity(_) => true
       case Chunked(ks, last, _, _) =>
         && (forall i :: 0 <= i < |ks| ==> |EncodeSize(ks[i].size)| <= 81920)
         && |EncodeSize(last)| <= 81920 && Carry(m) <= 81920
  }

  predicate AllWithinLimit(ms: seq<Message>, carried: nat) {
    ms == [] || (WithinLimit(ms[0], carried) && AllWithinLimit(ms[1..], Carry(ms[0])))
  }

  /** The line feed of the blank line resets the counter. */
  lemma BlankResets(d: Core, m: Message)
    requires ValidMessage(m) && AtBlank(d, m)
    ensures var e, r := d.(state := HeadersAlmostDone), EndHeaders(d.(state := HeadersAlmostDone));
            && Step(e, LF) == r && Step(d, LF) == r && Step(d, CR) == Go(e) && r.reset && r.stop.Running?
  {
    hide Step, EndHeaders, ValidMessage, BlockFlags, BlockLength, Number;
    var e := d.(state := HeadersAlmostDone);
    BlankEnds(d, m);
    StepCases(d, CR);
    StepCases(d, LF);
    StepCases(e, LF);
    UntrailedResets(e);
  }

  lemma UntrailedResets(e: Core)
    requires !e.flags.trailing
    ensures EndHeaders(e).reset
  {
    hide KeepAlive;
  }

  lemma HeadPasses(c: Core, n: nat, m: Message)
    requires Between(c) && ValidMessage(m) && n + HeadLength(m) <= 81920
    ensures var head := EncodeRequestLine(m.line) + EncodeAll(m.lines);
            && Run(c, head, 0).stop.Running? && AtBlank(Run(c, head, 0).core, m)
            && Passes(c, n, head + Eol(m.blank), EndHeaders(Run(c, head, 0).core.(state := HeadersAlmostDone)).core, 0)
  {
    hide Run, Step, StepOuts, EncodeRequestLine, EncodeAll, Lens, EndHeaders, ValidMessage, AtBlank, Passes;
    var head := EncodeRequestLine(m.line) + EncodeAll(m.lines);
    HeadRun(c, m, 0, Body);
    var d := Run(c, head, 0).core;
    BlankResets(d, m);
    if m.blank {
      RunSnoc(c, head, CR, 0);
      PassesReset(c, n, head + [CR], LF);
      assert head + [CR] + [LF] == head + Eol(true);
    } else {
      PassesReset(c, n, head, LF);
    }
  }

  lemma LastPasses(c: Core, p: Payload)
    requires c.state.ChunkSizeStart? && c.flags.chunked && p.Chunked?
    requires ValidSizeLine(p.last) && HexValue(p.last.digits) == 0 && GoodLines(p.trailer)
    requires |EncodeSize(p.last)| <= MAX_HEADER_SIZE && |EncodeAll(p.trailer)| + |Eol(p.crlf)| <= MAX_HEADER_SIZE
    ensures var s := EncodeSize(p.last) + (EncodeAll(p.trailer) + Eol(p.crlf));
            Passes(c, 0, s, Run(c, s, 0).core, |EncodeAll(p.trailer)| + |Eol(p.crlf)|)
  {
    hide Run, EncodeSize, EncodeAll, HexValue, GoodLines, Passes, Eol, BehindBody, BlockOuts, BehindSize;
    assert HexValue(p.last.digits) % U64 == 0;
    var b, t := EncodeSize(p.last), EncodeAll(p.trailer) + Eol(p.crlf);
    SizePasses(c, 0, p.last);
    SizeLineRun(c, p.last, 0);
    LastChunkRun(c, p.last, p.trailer, p.crlf, 0);
    var d := BehindSize(c, 0);
    RunAppend(c, b, t, 0);
    RunOffset(d, t, 0, |b|);
    PassesShort(d, 0, t);
    PassesThen(c, 0, b, d, 0, t, Run(d, t, 0).core, |t|);
  }

  lemma PayloadPasses(d: Core, m: Message, n: nat)
    requires ValidMessage(m) && AtBlank(d, m) && WithinLimit(m, n)
    ensures var e := EndHeaders(d.(state := HeadersAlmostDone)).core;
            Passes(e, 0, EncodePayload(m.payload), Run(e, EncodePayload(m.payload), 0).core, Carry(m))
  {
    hide Run, Step, EncodeSize, EncodeAll, EndHeaders, AtBlank, Passes, EncodeChunks, HexValue, GoodLines, NewMessage,
         Eol, Allowed, Count, ValidRequestLine, AsksUpgrade, Carries, ValidChunk, ValidSizeLine;
    BlankEnds(d, m);
    var e := EndHeaders(d.(state := HeadersAlmostDone)).core;
    match m.payload {
      case Identity(data) =>
        if data == [] {
          PassesNothing(e, 0);
          RunNil(e, 0, Run(e, [], 0));
        } else {
          IdentityPasses(e, data);
        }
      case Chunked(ks, last, trailer, crlf) =>
        ChunksPass(e, ks);
        var f := if ks == [] then e else e.(contentLength := 0);
        LastPasses(f, m.payload);
        var tail := EncodeSize(last) + (EncodeAll(trailer) + Eol(crlf));
        PassesThen(e, 0, EncodeChunks(ks), f, 0, tail, Run(f, tail, 0).core, Carry(m));
        PassedCore(e, 0, EncodePayload(m.payload), Run(f, tail, 0).core, Carry(m));
    }
  }

  lemma PassedCore(c: Core, n: nat, s: seq<byte>, d: Core, n': nat)
    requires Passes(c, n, s, d, n')
    ensures Run(c, s, 0).core == d && Run(c, s, 0).stop.Running?
  {
  }

  lemma IdentityPasses(e: Core, data: seq<byte>)
    requires e.state.BodyIdentity? && 0 < |data| == e.contentLength
    ensures Passes(e, 0, data, Run(e, data, 0).core, 0)
  {
    hide Run, Count, Allowed;
    IdentityBulk(e, data, 0);
    IdentityUncounted(e, 0, data);
  }

  /** A message that keeps its parts short passes, whatever the length of its body. */
  lemma MessagePasses(c: Core, n: nat, m: Message)
    requires Between(c) && ValidMessage(m) && WithinLimit(m, n)
    ensures Passes(c, n, EncodeMessage(m), Run(c, EncodeMessage(m), 0).core, Carry(m))
  {
    hide Run, EncodeRequestLine, EncodeAll, EndHeaders, AtBlank, ValidMessage, Passes, EncodePayload, HeadLength, Carry,
         EncodeSize;
    var head := EncodeRequestLine(m.line) + EncodeAll(m.lines);
    HeadPasses(c, n, m);
    var d := Run(c, head, 0).core;
    var e := EndHeaders(d.(state := HeadersAlmostDone)).core;
    PayloadPasses(d, m, n);
    var s := EncodePayload(m.payload);
    PassesThen(c, n, head + Eol(m.blank), e, 0, s, Run(e, s, 0).core, Carry(m));
    assert head + Eol(m.blank) + s == EncodeMessage(m);
    PassedCore(c, n, EncodeMessage(m), Run(e, s, 0).core, Carry(m));
  }

  // ---------------------------------------------------------------- pipelines

  lemma {:induction false} PipelinePasses(c: Core, n: nat, ms: seq<Message>)
    requires Between(c) && ValidPipeline(ms) && AllWithinLimit(ms, n)
    ensures Allowed(c, n, EncodeMessages(ms)) == |EncodeMessages(ms)|
    decreases |ms|
  {
    hide Run, EncodeMessage, ValidMessage, WithinLimit, Carry, Persists, Count, Allowed;
    if ms == [] {
      PassesNothing(c, n);
    } else {
      var a, b := EncodeMessage(ms[0]), EncodeMessages(ms[1..]);
      MessagePasses(c, n, ms[0]);
      if |ms| == 1 {
        assert a + b == a;
      } else {
        MessageRun(c, ms[0], 0, Body);
        var d := Run(c, a, 0).core;
        PipelinePasses(d, Carry(ms[0]), ms[1..]);
        AllowedAppend(c, n, a, b);
        AllowedMonotone(d, Carry(ms[0]), Count(c, n, a), b);
      }
    }
  }

  /** A pipeline of any length, in any nonempty pieces: every callback sees what `PipelineLens` says, and the parser is
      left behind the last request, if every message keeps its own parts within the header limit. */
  lemma PipelineWithinLimit(s: Saved, ms: seq<Message>, pieces: seq<seq<byte>>, at: nat, k: Slice)
    requires Inv(s.core, s.nread) && Between(s.core) && ValidPipeline(ms) && AllWithinLimit(ms, s.nread)
    requires NonEmpty(pieces) && Concat(pieces) == EncodeMessages(ms)
    ensures var f := Feed(s, pieces, at);
            && f.stop.Running? && f.consumed == |EncodeMessages(ms)| && BehindAll(f.saved.core, ms)
            && Lens(f.outs, k) == PipelineLens(ms, k, at) == Handed(f, at, k)
  {
    hide Run, Inv, Allowed, Feed, Lens, PipelineLens, EncodeMessages, ValidPipeline, BehindAll, Concat,
         AllWithinLimit;
    PipelinePasses(s.core, s.nread, ms);
    PipelineInPieces(s, ms, pieces, at, k);
    FeedShape(s, pieces, at);
    AllHanded(Feed(s, pieces, at), at, k);
  }

  lemma AllHanded(f: CallResult, at: nat, k: Slice)
    requires f.open == map[]
    ensures Handed(f, at, k) == Lens(f.outs, k)
  {
  }

  // ---------------------------------------------------------------- where the limit strikes

  /** A request parser outside a body: between messages, in a head or in a trailer. */
  predicate BeforeBody(c: Core) {
    c.kind.Request? && (c.state.StartReq? || c.state.Dead? || InRequestLine(c.state) || IsHeaderState(c.state))
  }

  predicate NoEndOfHeaders(outs: seq<Out>) {
    forall i :: 0 <= i < |outs| ==> !(outs[i].Ctl? && outs[i].event.HeadersComplete?)
  }

  /** Every byte there is counted, unless it ends the header block. */
  lemma HeaderByteCounts(c: Core, n: nat, ch: byte)
    requires BeforeBody(c) && Step(c, ch).stop.Running? && HeadersComplete !in Step(c, ch).ctl
    ensures BeforeBody(Step(c, ch).core) && CountStep(c, n, ch) == n + 1 && ParsingHeader(c.state)
  {
    hide Step, InRequestLine, IsHeaderState;
    HeaderStatesCount(c.state);
    if c.state.StartReq? {
      StartCounts(c, ch);
    } else if c.state.Dead? {
      StepCases(c, ch);
      assert false;
    } else if InRequestLine(c.state) {
      LineTarget(c, ch);
      LineGroups(c.state);
      QuietLine(c, ch);
      LineCounts(Step(c, ch).core.state);
    } else {
      HeaderCounts(c, ch);
    }
  }

  lemma HeaderStatesCount(s: State)
    requires s.StartReq? || s.Dead? || InRequestLine(s) || IsHeaderState(s)
    ensures ParsingHeader(s)
  {
  }

  lemma LineGroups(s: State)
    requires InRequestLine(s)
    ensures IsUrlState(s) || s.ReqMethod? || IsLiteralState(s) || IsNumberState(s)
  {
  }

  lemma LineCounts(s: State)
    requires InRequestLine(s) || s.HeaderFieldStart?
    ensures InRequestLine(s) || IsHeaderState(s)
  {
  }

  lemma StartCounts(c: Core, ch: byte)
    requires c.kind.Request? && c.state.StartReq? && Step(c, ch).stop.Running?
    ensures BeforeBody(Step(c, ch).core) && !Step(c, ch).reset
  {
    hide Step, AssignMethod;
    StepCases(c, ch);
    AssignMethodFrame(FreshMessage(c), ch);
  }

  lemma HeaderCounts(c: Core, ch: byte)
    requires c.kind.Request? && IsHeaderState(c.state) && Step(c, ch).stop.Running?
    requires HeadersComplete !in Step(c, ch).ctl
    ensures BeforeBody(Step(c, ch).core) && !Step(c, ch).reset
  {
    hide Step, EndHeaders, StepHeaderField, StepHeaderValueStart, StepHeaderValue;
    StepCases(c, ch);
    if EndsBlock(c, ch) {
      var d := c.(state := HeadersAlmostDone);
      assert c.state.HeadersAlmostDone? ==> c == d;
      EndHeadersCases(d);
      TrailingKeeps(d);
    } else {
      HeaderLineFrame(c, ch);
      HeaderResets(c, ch);
    }
  }

  lemma TrailingKeeps(e: Core)
    requires HeadersComplete !in EndHeaders(e).ctl
    ensures e.flags.trailing && !EndHeaders(e).reset
  {
    hide KeepAlive;
  }

  lemma HeaderResets(c: Core, ch: byte)
    requires IsHeaderState(c.state) && !EndsBlock(c, ch)
    ensures !StepHeader(c, ch).reset
  {
    hide StepName, StepValue, MatchWord;
  }

  /** A run outside a body that does not end a header block: the limit lets `81920 - n` bytes pass. */
  lemma {:induction false} HeadCounts(c: Core, n: nat, s: seq<byte>, at: nat)
    requires BeforeBody(c) && n <= 81920
    requires Run(c, s, at).stop.Running? && NoEndOfHeaders(Run(c, s, at).outs)
    ensures Count(c, n, s) == n + |s|
    ensures Allowed(c, n, s) == if n + |s| <= 81920 then |s| else 81920 - n
    decreases |s|
  {
    hide Step, CountStep, BeforeBody, StepOuts;
    if s != [] {
      var r := Step(c, s[0]);
      var rest := Run(r.core, s[1..], at + 1);
      assert Run(c, s, at).outs == StepOuts(c, s[0], at) + rest.outs;
      NoEndParts(StepOuts(c, s[0], at), rest.outs);
      StepFires(c, s[0], at);
      HeaderByteCounts(c, n, s[0]);
      if n < MAX_HEADER_SIZE {
        HeadCounts(r.core, n + 1, s[1..], at + 1);
      } else {
        CountOnly(r.core, n + 1, s[1..], at + 1);
      }
    }
  }

  lemma {:induction false} CountOnly(c: Core, n: nat, s: seq<byte>, at: nat)
    requires BeforeBody(c) && Run(c, s, at).stop.Running? && NoEndOfHeaders(Run(c, s, at).outs)
    ensures Count(c, n, s) == n + |s|
    decreases |s|
  {
    hide Step, CountStep, BeforeBody, StepOuts;
    if s != [] {
      var r := Step(c, s[0]);
      var rest := Run(r.core, s[1..], at + 1);
      assert Run(c, s, at).outs == StepOuts(c, s[0], at) + rest.outs;
      NoEndParts(StepOuts(c, s[0], at), rest.outs);
      StepFires(c, s[0], at);
      HeaderByteCounts(c, n, s[0]);
      CountOnly(r.core, n + 1, s[1..], at + 1);
    }
  }

  lemma NoEndParts(a: seq<Out>, b: seq<Out>)
    requires NoEndOfHeaders(a + b)
    ensures NoEndOfHeaders(a) && NoEndOfHeaders(b)
  {
    assert forall i :: 0 <= i < |a| ==> (a + b)[i] == a[i];
    assert forall i :: 0 <= i < |b| ==> (a + b)[|a| + i] == b[i];
  }

  /** What a byte fires is among its observables. */
  lemma StepFires(c: Core, ch: byte, at: nat)
    requires NoEndOfHeaders(StepOuts(c, ch, at))
    ensures HeadersComplete !in Step(c, ch).ctl
  {
    hide Step;
    var r := Step(c, ch);
    var body := if DeliversBody(c) then [Byte(Body, at)] else [];
    var bytes := if r.stop.Running? then BytesAt(OpenSlices(r.core.state), at) else [];
    assert StepOuts(c, ch, at) == body + CtlAt(r.ctl, at) + bytes;
    NoEndParts(body + CtlAt(r.ctl, at), bytes);
    NoEndParts(body, CtlAt(r.ctl, at));
    assert forall i :: 0 <= i < |r.ctl| ==> CtlAt(r.ctl, at)[i] == Ctl(r.ctl[i], at);
  }

  /** A control callback is seen by every callback. */
  lemma {:induction false} LensKeepsSignals(outs: seq<Out>, k: Slice)
    requires NoEndOfHeaders(Lens(outs, k))
    ensures NoEndOfHeaders(outs)
    decreases |outs|
  {
    if outs != [] {
      var first, rest := [outs[0]], outs[1..];
      assert outs == first + rest;
      LensAppend(first, rest, k);
      LensOne(outs[0], k);
      NoEndParts(Lens(first, k), Lens(rest, k));
      LensKeepsSignals(rest, k);
      if outs[0].Ctl? { assert Lens(first, k) == first && Lens(first, k)[0] == outs[0]; }
    }
  }

  /** A request whose line and header lines are longer than what is left of 81920 bytes is refused at the byte behind
      these, however the stream goes on. */
  lemma HeadIsLimited(c: Core, n: nat, m: Message, more: seq<byte>, at: nat)
    requires Between(c) && ValidMessage(m) && n <= 81920
    requires n + |EncodeRequestLine(m.line) + EncodeAll(m.lines)| > 81920
    ensures var f := Call(Saved(c, n), EncodeRequestLine(m.line) + EncodeAll(m.lines) + more, at);
            f.stop.Error? && f.consumed == 81920 - n
  {
    hide Run, Allowed, Count, EncodeRequestLine, EncodeAll, Lens, TargetOuts, BlockOuts, ValidMessage, AtBlank,
         OpenMarks;
    var s := EncodeRequestLine(m.line) + EncodeAll(m.lines);
    HeadRun(c, m, at, Body);
    NoBodyBytes(m.line.target, TargetAt(m.line, at));
    BlockHoldsNoBody(m.lines, BlockAt(m, at));
    var outs := Run(c, s, at).outs;
    assert Lens(outs, Body) == [Ctl(MessageBegin, at)];
    LensKeepsSignals(outs, Body);
    HeadCounts(c, n, s, at);
    AllowedStuck(c, n, s, more);
    RunsUpToLimit(c, n, s + more, at);
  }
}
