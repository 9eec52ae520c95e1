/** The header limit exactly: a request, and a pipeline of requests, passes if and only if each of its parts fits. */
module HttpLimitIff {
  import opened HttpChars
  import opened HttpAutomaton
  import opened HttpShape
  import opened HttpRun
  import opened HttpCalls
  import opened HttpSplit
  import opened HttpTargets
  import opened HttpHeaders
  import opened HttpChunked
  import opened HttpRequestLine
  import opened HttpFraming
  import opened HttpLimits

  // ---------------------------------------------------------------- input that is counted

  /** The limit leaves the input alone. */
  predicate Whole(c: Core, n: nat, s: seq<byte>) { Allowed(c, n, s) == |s| }

  /** If the limit leaves two parts alone, then each of them. */
  lemma WholeParts(c: Core, n: nat, a: seq<byte>, b: seq<byte>)
    requires Whole(c, n, a + b) && Run(c, a, 0).stop.Running?
    ensures Whole(c, n, a) && Whole(Run(c, a, 0).core, Count(c, n, a), b)
  {
    hide Run, Allowed, Count;
    AllowedPrefix(c, n, a, b);
    AllowedAppend(c, n, a, b);
  }

  /** Input whose bytes are all counted, and one more. */
  lemma CountedFits(c: Core, n: nat, t: seq<byte>, ch: byte)
    requires Whole(c, n, t + [ch]) && Run(c, t, 0).stop.Running?
    requires Count(c, n, t) == n + |t| && ParsingHeader(Run(c, t, 0).core.state)
    ensures n + |t| + 1 <= 81920
  {
    hide Run, Count;
    WholeParts(c, n, t, [ch]);
  }

  // ---------------------------------------------------------------- the head

  lemma HeadFits(c: Core, n: nat, m: Message)
    requires Between(c) && ValidMessage(m)
    requires Whole(c, n, EncodeRequestLine(m.line) + EncodeAll(m.lines) + Eol(m.blank))
    ensures n + HeadLength(m) <= 81920
  {
    hide Run, Step, StepOuts, Count, Allowed, EncodeRequestLine, EncodeAll, ValidMessage, BlockOuts, AtBlank, Lens,
         TargetOuts, BeforeBody, EndHeaders;
    var s := EncodeRequestLine(m.line) + EncodeAll(m.lines);
    HeadRun(c, m, 0, Body);
    NoBodyBytes(m.line.target, TargetAt(m.line, 0));
    BlockHoldsNoBody(m.lines, BlockAt(m, 0));
    var r := Run(c, s, 0);
    assert Lens(r.outs, Body) == [Ctl(MessageBegin, 0)];
    LensKeepsSignals(r.outs, Body);
    BetweenIsOutside(c);
    BlankResets(r.core, m);
    BlankStates(r.core, m);
    if m.blank {
      RunSnoc(c, s, CR, 0);
      NothingFires(r.core, |s|);
      NoOuts(r.outs);
      CountOnly(c, n, s + [CR], 0);
      assert s + [CR] + [LF] == s + Eol(true);
      CountedFits(c, n, s + [CR], LF);
    } else {
      CountOnly(c, n, s, 0);
      CountedFits(c, n, s, LF);
    }
  }

  lemma BetweenIsOutside(c: Core)
    requires Between(c)
    ensures BeforeBody(c)
  {
  }

  lemma BlankStates(d: Core, m: Message)
    requires ValidMessage(m) && AtBlank(d, m)
    ensures d.state.HeaderFieldStart? && ParsingHeader(d.state) && ParsingHeader(HeadersAlmostDone)
  {
    hide ValidMessage;
  }

  lemma NothingFires(d: Core, at: nat)
    requires Step(d, CR) == Go(d.(state := HeadersAlmostDone)) && d.state.HeaderFieldStart?
    ensures StepOuts(d, CR, at) == []
  {
    hide Step;
    assert OpenSlices(HeadersAlmostDone) == [];
    CtlNone(at);
  }

  // ---------------------------------------------------------------- size lines

  predicate InSizeLine(c: Core) {
    c.flags.chunked && (c.state.ChunkSizeStart? || c.state.ChunkSize? || c.state.ChunkParameters?)
  }

  lemma SizeByteCounts(c: Core, n: nat, ch: byte)
    requires InSizeLine(c) && ch != CR && Step(c, ch).stop.Running?
    ensures InSizeLine(Step(c, ch).core) && CountStep(c, n, ch) == n + 1
  {
    hide Step;
    StepCases(c, ch);
  }

  lemma {:induction false} SizeLineCounts(c: Core, n: nat, s: seq<byte>, at: nat)
    requires InSizeLine(c) && CR !in s && Run(c, s, at).stop.Running?
    ensures Count(c, n, s) == n + |s| && InSizeLine(Run(c, s, at).core)
    decreases |s|
  {
    hide Step, CountStep, InSizeLine, StepOuts;
    if s != [] {
      SizeByteCounts(c, n, s[0]);
      SizeLineCounts(Step(c, s[0]).core, n + 1, s[1..], at + 1);
    }
  }

  lemma SizeFits(c: Core, n: nat, l: SizeLine)
    requires c.state.ChunkSizeStart? && c.flags.chunked && ValidSizeLine(l) && Whole(c, n, EncodeSize(l))
    ensures n + |EncodeSize(l)| <= 81920
  {
    hide Run, Step, StepOuts, Count, CountStep, Allowed, HexValue;
    var s := l.digits + l.extension;
    var d := c.(state := ChunkSize, contentLength := HexValue(l.digits) % 0x1_0000_0000_0000_0000);
    var e := if l.extension == [] then d else d.(state := ChunkParameters);
    DigitsRun(c, l.digits, 0);
    ExtensionRun(d, l.extension, |l.digits|);
    RunJoin(c, l.digits, l.extension, 0, Run(c, l.digits, 0), Run(d, l.extension, |l.digits|));
    DigitsHoldNoCr(l);
    SizeLineCounts(c, n, s, 0);
    SizeEndStep(e, |s|);
    RunSnoc(c, s, CR, 0);
    CountAppend(c, n, s, [CR]);
    CountCons(e, n + |s|, [CR]);
    CountNil(e.(state := ChunkSizeAlmostDone), n + |s| + 1);
    assert [CR][1..] == [];
    SizeEndCounts(e, n + |s|);
    assert s + [CR] + [LF] == EncodeSize(l);
    CountedFits(c, n, s + [CR], LF);
  }

  lemma DigitsHoldNoCr(l: SizeLine)
    requires ValidSizeLine(l)
    ensures CR !in l.digits + l.extension
  {
    assert forall i :: 0 <= i < |l.digits| ==> IsHex(l.digits[i]);
  }

  lemma SizeEndCounts(e: Core, n: nat)
    requires (e.state.ChunkSize? || e.state.ChunkParameters?) && Step(e, CR) == To(e, ChunkSizeAlmostDone)
    ensures CountStep(e, n, CR) == n + 1 && ParsingHeader(ChunkSizeAlmostDone)
  {
    hide Step;
  }

  // ---------------------------------------------------------------- chunks and trailers

  lemma {:induction false} ChunksFit(c: Core, ks: seq<Chunk>, rest: seq<byte>)
    requires c.state.ChunkSizeStart? && c.flags.chunked && (forall i :: 0 <= i < |ks| ==> ValidChunk(ks[i]))
    requires Whole(c, 0, EncodeChunks(ks) + rest)
    ensures forall i :: 0 <= i < |ks| ==> |EncodeSize(ks[i].size)| <= 81920
    ensures Whole(if ks == [] then c else c.(contentLength := 0), 0, rest)
    decreases |ks|
  {
    hide Run, Allowed, Count, ValidChunk, EncodeSize, Whole;
    if ks == [] {
      assert EncodeChunks(ks) + rest == rest;
    } else {
      var k, more, d := ks[0], EncodeChunks(ks[1..]) + rest, c.(contentLength := 0);
      assert EncodeChunks(ks) + rest == EncodeChunk(k) + more;
      ChunkFits(c, k, more);
      ChunkPasses(c, k);
      WholeParts(c, 0, EncodeChunk(k), more);
      ChunksFit(d, ks[1..], rest);
    }
  }

  lemma ChunkFits(c: Core, k: Chunk, more: seq<byte>)
    requires c.state.ChunkSizeStart? && c.flags.chunked && ValidChunk(k) && Whole(c, 0, EncodeChunk(k) + more)
    ensures |EncodeSize(k.size)| <= 81920
  {
    hide Allowed, EncodeSize;
    var b := k.data + [CR, LF] + more;
    assert EncodeChunk(k) + more == EncodeSize(k.size) + b;
    AllowedPrefix(c, 0, EncodeSize(k.size), b);
    SizeFits(c, 0, k.size);
  }

  /** The last chunk and the trailer: each fits, and the trailer is counted to its last byte. */
  lemma LastFits(c: Core, p: Payload)
    requires c.state.ChunkSizeStart? && c.flags.chunked && c.kind.Request? && p.Chunked?
    requires ValidSizeLine(p.last) && HexValue(p.last.digits) == 0 && GoodLines(p.trailer)
    requires Whole(c, 0, EncodeSize(p.last) + (EncodeAll(p.trailer) + Eol(p.crlf)))
    ensures var n := |EncodeAll(p.trailer)| + |Eol(p.crlf)|;
            && |EncodeSize(p.last)| <= 81920 && n <= 81920
            && Count(c, 0, EncodeSize(p.last) + (EncodeAll(p.trailer) + Eol(p.crlf))) == n
  {
    hide Run, Allowed, Count, EncodeSize, EncodeAll, HexValue, GoodLines, Eol, BehindSize;
    var b, t := EncodeSize(p.last), EncodeAll(p.trailer) + Eol(p.crlf);
    AllowedPrefix(c, 0, b, t);
    SizeFits(c, 0, p.last);
    SizePasses(c, 0, p.last);
    var d := BehindSize(c, 0);
    WholeParts(c, 0, b, t);
    CountAppend(c, 0, b, t);
    TrailerCounts(c, d, p);
  }

  lemma TrailerCounts(c: Core, d: Core, p: Payload)
    requires c.state.ChunkSizeStart? && c.flags.chunked && c.kind.Request? && p.Chunked? && d == BehindSize(c, 0)
    requires ValidSizeLine(p.last) && HexValue(p.last.digits) == 0 && GoodLines(p.trailer)
    ensures var t := EncodeAll(p.trailer) + Eol(p.crlf);
            Count(d, 0, t) == |t| && (Whole(d, 0, t) ==> |t| <= 81920)
  {
    hide Run, Allowed, Count, EncodeSize, EncodeAll, HexValue, GoodLines, Eol, BlockOuts, Lens;
    var b, t := EncodeSize(p.last), EncodeAll(p.trailer) + Eol(p.crlf);
    SizeLineRun(c, p.last, 0);
    LastChunkRun(c, p.last, p.trailer, p.crlf, 0);
    RunAppend(c, b, t, 0);
    NoOuts(Run(d, t, |b|).outs);
    var outs := Run(d, t, |b|).outs;
    BlockHoldsNoBody(p.trailer, |b|);
    var end := Ctl(MessageComplete, |b| + |t| - 1);
    LensAppend(BlockOuts(p.trailer, |b|), [end], Body);
    LensOne(end, Body);
    assert Lens(outs, Body) == [end];
    LensKeepsSignals(outs, Body);
    HeadCounts(d, 0, t, |b|);
  }

  // ---------------------------------------------------------------- messages

  lemma PayloadFits(e: Core, m: Message, n: nat)
    requires GoodLines(m.lines) && ValidPayload(m.lines, m.payload) && n + HeadLength(m) <= 81920
    requires m.payload.Chunked? ==> e.state.ChunkSizeStart? && e.flags.chunked && e.kind.Request?
    requires Whole(e, 0, EncodePayload(m.payload))
    ensures WithinLimit(m, n)
    ensures m.payload.Chunked? ==> Count(e, 0, EncodePayload(m.payload)) == Carry(m)
  {
    hide Run, Allowed, Count, EncodeSize, EncodeAll, HexValue, GoodLines, Eol, ValidChunk, ValidSizeLine, EncodeChunks,
         Whole, HeadLength;
    match m.payload {
      case Identity(_) =>
      case Chunked(ks, last, trailer, crlf) =>
        var tail := EncodeSize(last) + (EncodeAll(trailer) + Eol(crlf));
        ChunksFit(e, ks, tail);
        var f := if ks == [] then e else e.(contentLength := 0);
        LastFits(f, m.payload);
        ChunksPass(e, ks);
        CountAppend(e, 0, EncodeChunks(ks), tail);
    }
  }

  lemma BodyStarts(d: Core, m: Message)
    requires ValidMessage(m) && AtBlank(d, m)
    ensures var e := EndHeaders(d.(state := HeadersAlmostDone)).core;
            m.payload.Chunked? ==> e.state.ChunkSizeStart? && e.flags.chunked && e.kind.Request?
  {
    hide EndHeaders, BlockFlags, BlockLength, Number, ValidPayload, GoodLines;
    BlankEnds(d, m);
  }

  /** A message passes only if its parts fit. */
  lemma MessageFits(c: Core, n: nat, m: Message)
    requires Between(c) && ValidMessage(m) && Whole(c, n, EncodeMessage(m))
    ensures WithinLimit(m, n) && Count(c, n, EncodeMessage(m)) == Carry(m)
  {
    hide Run, Allowed, Count, EncodeRequestLine, EncodeAll, EndHeaders, AtBlank, EncodePayload, WithinLimit, Carry,
         HeadLength, Eol;
    var head, s := EncodeRequestLine(m.line) + EncodeAll(m.lines) + Eol(m.blank), EncodePayload(m.payload);
    assert head + s == EncodeMessage(m);
    AllowedPrefix(c, n, head, s);
    HeadFits(c, n, m);
    HeadPasses(c, n, m);
    WholeParts(c, n, head, s);
    var d := Run(c, EncodeRequestLine(m.line) + EncodeAll(m.lines), 0).core;
    BodyStarts(d, m);
    var e := EndHeaders(d.(state := HeadersAlmostDone)).core;
    PayloadFits(e, m, n);
    CountAppend(c, n, head, s);
    MessagePasses(c, n, m);
    if m.payload.Identity? { IdentityCarries(m); }
  }

  lemma IdentityCarries(m: Message)
    requires m.payload.Identity?
    ensures Carry(m) == 0
  {
  }

  /** The limit leaves a message alone exactly if its head with what is carried over, each of its size lines and its
      trailer fit 81920 bytes; then the bytes of the trailer are what is carried on. */
  lemma MessagePassesIff(c: Core, n: nat, m: Message)
    requires Between(c) && ValidMessage(m)
    ensures Whole(c, n, EncodeMessage(m)) <==> WithinLimit(m, n)
    ensures WithinLimit(m, n) ==> Count(c, n, EncodeMessage(m)) == Carry(m)
  {
    hide Run, Allowed, Count, EncodeMessage, WithinLimit, Carry, ValidMessage;
    if WithinLimit(m, n) { MessagePasses(c, n, m); }
    if Whole(c, n, EncodeMessage(m)) { MessageFits(c, n, m); }
  }

  // ---------------------------------------------------------------- pipelines

  lemma {:induction false} PipelinePassesIff(c: Core, n: nat, ms: seq<Message>)
    requires Between(c) && ValidPipeline(ms)
    ensures Whole(c, n, EncodeMessages(ms)) <==> AllWithinLimit(ms, n)
    decreases |ms|
  {
    hide Run, EncodeMessage, ValidMessage, WithinLimit, Carry, Persists, Count, Allowed;
    if AllWithinLimit(ms, n) { PipelinePasses(c, n, ms); }
    if ms != [] && Whole(c, n, EncodeMessages(ms)) {
      var a, b := EncodeMessage(ms[0]), EncodeMessages(ms[1..]);
      MessageRun(c, ms[0], 0, Body);
      WholeParts(c, n, a, b);
      MessagePassesIff(c, n, ms[0]);
      if |ms| > 1 { PipelinePassesIff(Run(c, a, 0).core, Carry(ms[0]), ms[1..]); }
    }
  }

  /** One call on a pipeline runs through exactly if every message keeps its parts within the limit; otherwise the
      header limit stops it. */
  lemma PipelineIff(s: Saved, ms: seq<Message>, at: nat)
    requires Between(s.core) && ValidPipeline(ms)
    ensures var f := Call(s, EncodeMessages(ms), at);
            if AllWithinLimit(ms, s.nread) then f.stop.Running? && f.consumed == |EncodeMessages(ms)|
            else f.stop.Error?
  {
    hide Run, Allowed, Count, EncodeMessages, AllWithinLimit, ValidPipeline, PipelineLens, Lens;
    PipelinePassesIff(s.core, s.nread, ms);
    PipelineRun(s.core, ms, at, Body);
    if AllWithinLimit(ms, s.nread) {
      CallIsRun(s, EncodeMessages(ms), at);
    } else {
      RunsUpToLimit(s.core, s.nread, EncodeMessages(ms), at);
    }
  }
}
