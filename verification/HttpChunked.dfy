/** Chunked bodies (section 3.6.1 of RFC 2616): parsing what an encoder wrote gives the body back. */
module HttpChunked {
  import opened HttpChars
  import opened HttpAutomaton
  import opened HttpShape
  import opened HttpRun
  import opened HttpBody
  import opened HttpHeaders
  import opened HttpCalls

  // ---------------------------------------------------------------- the encoding

  predicate IsHex(ch: byte) { IsDigit(ch) || 65 <= ch <= 70 || 97 <= ch <= 102 }

  predicate AllHex(s: seq<byte>) { forall i :: 0 <= i < |s| ==> IsHex(s[i]) }

  function HexDigit(ch: byte): nat
    requires IsHex(ch)
  {
    if IsDigit(ch) then ch - 48 else if ch <= 70 then ch - 55 else ch - 87
  }

  function HexValue(s: seq<byte>): nat
    requires AllHex(s)
  {
    if s == [] then 0 else HexValue(s[..|s| - 1]) * 16 + HexDigit(s[|s| - 1])
  }

  /** A chunk size line: digits in either case, leading zeros allowed, and extensions that are skipped. */
  datatype SizeLine = SizeLine(digits: seq<byte>, extension: seq<byte>)

  predicate ValidSizeLine(l: SizeLine) {
    && l.digits != [] && AllHex(l.digits)
    && (l.extension != [] ==> (l.extension[0] == SEMICOLON || l.extension[0] == SP) && CR !in l.extension)
  }

  function EncodeSize(l: SizeLine): seq<byte> { l.digits + l.extension + [CR, LF] }

  datatype Chunk = Chunk(size: SizeLine, data: seq<byte>)

  predicate ValidChunk(k: Chunk) {
    && ValidSizeLine(k.size) && HexValue(k.size.digits) == |k.data|
    && 0 < |k.data| < 0x8000_0000_0000_0000
  }

  function EncodeChunk(k: Chunk): seq<byte> { EncodeSize(k.size) + k.data + [CR, LF] }

  function EncodeChunks(ks: seq<Chunk>): seq<byte> {
    if ks == [] then [] else EncodeChunk(ks[0]) + EncodeChunks(ks[1..])
  }

  /** A chunked body: the chunks, the last chunk of size zero, the trailer and the empty line. */
  function EncodeBody(ks: seq<Chunk>, last: SizeLine, trailer: seq<Line>, crlf: bool): seq<byte> {
    EncodeChunks(ks) + (EncodeSize(last) + (EncodeAll(trailer) + Eol(crlf)))
  }

  function Data(ks: seq<Chunk>): seq<byte> {
    if ks == [] then [] else ks[0].data + Data(ks[1..])
  }

  // ---------------------------------------------------------------- size lines

  lemma AppendHexDigit(x: nat, d: nat)
    ensures (x % U64 * 16 + d) % U64 == (x * 16 + d) % U64
  {
    var q, y := x / U64, x % U64;
    assert x * 16 + d == y * 16 + d + (16 * q) * U64;
    ModuloShift(y * 16 + d, 16 * q);
  }

  /** The bytes that are read as hexadecimal digits: those from 128 on as 0. */
  predicate ReadAsHex(ch: byte) { IsHex(ch) || 128 <= ch }

  function ReadDigit(ch: byte): nat
    requires ReadAsHex(ch)
  {
    if 128 <= ch then 0 else HexDigit(ch)
  }

  /** The table of the parser says so too. */
  lemma UnhexIs(ch: byte)
    ensures Unhex(ch) == if ReadAsHex(ch) then ReadDigit(ch) else -1
  {
  }

  /** The number that such bytes are read as. */
  function SizeValue(s: seq<byte>): nat
    requires forall i :: 0 <= i < |s| ==> ReadAsHex(s[i])
  {
    if s == [] then 0
    else
      assert ReadAsHex(s[|s| - 1]);
      SizeValue(s[..|s| - 1]) * 16 + ReadDigit(s[|s| - 1])
  }

  /** For the digits of an encoder it is the number they spell. */
  lemma {:induction false} SizeValueIsHex(s: seq<byte>)
    requires AllHex(s)
    ensures (forall i :: 0 <= i < |s| ==> ReadAsHex(s[i])) && SizeValue(s) == HexValue(s)
    decreases |s|
  {
    if s != [] { SizeValueIsHex(s[..|s| - 1]); }
  }

  lemma ReadStep(c: Core, ch: byte, at: nat)
    requires (c.state.ChunkSizeStart? || c.state.ChunkSize?) && c.flags.chunked && ch != CR
    ensures ReadAsHex(ch) ==>
              && Step(c, ch) == To(c.(contentLength := if c.state.ChunkSizeStart? then ReadDigit(ch)
                                                       else (c.contentLength * 16 + ReadDigit(ch)) % U64), ChunkSize)
              && StepOuts(c, ch, at) == []
    ensures !ReadAsHex(ch) && (c.state.ChunkSizeStart? || (ch != SEMICOLON && ch != SP)) ==> Step(c, ch).stop.Error?
  {
    hide Step, Unhex, ReadDigit, ReadAsHex;
    StepCases(c, ch);
    UnhexIs(ch);
    assert OpenSlices(ChunkSize) == [];
  }

  lemma ValueAppend(u: seq<byte>, ch: byte)
    requires (forall i :: 0 <= i < |u| ==> ReadAsHex(u[i])) && ReadAsHex(ch)
    ensures SizeValue(u + [ch]) % U64 == (SizeValue(u) % U64 * 16 + ReadDigit(ch)) % U64
    ensures SizeValue([ch]) % U64 == ReadDigit(ch)
  {
    assert (u + [ch])[..|u|] == u;
    assert [ch][..0] == [];
    AppendHexDigit(SizeValue(u), ReadDigit(ch));
  }

  lemma {:induction false} ReadRun(c: Core, s: seq<byte>, at: nat)
    requires c.state.ChunkSizeStart? && c.flags.chunked && s != [] && forall i :: 0 <= i < |s| ==> ReadAsHex(s[i])
    ensures var n := SizeValue(s) % 0x1_0000_0000_0000_0000;
            Run(c, s, at) == RunResult(c.(state := ChunkSize, contentLength := n), [], |s|, Running)
    decreases |s|
  {
    hide Run, Step, StepOuts, SizeValue, ReadDigit;
    if |s| == 1 {
      assert s == [s[0]];
      ValueAppend([], s[0]);
      CrIsNoDigit();
      ReadStep(c, s[0], at);
      RunOne(c, s[0], at);
    } else {
      var u, ch := s[..|s| - 1], s[|s| - 1];
      assert s == u + [ch];
      ReadRun(c, u, at);
      ValueAppend(u, ch);
      RunSnoc(c, u, ch, at);
      CrIsNoDigit();
      ReadStep(c.(state := ChunkSize, contentLength := SizeValue(u) % U64), ch, at + |u|);
    }
  }

  lemma CrIsNoDigit()
    ensures !ReadAsHex(CR)
  {
  }

  lemma DigitsRun(c: Core, s: seq<byte>, at: nat)
    requires c.state.ChunkSizeStart? && c.flags.chunked && s != [] && AllHex(s)
    ensures var n := HexValue(s) % 0x1_0000_0000_0000_0000;
            Run(c, s, at) == RunResult(c.(state := ChunkSize, contentLength := n), [], |s|, Running)
  {
    hide Run;
    SizeValueIsHex(s);
    ReadRun(c, s, at);
  }

  lemma ParameterStep(c: Core, ch: byte, at: nat)
    requires c.flags.chunked && ch != CR
    requires c.state.ChunkParameters? || (c.state.ChunkSize? && (ch == SEMICOLON || ch == SP))
    ensures Step(c, ch) == To(c, ChunkParameters) && StepOuts(c, ch, at) == []
  {
    hide Step;
    StepCases(c, ch);
    assert OpenSlices(ChunkParameters) == [];
  }

  lemma {:induction false} ExtensionRun(c: Core, s: seq<byte>, at: nat)
    requires c.flags.chunked && CR !in s
    requires c.state.ChunkParameters? || (c.state.ChunkSize? && (s == [] || s[0] == SEMICOLON || s[0] == SP))
    ensures Run(c, s, at) == RunResult(if s == [] then c else c.(state := ChunkParameters), [], |s|, Running)
    decreases |s|
  {
    hide Run, Step, StepOuts;
    if s == [] {
      RunNil(c, at, Run(c, s, at));
    } else {
      ParameterStep(c, s[0], at);
      RunCons(c, s, at);
      ExtensionRun(c.(state := ChunkParameters), s[1..], at + 1);
    }
  }

  lemma SizeEndStep(c: Core, at: nat)
    requires (c.state.ChunkSize? || c.state.ChunkParameters?) && c.flags.chunked
    ensures Step(c, CR) == To(c, ChunkSizeAlmostDone) && StepOuts(c, CR, at) == []
  {
    hide Step;
    StepCases(c, CR);
    assert OpenSlices(ChunkSizeAlmostDone) == [];
  }

  /** The parser behind a size line: in the data, or in the trailer if the size is zero. */
  function BehindSize(c: Core, n: nat): Core {
    if n == 0 then c.(contentLength := 0, flags := c.flags.(trailing := true), state := HeaderFieldStart)
    else c.(contentLength := n, state := ChunkData)
  }

  lemma SizeLfStep(c: Core, at: nat)
    requires c.state.ChunkSizeAlmostDone? && c.flags.chunked
    ensures Step(c, LF) == StepResult(BehindSize(c, c.contentLength), [], Running, true) && StepOuts(c, LF, at) == []
  {
    hide Step;
    StepCases(c, LF);
    assert OpenSlices(BehindSize(c, c.contentLength).state) == [];
  }

  lemma SizeLineRun(c: Core, l: SizeLine, at: nat)
    requires c.state.ChunkSizeStart? && c.flags.chunked && ValidSizeLine(l)
    ensures Run(c, EncodeSize(l), at)
            == RunResult(BehindSize(c, HexValue(l.digits) % 0x1_0000_0000_0000_0000), [], |EncodeSize(l)|, Running)
  {
    hide Run, Step, StepOuts, HexValue;
    DigitsRun(c, l.digits, at);
    var d := c.(state := ChunkSize, contentLength := HexValue(l.digits) % 0x1_0000_0000_0000_0000);
    ExtensionRun(d, l.extension, at + |l.digits|);
    RunAppend(c, l.digits, l.extension, at);
    var s := l.digits + l.extension;
    var e := if l.extension == [] then d else d.(state := ChunkParameters);
    NoOuts([]);
    SizeEndStep(e, at + |s|);
    RunSnoc(c, s, CR, at);
    SizeLfStep(e.(state := ChunkSizeAlmostDone), at + |s| + 1);
    RunSnoc(c, s + [CR], LF, at);
    assert s + [CR] + [LF] == EncodeSize(l);
  }

  // ---------------------------------------------------------------- chunks

  lemma DataCrStep(c: Core, at: nat)
    requires c.state.ChunkDataAlmostDone? && c.flags.chunked
    ensures Step(c, CR) == To(c, ChunkDataDone) && StepOuts(c, CR, at) == []
  {
    hide Step;
    StepCases(c, CR);
    assert OpenSlices(ChunkDataDone) == [];
  }

  lemma DataLfStep(c: Core, at: nat)
    requires c.state.ChunkDataDone? && c.flags.chunked
    ensures Step(c, LF) == To(c, ChunkSizeStart) && StepOuts(c, LF, at) == []
  {
    hide Step;
    StepCases(c, LF);
    assert OpenSlices(ChunkSizeStart) == [];
  }

  lemma DataEndSteps(c: Core, at: nat)
    requires c.state.ChunkDataAlmostDone? && c.flags.chunked
    ensures Run(c, [CR, LF], at) == RunResult(c.(state := ChunkSizeStart), [], 2, Running)
  {
    hide Run, Step, StepOuts;
    DataCrStep(c, at);
    DataLfStep(c.(state := ChunkDataDone), at + 1);
    RunOne(c, CR, at);
    RunSnoc(c, [CR], LF, at);
    assert [CR] + [LF] == [CR, LF];
  }

  /** The offset of the data inside an encoded chunk. */
  function DataAt(k: Chunk): nat { |EncodeSize(k.size)| }

  /** One chunk: its data is handed over, and the parser waits for the next size. */
  lemma ChunkRun(c: Core, k: Chunk, at: nat)
    requires c.state.ChunkSizeStart? && c.flags.chunked && ValidChunk(k)
    ensures Run(c, EncodeChunk(k), at)
            == RunResult(c.(contentLength := 0), Range(Body, at + DataAt(k), at + DataAt(k) + |k.data|),
                         |EncodeChunk(k)|, Running)
  {
    hide Run, Step, StepOuts, EncodeSize, HexValue;
    var s, n := EncodeSize(k.size), |k.data|;
    SizeLineRun(c, k.size, at);
    assert n % U64 == n;
    var d := c.(contentLength := n, state := ChunkData);
    ChunkDataBulk(d, k.data, at + |s|);
    RunAppend(c, s, k.data, at);
    DataEndSteps(d.(contentLength := 0, state := ChunkDataAlmostDone), at + |s| + n);
    RunAppend(c, s + k.data, [CR, LF], at);
    NoOuts(Range(Body, at + |s|, at + |s| + n));
    CtlNone(at + |s| + n - 1);
    NothingAdds();
  }

  function ChunksOuts(ks: seq<Chunk>, at: nat): seq<Out> {
    if ks == [] then []
    else Range(Body, at + DataAt(ks[0]), at + DataAt(ks[0]) + |ks[0].data|)
         + ChunksOuts(ks[1..], at + |EncodeChunk(ks[0])|)
  }

  lemma {:induction false} ChunksRun(c: Core, ks: seq<Chunk>, at: nat)
    requires c.state.ChunkSizeStart? && c.flags.chunked && forall i :: 0 <= i < |ks| ==> ValidChunk(ks[i])
    ensures Run(c, EncodeChunks(ks), at)
            == RunResult(if ks == [] then c else c.(contentLength := 0),
                         ChunksOuts(ks, at), |EncodeChunks(ks)|, Running)
    decreases |ks|
  {
    hide Run, Step, EncodeChunk, DataAt, Range, ValidChunk;
    if ks == [] {
      RunNil(c, at, Run(c, [], at));
    } else {
      ChunkRun(c, ks[0], at);
      RunAppend(c, EncodeChunk(ks[0]), EncodeChunks(ks[1..]), at);
      ChunksRun(c.(contentLength := 0), ks[1..], at + |EncodeChunk(ks[0])|);
    }
  }

  // ---------------------------------------------------------------- the end of a header block

  /** The empty line that ends a header block or a trailer. */
  lemma BlankLineRun(c: Core, crlf: bool, at: nat)
    requires c.state.HeaderFieldStart?
    requires !EndHeaders(c.(state := HeadersAlmostDone)).stop.Upgraded?
    ensures var r := EndHeaders(c.(state := HeadersAlmostDone));
            Run(c, Eol(crlf), at) == RunResult(r.core, CtlAt(r.ctl, at + |Eol(crlf)| - 1), |Eol(crlf)|, Running)
  {
    hide Run, Step, EndHeaders;
    var d := c.(state := HeadersAlmostDone);
    EndHeadersOuts(d);
    if crlf {
      StepCases(c, CR);
      assert Step(c, CR) == Go(d) && StepOuts(c, CR, at) == [] by { assert OpenSlices(HeadersAlmostDone) == []; }
      RunOne(c, CR, at);
      StepCases(d, LF);
      BlankOuts(d, at + 1);
      RunSnoc(c, [CR], LF, at);
      assert [CR] + [LF] == Eol(true);
      NoOuts(StepOuts(d, LF, at + 1));
    } else {
      StepCases(c, LF);
      BlankOuts(c, at);
      RunOne(c, LF, at);
    }
  }

  lemma EndHeadersOuts(d: Core)
    ensures var r := EndHeaders(d);
            (r.stop.Running? || r.stop.Upgraded?) && (r.stop.Running? ==> OpenSlices(r.core.state) == [])
  {
    hide KeepAlive;
  }

  lemma BlankOuts(c: Core, at: nat)
    requires c.state.HeaderFieldStart? || c.state.HeadersAlmostDone?
    ensures var r := EndHeaders(c.(state := HeadersAlmostDone));
            Step(c, LF) == r && StepOuts(c, LF, at) == CtlAt(r.ctl, at)
  {
    hide Step, EndHeaders;
    StepCases(c, LF);
    assert c.state.HeadersAlmostDone? ==> c.(state := HeadersAlmostDone) == c;
    EndHeadersOuts(c.(state := HeadersAlmostDone));
    assert CtlAt(Step(c, LF).ctl, at) + BytesAt([], at) == CtlAt(Step(c, LF).ctl, at);
  }

  // ---------------------------------------------------------------- whole bodies

  /** What the body callback is handed, as bytes of the stream `s` that starts at offset `at`. */
  function Delivered(outs: seq<Out>, s: seq<byte>, at: nat): seq<byte> {
    if outs == [] then []
    else
      (match outs[0]
       case Byte(Body, o) => if at <= o < at + |s| then [s[o - at]] else []
       case _ => [])
      + Delivered(outs[1..], s, at)
  }

  /** The parser behind a chunked body: its trailer lines still count. */
  function BehindBody(c: Core, trailer: seq<Line>, d: Core): Core
    requires GoodLines(trailer)
  {
    NewMessage(c.(flags := BlockFlags(c.flags.(trailing := true), trailer),
                  contentLength := BlockLength(0, trailer), state := HeadersAlmostDone,
                  headerState := d.headerState, index := d.index))
  }

  /** The last chunk, the trailer and the empty line. */
  lemma LastChunkRun(c: Core, last: SizeLine, trailer: seq<Line>, crlf: bool, at: nat)
    requires c.state.ChunkSizeStart? && c.flags.chunked
    requires ValidSizeLine(last) && HexValue(last.digits) == 0 && GoodLines(trailer)
    ensures var b, t, e := EncodeSize(last), EncodeAll(trailer), Eol(crlf);
            var r := Run(c, b + (t + e), at);
            && r.stop.Running?
            && r.outs == BlockOuts(trailer, at + |b|) + [Ctl(MessageComplete, at + |b| + |t| + |e| - 1)]
            && r.core == BehindBody(c, trailer, r.core)
  {
    hide Run, Step, EncodeSize, EncodeAll, BlockOuts, BlockFlags, BlockLength, NewMessage, HexValue, GoodLines;
    var b, t, e := EncodeSize(last), EncodeAll(trailer), Eol(crlf);
    SizeLineRun(c, last, at);
    var c2 := BehindSize(c, 0);
    BlockRun(c2, trailer, at + |b|);
    var r3 := Run(c2, t, at + |b|);
    TrailerKept(c2.flags, trailer);
    BlankLineRun(r3.core, crlf, at + |b| + |t|);
    var done := [Ctl(MessageComplete, at + |b| + |t| + |e| - 1)];
    assert CtlAt([MessageComplete], at + |b| + |t| + |e| - 1) == done;
    RunJoin(c2, t, e, at + |b|, r3, Run(r3.core, e, at + |b| + |t|));
    RunJoin(c, b, t + e, at, Run(c, b, at), Run(c2, t + e, at + |b|));
    NoOuts(BlockOuts(trailer, at + |b|) + done);
    BehindBodyIs(c, trailer, r3.core);
  }

  lemma BehindBodyIs(c: Core, trailer: seq<Line>, d: Core)
    requires GoodLines(trailer)
    requires d == BehindSize(c, 0).(flags := BlockFlags(BehindSize(c, 0).flags, trailer),
                                    contentLength := BlockLength(0, trailer),
                                    headerState := d.headerState, index := d.index)
    ensures var e := NewMessage(d.(state := HeadersAlmostDone)); e == BehindBody(c, trailer, e)
  {
    hide BlockFlags, BlockLength, GoodLines;
  }

  /** A whole chunked body: the chunk data is handed over in order, then the slices of the trailer, and the
      message completes once, on the last byte. */
  lemma ChunkedBodyRun(c: Core, ks: seq<Chunk>, last: SizeLine, trailer: seq<Line>, crlf: bool, at: nat)
    requires c.state.ChunkSizeStart? && c.flags.chunked
    requires forall i :: 0 <= i < |ks| ==> ValidChunk(ks[i])
    requires ValidSizeLine(last) && HexValue(last.digits) == 0 && GoodLines(trailer)
    ensures var s := EncodeBody(ks, last, trailer, crlf);
            var r := Run(c, s, at);
            var tail := |EncodeAll(trailer)| + |Eol(crlf)|;
            && r.stop.Running? && r.consumed == |s| && tail <= |s|
            && r.outs == ChunksOuts(ks, at)
               + (BlockOuts(trailer, at + |s| - tail) + [Ctl(MessageComplete, at + |s| - 1)])
            && r.core == BehindBody(c, trailer, r.core)
  {
    hide Run, EncodeChunks, EncodeSize, EncodeAll, ChunksOuts, BlockOuts, BlockFlags, BlockLength, NewMessage,
         HexValue, GoodLines, Eol;
    var a, b, t, e := EncodeChunks(ks), EncodeSize(last), EncodeAll(trailer), Eol(crlf);
    ChunksRun(c, ks, at);
    var r1 := Run(c, a, at);
    LastChunkRun(r1.core, last, trailer, crlf, at + |a|);
    RunJoin(c, a, b + (t + e), at, r1, Run(r1.core, b + (t + e), at + |a|));
  }

  lemma TrailerKept(f: Flags, ls: seq<Line>)
    ensures BlockFlags(f, ls).trailing == f.trailing
  {
    hide BlockFlags;
    BlockFlagsByWords(f, ls);
  }

  // ---------------------------------------------------------------- the bytes handed over

  lemma {:induction false} DeliveredAppend(a: seq<Out>, b: seq<Out>, s: seq<byte>, at: nat)
    ensures Delivered(a + b, s, at) == Delivered(a, s, at) + Delivered(b, s, at)
    decreases |a|
  {
    if a == [] {
      assert a + b == b;
    } else {
      assert (a + b)[0] == a[0] && (a + b)[1..] == a[1..] + b;
      DeliveredAppend(a[1..], b, s, at);
    }
  }

  lemma {:induction false} DeliveredRange(k: Slice, from: nat, to: nat, s: seq<byte>, at: nat)
    requires at <= from <= to <= at + |s|
    ensures Delivered(Range(k, from, to), s, at) == (if k.Body? then s[from - at..to - at] else [])
    decreases (to - from)
  {
    if from < to {
      assert Range(k, from, to)[0] == Byte(k, from) && Range(k, from, to)[1..] == Range(k, from + 1, to);
      DeliveredRange(k, from + 1, to, s, at);
    }
  }

  /** A part of a stream with something before and after it. */
  lemma SliceInside(pre: seq<byte>, e: seq<byte>, post: seq<byte>, i: nat, j: nat)
    requires i <= j <= |e|
    ensures (pre + e + post)[|pre| + i..|pre| + j] == e[i..j]
  {
  }

  lemma Regroup(pre: seq<byte>, e: seq<byte>, rest: seq<byte>, post: seq<byte>)
    ensures pre + (e + rest) + post == (pre + e) + rest + post == pre + e + (rest + post)
  {
  }

  lemma ChunksCons(ks: seq<Chunk>, at: nat)
    requires ks != []
    ensures EncodeChunks(ks) == EncodeChunk(ks[0]) + EncodeChunks(ks[1..])
    ensures Data(ks) == ks[0].data + Data(ks[1..])
    ensures ChunksOuts(ks, at)
            == Range(Body, at + DataAt(ks[0]), at + DataAt(ks[0]) + |ks[0].data|)
               + ChunksOuts(ks[1..], at + |EncodeChunk(ks[0])|)
  {
  }

  lemma ChunksNil(s: seq<byte>, at: nat, base: nat)
    ensures Delivered(ChunksOuts([], at), s, base) == [] == Data([])
  {
  }

  /** The data of chunks that stand between `pre` and `post` in the stream. */
  lemma {:induction false} ChunksDelivered(ks: seq<Chunk>, pre: seq<byte>, post: seq<byte>, at: nat)
    ensures Delivered(ChunksOuts(ks, at + |pre|), pre + EncodeChunks(ks) + post, at) == Data(ks)
    decreases |ks|
  {
    hide *;
    var s := pre + EncodeChunks(ks) + post;
    if ks == [] {
      ChunksNil(s, at + |pre|, at);
    } else {
      var k, rest := ks[0], EncodeChunks(ks[1..]);
      var e := EncodeChunk(k);
      var from := at + |pre| + DataAt(k);
      var first := Range(Body, from, from + |k.data|);
      ChunksCons(ks, at + |pre|);
      Regroup(pre, e, rest, post);
      assert Delivered(first, s, at) == k.data by {
        DataInChunk(k);
        SliceInside(pre, e, rest + post, DataAt(k), DataAt(k) + |k.data|);
        DeliveredRange(Body, from, from + |k.data|, s, at);
      }
      assert Delivered(ChunksOuts(ks[1..], at + |pre + e|), s, at) == Data(ks[1..]) by {
        ChunksDelivered(ks[1..], pre + e, post, at);
      }
      assert at + |pre + e| == at + |pre| + |e|;
      DeliveredAppend(first, ChunksOuts(ks[1..], at + |pre| + |e|), s, at);
    }
  }

  lemma DataInChunk(k: Chunk)
    ensures var e := EncodeChunk(k);
            DataAt(k) + |k.data| <= |e| && e[DataAt(k)..DataAt(k) + |k.data|] == k.data
  {
    hide EncodeSize;
    var a, e := EncodeSize(k.size), EncodeChunk(k);
    assert e == a + (k.data + [CR, LF]);
    assert e[|a|..] == k.data + [CR, LF];
  }

  lemma BlockCons(ls: seq<Line>, at: nat)
    requires ls != []
    ensures BlockOuts(ls, at) == LineOuts(ls[0], at) + BlockOuts(ls[1..], at + |Encode(ls[0])|)
  {
    hide LineOuts, Encode;
  }

  lemma NothingDelivered(s: seq<byte>, base: nat, at: nat)
    ensures Delivered(BlockOuts([], at), s, base) == []
  {
  }

  /** A trailer hands no body bytes over. */
  lemma {:induction false} TrailerDeliversNothing(ls: seq<Line>, s: seq<byte>, at: nat, base: nat)
    ensures Delivered(BlockOuts(ls, at), s, base) == []
    decreases |ls|
  {
    hide *;
    if ls == [] {
      NothingDelivered(s, base, at);
    } else {
      BlockCons(ls, at);
      TrailerDeliversNothing(ls[1..], s, at + |Encode(ls[0])|, base);
      LineDeliversNothing(ls[0], s, at, base);
      DeliveredAppend(LineOuts(ls[0], at), BlockOuts(ls[1..], at + |Encode(ls[0])|), s, base);
    }
  }

  lemma LineDeliversNothing(l: Line, s: seq<byte>, at: nat, base: nat)
    ensures Delivered(LineOuts(l, at), s, base) == []
  {
    hide Delivered, LineValue, Range;
    var to := at + |l.name| + (if l.value.Some? then 1 + |l.value.value| else 0);
    ValueFits(l);
    RangeDeliversNothing(HeaderName, at, at + |l.name|, s, base);
    RangeDeliversNothing(HeaderText, to - |LineValue(l)|, to, s, base);
    DeliveredAppend(Range(HeaderName, at, at + |l.name|), Range(HeaderText, to - |LineValue(l)|, to), s, base);
  }

  lemma ValueFits(l: Line)
    ensures |LineValue(l)| <= (if l.value.Some? then |l.value.value| else 0)
  {
  }

  lemma {:induction false} RangeDeliversNothing(k: Slice, from: nat, to: nat, s: seq<byte>, at: nat)
    requires from <= to && !k.Body?
    ensures Delivered(Range(k, from, to), s, at) == []
    decreases (to - from)
  {
    if from < to {
      assert Range(k, from, to)[0] == Byte(k, from) && Range(k, from, to)[1..] == Range(k, from + 1, to);
      RangeDeliversNothing(k, from + 1, to, s, at);
    }
  }

  /** The body callback is handed exactly the data of the chunks. */
  lemma ChunkedBodyDelivered(c: Core, ks: seq<Chunk>, last: SizeLine, trailer: seq<Line>, crlf: bool, at: nat)
    requires c.state.ChunkSizeStart? && c.flags.chunked
    requires forall i :: 0 <= i < |ks| ==> ValidChunk(ks[i])
    requires ValidSizeLine(last) && HexValue(last.digits) == 0 && GoodLines(trailer)
    ensures var s := EncodeBody(ks, last, trailer, crlf); Delivered(Run(c, s, at).outs, s, at) == Data(ks)
  {
    hide Run, EncodeChunks, EncodeSize, EncodeAll, ChunksOuts, BlockOuts, BehindBody, HexValue, GoodLines, Eol,
         Delivered, ValidChunk, Data;
    var s := EncodeBody(ks, last, trailer, crlf);
    assert |s| > 0 by { BodyNonEmpty(ks, last, trailer, crlf); }
    ChunkedBodyRun(c, ks, last, trailer, crlf, at);
    var tail := |EncodeAll(trailer)| + |Eol(crlf)|;
    var done := [Ctl(MessageComplete, at + |s| - 1)];
    DeliveredAppend(ChunksOuts(ks, at), BlockOuts(trailer, at + |s| - tail) + done, s, at);
    DeliveredAppend(BlockOuts(trailer, at + |s| - tail), done, s, at);
    TrailerDeliversNothing(trailer, s, at + |s| - tail, at);
    ControlDeliversNothing(MessageComplete, at + |s| - 1, s, at);
    var post := EncodeSize(last) + (EncodeAll(trailer) + Eol(crlf));
    assert [] + EncodeChunks(ks) + post == s;
    ChunksDelivered(ks, [], post, at);
  }

  lemma BodyNonEmpty(ks: seq<Chunk>, last: SizeLine, trailer: seq<Line>, crlf: bool)
    ensures |EncodeBody(ks, last, trailer, crlf)| > 0
  {
  }

  lemma ControlDeliversNothing(e: Control, o: nat, s: seq<byte>, at: nat)
    ensures Delivered([Ctl(e, o)], s, at) == []
  {
    assert [Ctl(e, o)][1..] == [];
  }

  // ---------------------------------------------------------------- the canonical encoder

  function HexChar(d: nat): byte
    requires d < 16
  {
    if d < 10 then 48 + d else 87 + d
  }

  /** The lower-case hexadecimal digits of `n`. */
  function Hex(n: nat): (s: seq<byte>)
    ensures s != [] && AllHex(s) && HexValue(s) == n
  {
    if n < 16 then
      assert [HexChar(n)][..0] == [];
      [HexChar(n)]
    else
      var s := Hex(n / 16) + [HexChar(n % 16)];
      assert s[..|s| - 1] == Hex(n / 16);
      s
  }

  function ToChunks(pieces: seq<seq<byte>>): seq<Chunk> {
    seq(|pieces|, i requires 0 <= i < |pieces| => Chunk(SizeLine(Hex(|pieces[i]|), []), pieces[i]))
  }

  /** A body cut into pieces, in chunked coding without extensions and trailer. */
  function EncodePieces(pieces: seq<seq<byte>>): seq<byte> {
    EncodeBody(ToChunks(pieces), SizeLine(Hex(0), []), [], true)
  }

  lemma {:induction false} DataOfPieces(pieces: seq<seq<byte>>)
    ensures Data(ToChunks(pieces)) == Concat(pieces)
    decreases |pieces|
  {
    if pieces != [] {
      assert ToChunks(pieces)[1..] == ToChunks(pieces[1..]);
      DataOfPieces(pieces[1..]);
    }
  }

  lemma {:induction false} ChunksAreBody(ks: seq<Chunk>, at: nat, k: Slice)
    requires !k.Body?
    ensures Lens(ChunksOuts(ks, at), k) == []
    decreases |ks|
  {
    if ks != [] {
      hide Lens, EncodeChunk, DataAt;
      var from := at + DataAt(ks[0]);
      LensRange(Body, from, from + |ks[0].data|, k);
      ChunksAreBody(ks[1..], at + |EncodeChunk(ks[0])|, k);
      LensAppend(Range(Body, from, from + |ks[0].data|), ChunksOuts(ks[1..], at + |EncodeChunk(ks[0])|), k);
    }
  }

  /** Round trip: parsing the chunked coding of a body gives the body back, completes the message exactly once,
      on the last byte, and leaves the parser ready for the next message, or dead after a closing one. */
  lemma ChunkedRoundTrip(c: Core, pieces: seq<seq<byte>>, at: nat)
    requires c.state.ChunkSizeStart? && c.flags.chunked
    requires forall i :: 0 <= i < |pieces| ==> 0 < |pieces[i]| < 0x8000_0000_0000_0000
    ensures var s := EncodePieces(pieces);
            var r := Run(c, s, at);
            && r.stop.Running? && r.consumed == |s|
            && Delivered(r.outs, s, at) == Concat(pieces)
            && Lens(r.outs, Url) == [Ctl(MessageComplete, at + |s| - 1)]
            && r.core.state == (if KeepAlive(c) then StartState(c.kind) else Dead)
  {
    hide Run, EncodeChunks, EncodeSize, ChunksOuts, HexValue, Delivered, Data, Concat, Lens;
    var ks, last := ToChunks(pieces), SizeLine(Hex(0), []);
    forall i | 0 <= i < |ks| ensures ValidChunk(ks[i]) { ValidPiece(pieces[i]); }
    assert GoodLines([]) && ValidSizeLine(last);
    ChunkedBodyRun(c, ks, last, [], true, at);
    ChunkedBodyDelivered(c, ks, last, [], true, at);
    DataOfPieces(pieces);
    var s := EncodePieces(pieces);
    ChunksAreBody(ks, at, Url);
    var done := [Ctl(MessageComplete, at + |s| - 1)];
    assert BlockOuts([], at + |s| - 2) + done == done;
    assert Run(c, s, at).outs == ChunksOuts(ks, at) + done;
    LensAppend(ChunksOuts(ks, at), done, Url);
    LensOne(Ctl(MessageComplete, at + |s| - 1), Url);
  }

  lemma ValidPiece(p: seq<byte>)
    requires 0 < |p| < 0x8000_0000_0000_0000
    ensures ValidChunk(Chunk(SizeLine(Hex(|p|), []), p))
  {
  }

}
