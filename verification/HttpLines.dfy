/** The converse of the encodings: exactly which chunk-size lines and header lines the parser accepts. */
module HttpLines {
  import opened Options
  import opened HttpChars
  import opened HttpAutomaton
  import opened HttpText
  import opened HttpShape
  import opened HttpRun
  import opened HttpHeaderWords
  import opened HttpHeaders
  import opened HttpChunked

  // ---------------------------------------------------------------- size lines

  /** How many of the first bytes are read as digits. */
  function SizeDigits(w: seq<byte>): (k: nat)
    ensures k <= |w| && (k < |w| ==> !ReadAsHex(w[k])) && forall i :: 0 <= i < k ==> ReadAsHex(w[i])
  {
    if w == [] || !ReadAsHex(w[0]) then 0 else 1 + SizeDigits(w[1..])
  }

  lemma NoSizeStep(c: Core)
    requires c.state.ChunkSizeStart? && c.flags.chunked
    ensures Step(c, CR).stop.Error?
  {
    hide Step;
    StepCases(c, CR);
  }

  predicate SizeLineAccepted(w: seq<byte>) {
    var k := SizeDigits(w);
    k > 0 && (k == |w| || w[k] == SEMICOLON || w[k] == SP)
  }

  /** For every line of bytes but CR: it is accepted exactly if it starts with digits, and a semicolon or a space comes
      behind them if anything does; the size is their value modulo 2^64. */
  lemma SizeLineIff(c: Core, w: seq<byte>, at: nat)
    requires c.state.ChunkSizeStart? && c.flags.chunked && CR !in w
    ensures var r := Run(c, w + [CR, LF], at);
            && (r.stop.Running? <==> SizeLineAccepted(w))
            && (r.stop.Running? ==> r.core == BehindSize(c, SizeValue(w[..SizeDigits(w)]) % 0x1_0000_0000_0000_0000))
  {
    hide Run, Step, StepOuts, SizeValue, ReadAsHex, SizeDigits;
    var k := SizeDigits(w);
    var u := w[..k];
    assert w == u + w[k..];
    if k == 0 {
      assert u == [] && w[0..] == w;
      if w == [] {
        NoSizeStep(c);
        RunCons(c, [CR, LF], at);
        assert w + [CR, LF] == [CR, LF];
      } else {
        ReadStep(c, w[0], at);
        RunCons(c, w + [CR, LF], at);
      }
    } else {
      ReadRun(c, u, at);
      var d := c.(state := ChunkSize, contentLength := SizeValue(u) % U64);
      SizeTail(c, d, u, w[k..], at);
      assert u + (w[k..] + [CR, LF]) == w + [CR, LF];
    }
  }

  /** Behind the digits. */
  lemma SizeTail(c: Core, d: Core, u: seq<byte>, e: seq<byte>, at: nat)
    requires c.flags.chunked && Run(c, u, at) == RunResult(d, [], |u|, Running) && d.state.ChunkSize? && CR !in e
    requires d == c.(state := ChunkSize, contentLength := d.contentLength)
    requires e != [] ==> !ReadAsHex(e[0])
    ensures var r := Run(c, u + (e + [CR, LF]), at);
            && (r.stop.Running? <==> e == [] || e[0] == SEMICOLON || e[0] == SP)
            && (r.stop.Running? ==> r.core == BehindSize(c, d.contentLength))
  {
    hide Run, Step, StepOuts, ReadAsHex;
    RunAppend(c, u, e + [CR, LF], at);
    var at1 := at + |u|;
    if e == [] || e[0] == SEMICOLON || e[0] == SP {
      ExtensionRun(d, e, at1);
      var f := if e == [] then d else d.(state := ChunkParameters);
      SizeEndStep(f, at1 + |e|);
      RunSnoc(d, e, CR, at1);
      SizeLfStep(f.(state := ChunkSizeAlmostDone), at1 + |e| + 1);
      RunSnoc(d, e + [CR], LF, at1);
      assert e + [CR] + [LF] == e + [CR, LF];
    } else {
      ReadStep(d, e[0], at1);
      RunCons(d, e + [CR, LF], at1);
    }
  }

  /** An accepted line is the encoding of its digits and its extension, with the size they spell, unless one of the
      digits is a byte from 128 on. */
  lemma AcceptedSizeIsEncoded(w: seq<byte>)
    requires CR !in w && SizeLineAccepted(w)
    ensures var k := SizeDigits(w);
            var l := SizeLine(w[..k], w[k..]);
            && EncodeSize(l) == w + [CR, LF]
            && (ValidSizeLine(l) <==> forall i :: 0 <= i < k ==> w[i] < 128)
            && (ValidSizeLine(l) ==> SizeValue(w[..k]) == HexValue(l.digits))
  {
    var k := SizeDigits(w);
    if AllHex(w[..k]) { SizeValueIsHex(w[..k]); }
    hide SizeValue, HexValue;
    assert w == w[..k] + w[k..];
    forall i | 0 <= i < k ensures w[i] < 128 <==> IsHex(w[..k][i]) { HexBelow128(w[i]); }
    if k < |w| { assert w[k..][0] == w[k]; }
    assert CR !in w[k..];
  }

  /** A byte that no encoder writes: a line of the single byte 200 is read as the last chunk. */
  lemma HighByteIsLastChunk(c: Core, at: nat)
    requires c.state.ChunkSizeStart? && c.flags.chunked
    ensures var r := Run(c, [200, CR, LF], at);
            !IsHex(200) && r.stop.Running? && r.core.state.HeaderFieldStart? && r.core.flags.trailing
  {
    hide Run;
    var w: seq<byte> := [200];
    assert ReadAsHex(200) && w[1..] == [];
    assert SizeDigits(w) == 1 && w[..1] == w && w[..0] == [] && SizeValue(w) == 0;
    SizeLineIff(c, w, at);
    assert w + [CR, LF] == [200, CR, LF];
  }

  lemma HexBelow128(ch: byte)
    requires ReadAsHex(ch)
    ensures ch < 128 <==> IsHex(ch)
  {
  }

  // ---------------------------------------------------------------- header lines

  /** How many of the first bytes may be in a name. */
  function NameLength(w: seq<byte>): (k: nat)
    ensures k <= |w| && (k < |w| ==> !IsNameByte(w[k])) && forall i :: 0 <= i < k ==> IsNameByte(w[i])
  {
    if w == [] || !IsNameByte(w[0]) then 0 else 1 + NameLength(w[1..])
  }

  /** The line that these bytes can be read as: a name, and a value if a colon follows. */
  function LineOf(w: seq<byte>, crlf: bool): Line {
    var k := NameLength(w);
    Line(w[..k], if k < |w| then Some(w[k + 1..]) else None, crlf)
  }

  predicate LineAccepted(w: seq<byte>, crlf: bool) {
    var k := NameLength(w);
    k > 0 && (k == |w| || w[k] == COLON) && GoodLine(LineOf(w, crlf))
  }

  /** For every line of bytes but CR and LF: it is accepted exactly if it is the encoding of a good line, and the parser
      is then behind that line. */
  lemma LineIff(c: Core, w: seq<byte>, crlf: bool, at: nat)
    requires c.state.HeaderFieldStart? && w != [] && CR !in w && LF !in w
    ensures var r, l := Run(c, w + Eol(crlf), at), LineOf(w, crlf);
            && (r.stop.Running? <==> LineAccepted(w, crlf))
            && (r.stop.Running? ==> Encode(l) == w + Eol(crlf) && IsAfterLine(c, l, r.core))
  {
    hide Run, Step, StepOuts, Range, NameLength, GoodLine, TrackName, FoldAll, Eol;
    var k, l := NameLength(w), LineOf(w, crlf);
    var u := w[..k];
    if k == 0 {
      BadNameStart(c, w[0]);
      RunCons(c, w + Eol(crlf), at);
    } else if k < |w| && w[k] != COLON {
      NameRun(c, u, at);
      var d := Run(c, u, at).core;
      BadNameByte(d, w[k]);
      RunSnoc(c, u, w[k], at);
      assert w + Eol(crlf) == (u + [w[k]]) + (w[k + 1..] + Eol(crlf));
      RunAppend(c, u + [w[k]], w[k + 1..] + Eol(crlf), at);
    } else {
      assert ValidLine(l);
      assert Encode(l) == w + Eol(crlf) by {
        if k < |w| {
          assert u + ([COLON] + w[k + 1..] + Eol(crlf)) == w + Eol(crlf);
        } else {
          assert u == w;
          NoEol(crlf);
        }
      }
      LineRun(c, l, at);
    }
  }

  lemma BadNameStart(c: Core, ch: byte)
    requires c.state.HeaderFieldStart? && ch != CR && ch != LF && !IsNameByte(ch)
    ensures Step(c, ch).stop.Error?
  {
    hide Step;
    StepCases(c, ch);
    TokenIs(ch);
  }

  lemma BadNameByte(c: Core, ch: byte)
    requires c.state.HeaderField? && ch != CR && ch != LF && ch != COLON && !IsNameByte(ch)
    ensures Step(c, ch).stop.Error?
  {
    hide Step;
    StepCases(c, ch);
    TokenIs(ch);
  }

  // ---------------------------------------------------------------- line ends

  /** Behind a carriage return nothing but a line feed is accepted, wherever a line may end in both. */
  lemma CarriageReturnIff(c: Core, x: byte)
    requires c.state in {ReqLineAlmostDone, ResLineAlmostDone, HeaderAlmostDone, HeadersAlmostDone, ChunkSizeAlmostDone}
    requires c.state.ChunkSizeAlmostDone? ==> c.flags.chunked
    ensures Step(c, x).stop.Error? <==> x != 10
  {
    hide Step, NewMessage;
    StepCases(c, x);
  }

  /** The data of a chunk ends with a carriage return and a line feed, and with nothing else. */
  lemma DataEndIff(c: Core, x: byte, y: byte, at: nat)
    requires c.state.ChunkDataAlmostDone? && c.flags.chunked
    ensures var r := Run(c, [x, y], at);
            if x == 13 && y == 10 then r == RunResult(c.(state := ChunkSizeStart), [], 2, Running) else r.stop.Error?
  {
    hide Run, Step, StepOuts;
    assert [x, y] == [x] + [y];
    DataEndRefusals(c, x);
    if x == 13 {
      DataEndSteps(c, at);
      DataCrStep(c, at);
      DataEndRefusals(c.(state := ChunkDataDone), y);
      RunOne(c, x, at);
      RunSnoc(c, [x], y, at);
    } else {
      RunOne(c, x, at);
      StaysRefused(c, [x], [y], at);
    }
  }

  lemma DataEndRefusals(c: Core, x: byte)
    requires c.flags.chunked
    ensures c.state.ChunkDataAlmostDone? && x != 13 ==> Step(c, x).stop.Error?
    ensures c.state.ChunkDataDone? && x != 10 ==> Step(c, x).stop.Error?
  {
    hide Step;
    StepCases(c, x);
  }

  /** Line ends before a request are skipped. */
  lemma {:induction false} BlankLinesSkipped(c: Core, s: seq<byte>, at: nat)
    requires (c.state.StartReq? || c.state.StartReqOrRes?) && forall i :: 0 <= i < |s| ==> s[i] == 13 || s[i] == 10
    ensures Run(c, s, at) == RunResult(c, [], |s|, Running)
    decreases |s|
  {
    hide Step;
    if s != [] {
      StepCases(c, s[0]);
      assert StepOuts(c, s[0], at) == [];
      BlankLinesSkipped(c, s[1..], at + 1);
    }
  }
}
