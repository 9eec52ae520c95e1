/** The order of observables: the bytes of slices and the control callbacks of a request parser, over any calls, follow
    the shape of messages. */
module HttpGrammar {
  import opened Options
  import opened HttpChars
  import opened HttpAutomaton
  import opened HttpShape
  import opened HttpRun
  import opened HttpLog
  import opened HttpCalls

  /** Where in a message a trace is. */
  datatype Phase = Idle | RequestLine | Headers | BodyPart | Trailer

  predicate IsUrlSlice(k: Slice) { k.Url? || k.Path? || k.Query? || k.Fragment? }

  predicate IsHeaderSlice(k: Slice) { k.HeaderName? || k.HeaderText? }

  /** One observable, if the grammar allows it: begin, request-line slices, header slices, headers-complete,
      body slices, trailer slices, complete, and from the start again. */
  function Accept(g: Phase, o: Out): Option<Phase> {
    match o
    case Ctl(MessageBegin, _) => if g.Idle? then Some(RequestLine) else None
    case Ctl(HeadersComplete, _) => if g.RequestLine? || g.Headers? then Some(BodyPart) else None
    case Ctl(MessageComplete, _) => if g.BodyPart? || g.Trailer? then Some(Idle) else None
    case Byte(k, _) =>
      if IsUrlSlice(k) && g.RequestLine? then Some(RequestLine)
      else if IsHeaderSlice(k) && (g.RequestLine? || g.Headers?) then Some(Headers)
      else if IsHeaderSlice(k) && (g.BodyPart? || g.Trailer?) then Some(Trailer)
      else if k.Body? && g.BodyPart? then Some(BodyPart)
      else None
  }

  function AcceptAll(g: Phase, outs: seq<Out>): Option<Phase>
    decreases |outs|
  {
    if outs == [] then Some(g)
    else match Accept(g, outs[0]) case Some(h) => AcceptAll(h, outs[1..]) case None => None
  }

  lemma {:induction false} AcceptAppend(g: Phase, a: seq<Out>, b: seq<Out>)
    ensures AcceptAll(g, a + b) == (match AcceptAll(g, a) case Some(h) => AcceptAll(h, b) case None => None)
    decreases |a|
  {
    if a == [] {
      assert a + b == b;
    } else {
      assert (a + b)[0] == a[0] && (a + b)[1..] == a[1..] + b;
      match Accept(g, a[0]) {
        case Some(h) => AcceptAppend(h, a[1..], b);
        case None =>
      }
    }
  }

  /** The states of a message between its first byte and its header block. */
  predicate InRequestLine(s: State) {
    s.ReqMethod? || IsUrlState(s) || s.ReqHttpStart? || s.ReqHttpH? || s.ReqHttpHT? || s.ReqHttpHTT? || s.ReqHttpHTTP?
    || s.ReqFirstMajor? || s.ReqMajor? || s.ReqFirstMinor? || s.ReqMinor? || s.ReqLineAlmostDone?
  }

  /** The parser's fields and the place in the message agree. */
  predicate Fits(c: Core, g: Phase) {
    && c.kind.Request?
    && (c.state.StartReq? || c.state.Dead? || InRequestLine(c.state) || IsHeaderState(c.state)
        || IsChunkState(c.state) || c.state.BodyIdentity?)
    && (c.state.StartReq? || c.state.Dead? ==> g.Idle?)
    && (InRequestLine(c.state) ==> g.RequestLine? && !c.flags.trailing)
    && (IsHeaderState(c.state) ==> if c.flags.trailing then g.BodyPart? || g.Trailer? else g.RequestLine? || g.Headers?)
    && (IsChunkState(c.state) || c.state.BodyIdentity? ==> g.BodyPart?)
  }

  /** What a step owes the grammar. */
  predicate StepFits(c: Core, ch: byte, at: nat, g: Phase) {
    var r, h := Step(c, ch), AcceptAll(g, StepOuts(c, ch, at));
    h.Some? && (r.stop.Running? ==> Fits(r.core, h.value))
  }

  lemma AcceptOne(g: Phase, o: Out)
    ensures AcceptAll(g, [o]) == Accept(g, o) && AcceptAll(g, []) == Some(g)
  {
    assert [o][1..] == [];
  }

  lemma AcceptTwo(g: Phase, o: Out, p: Out)
    ensures AcceptAll(g, [o, p]) == (match Accept(g, o) case Some(h) => Accept(h, p) case None => None)
  {
    assert [o, p][1..] == [p];
    match Accept(g, o) { case Some(h) => AcceptOne(h, p); case None => }
  }

  /** The observables of a byte outside the bodies, written out. */
  lemma OutsList(c: Core, ch: byte, at: nat)
    requires !DeliversBody(c)
    ensures var r := Step(c, ch);
            StepOuts(c, ch, at)
            == CtlAt(r.ctl, at) + (if r.stop.Running? then BytesAt(OpenSlices(r.core.state), at) else [])
  {
    hide Step;
  }

  lemma StartFits(c: Core, ch: byte, at: nat, g: Phase)
    requires Fits(c, g) && c.state.StartReq?
    ensures StepFits(c, ch, at, g)
  {
    hide Step, AssignMethod, AcceptAll;
    StepCases(c, ch);
    OutsList(c, ch, at);
    CtlNone(at);
    NothingAdds();
    AssignMethodFrame(FreshMessage(c), ch);
    AcceptOne(g, Ctl(MessageBegin, at));
    assert CtlAt([MessageBegin], at) == [Ctl(MessageBegin, at)] && [MessageBegin] + [] == [MessageBegin];
    assert OpenSlices(ReqMethod) == [] && OpenSlices(StartReq) == [];
  }

  /** A step inside the request line: no control callback, and only url slices. */
  lemma LineFits(c: Core, ch: byte, at: nat, g: Phase)
    requires Fits(c, g) && InRequestLine(c.state)
    ensures StepFits(c, ch, at, g)
  {
    hide Step, AcceptAll, StepMethod, UrlMove, LiteralMove, StepNumber;
    StepCases(c, ch);
    QuietLine(c, ch);
    OutsList(c, ch, at);
    CtlNone(at);
    NothingAdds();
    LineTarget(c, ch);
    LineSlices(Step(c, ch).core.state, g, at);
    AcceptOne(g, Ctl(MessageBegin, at));
  }

  lemma LineTarget(c: Core, ch: byte)
    requires InRequestLine(c.state)
    ensures var r := Step(c, ch);
            r.core.kind == c.kind && r.core.flags == c.flags
            && (InRequestLine(r.core.state) || r.core.state.HeaderFieldStart?)
  {
    hide Step, StepMethod, UrlMove, StepNumber;
    StepCases(c, ch);
    if c.state.ReqMethod? {
      MethodFrame(c, ch);
    } else if IsUrlState(c.state) {
      UrlTarget(c.state, ch);
      UrlFrame(c, ch);
    } else if IsNumberState(c.state) {
      NumberTarget(c, ch);
      NumberFrame(c, ch);
      RequestNumber(c, ch);
    }
  }

  lemma RequestNumber(c: Core, ch: byte)
    requires c.state.ReqFirstMajor? || c.state.ReqMajor? || c.state.ReqFirstMinor? || c.state.ReqMinor?
    ensures var s := StepNumber(c, ch).core.state;
            s.ReqFirstMajor? || s.ReqMajor? || s.ReqFirstMinor? || s.ReqMinor? || s.ReqLineAlmostDone?
            || s.HeaderFieldStart?
  {
  }

  lemma LineSlices(s: State, g: Phase, at: nat)
    requires g.RequestLine? && (InRequestLine(s) || s.HeaderFieldStart?)
    ensures AcceptAll(g, BytesAt(OpenSlices(s), at)) == Some(g)
  {
    hide AcceptAll;
    var b := BytesAt(OpenSlices(s), at);
    AcceptOne(g, Byte(Url, at));
    AcceptTwo(g, Byte(Url, at), Byte(Path, at));
    AcceptTwo(g, Byte(Url, at), Byte(Query, at));
    AcceptTwo(g, Byte(Url, at), Byte(Fragment, at));
    assert b == [] || b == [Byte(Url, at)] || b == [Byte(Url, at), Byte(Path, at)]
        || b == [Byte(Url, at), Byte(Query, at)] || b == [Byte(Url, at), Byte(Fragment, at)];
  }

  /** A header line or its end: no control callback, and only header slices. */
  lemma HeaderLineFits(c: Core, ch: byte, at: nat, g: Phase)
    requires Fits(c, g) && IsHeaderState(c.state) && Step(c, ch).ctl == []
    requires var r := Step(c, ch); r.stop.Running? ==> IsHeaderState(r.core.state) && SameMessage(c, r.core)
    ensures StepFits(c, ch, at, g)
  {
    hide Step, AcceptAll;
    OutsList(c, ch, at);
    CtlNone(at);
    NothingAdds();
    AcceptOne(g, Byte(HeaderName, at));
    AcceptOne(g, Byte(HeaderText, at));
    var s := Step(c, ch).core.state;
    if s.HeaderField? {
      assert BytesAt(OpenSlices(s), at) == [Byte(HeaderName, at)];
    } else if s.HeaderValue? {
      assert BytesAt(OpenSlices(s), at) == [Byte(HeaderText, at)];
    } else if IsHeaderState(s) {
      assert OpenSlices(s) == [];
    }
  }

  predicate SameMessage(c: Core, d: Core) { d.kind == c.kind && d.flags.trailing == c.flags.trailing }

  lemma HeaderLineFrame(c: Core, ch: byte)
    requires IsHeaderState(c.state) && !EndsBlock(c, ch)
    ensures var r := Step(c, ch);
            r.ctl == [] && (r.stop.Running? ==> IsHeaderState(r.core.state) && SameMessage(c, r.core))
  {
    hide Step, StepHeaderField, StepHeaderValueStart, StepHeaderValue;
    StepCases(c, ch);
    match c.state {
      case HeaderField => NameLineFrame(c, ch);
      case HeaderValueStart => ValueStartFrame(c, ch);
      case HeaderValue => ValueLineFrame(c, ch);
      case _ =>
    }
  }

  lemma NameLineFrame(c: Core, ch: byte)
    requires c.state.HeaderField?
    ensures var r := StepHeaderField(c, ch); r.ctl == [] && IsHeaderState(r.core.state) && SameMessage(c, r.core)
  {
    hide StepName;
  }

  lemma ValueStartFrame(c: Core, ch: byte)
    requires c.state.HeaderValueStart?
    ensures var r := StepHeaderValueStart(c, ch); r.ctl == [] && IsHeaderState(r.core.state) && SameMessage(c, r.core)
  {
  }

  lemma ValueLineFrame(c: Core, ch: byte)
    requires c.state.HeaderValue?
    ensures var r := StepHeaderValue(c, ch); r.ctl == [] && IsHeaderState(r.core.state) && SameMessage(c, r.core)
  {
    hide StepValue;
  }

  predicate EndsBlock(c: Core, ch: byte) {
    ch == LF && (c.state.HeaderFieldStart? || c.state.HeadersAlmostDone?)
  }

  /** The three ways a header block can end. */
  lemma EndHeadersCases(c: Core)
    requires c.kind.Request?
    ensures var r := EndHeaders(c);
            && r.core.kind == c.kind && (r.stop.Running? || r.stop.Upgraded?)
            && (r.stop.Running? ==> r.core.state.StartReq? || r.core.state.Dead? || r.core.state.ChunkSizeStart?
                                    || r.core.state.BodyIdentity?)
            && (if c.flags.trailing then r.ctl == [MessageComplete]
                else r.ctl == [HeadersComplete] || r.ctl == [HeadersComplete, MessageComplete])
            && (r.stop.Running? ==>
                  if r.ctl == [HeadersComplete] then r.core.state.ChunkSizeStart? || r.core.state.BodyIdentity?
                  else r.core.state.StartReq? || r.core.state.Dead?)
  {
    hide KeepAlive;
  }

  lemma AcceptControls(g: Phase, at: nat)
    ensures AcceptAll(g, CtlAt([MessageComplete], at)) == Accept(g, Ctl(MessageComplete, at))
    ensures AcceptAll(g, CtlAt([HeadersComplete], at)) == Accept(g, Ctl(HeadersComplete, at))
    ensures g.RequestLine? || g.Headers? ==> AcceptAll(g, CtlAt([HeadersComplete, MessageComplete], at)) == Some(Idle)
  {
    hide AcceptAll;
    assert CtlAt([HeadersComplete], at) == [Ctl(HeadersComplete, at)];
    assert CtlAt([MessageComplete], at) == [Ctl(MessageComplete, at)];
    assert CtlAt([HeadersComplete, MessageComplete], at) == [Ctl(HeadersComplete, at), Ctl(MessageComplete, at)];
    AcceptOne(g, Ctl(HeadersComplete, at));
    AcceptOne(g, Ctl(MessageComplete, at));
    AcceptTwo(g, Ctl(HeadersComplete, at), Ctl(MessageComplete, at));
  }

  /** The end of a header block or of a trailer. */
  lemma BlockEndFits(c: Core, ch: byte, at: nat, g: Phase)
    requires Fits(c, g) && IsHeaderState(c.state) && EndsBlock(c, ch)
    ensures StepFits(c, ch, at, g)
  {
    hide Step, AcceptAll, EndHeaders, CtlAt;
    StepCases(c, ch);
    OutsList(c, ch, at);
    CtlNone(at);
    NothingAdds();
    var d := c.(state := HeadersAlmostDone);
    assert c.state.HeadersAlmostDone? ==> d == c;
    EndHeadersCases(d);
    AcceptControls(g, at);
    if Step(c, ch).stop.Running? {
      EndHeadersSignals(d);
    }
  }

  lemma IdentityFits(c: Core, ch: byte, at: nat, g: Phase)
    requires Fits(c, g) && c.state.BodyIdentity?
    ensures StepFits(c, ch, at, g)
  {
    hide Step, AcceptAll, StepIdentity, CtlAt, StepOuts;
    StepCases(c, ch);
    CtlNone(at);
    NothingAdds();
    IdentityOuts(c, ch, at);
    AcceptOne(g, Byte(Body, at));
    AcceptTwo(g, Byte(Body, at), Ctl(MessageComplete, at));
    IdentityCases(c);
  }

  lemma IdentityCases(c: Core)
    requires c.state.BodyIdentity? && c.kind.Request?
    ensures var r := StepIdentity(c);
            && r.core.kind == c.kind && r.stop.Running?
            && (if c.contentLength == 1 then
                  r.ctl == [MessageComplete] && (r.core.state.StartReq? || r.core.state.Dead?)
                else r.ctl == [] && r.core.state.BodyIdentity?)
  {
    hide KeepAlive;
  }

  lemma IdentityOuts(c: Core, ch: byte, at: nat)
    requires c.state.BodyIdentity? && c.kind.Request?
    ensures StepOuts(c, ch, at)
            == (if c.contentLength == 0 then []
                else if c.contentLength == 1 then [Byte(Body, at), Ctl(MessageComplete, at)]
                else [Byte(Body, at)])
  {
    hide Step, StepIdentity;
    StepCases(c, ch);
    IdentityCases(c);
    CtlNone(at);
    NothingAdds();
    assert OpenSlices(Step(c, ch).core.state) == [];
    assert CtlAt([MessageComplete], at) == [Ctl(MessageComplete, at)];
    assert [Byte(Body, at)] + [Ctl(MessageComplete, at)] == [Byte(Body, at), Ctl(MessageComplete, at)];
  }

  lemma ChunkFits(c: Core, ch: byte, at: nat, g: Phase)
    requires Fits(c, g) && IsChunkState(c.state)
    ensures StepFits(c, ch, at, g)
  {
    hide Step, AcceptAll, StepChunk, StepOuts;
    StepCases(c, ch);
    ChunkFrame(c, ch);
    ChunkOuts(c, ch, at);
    AcceptOne(g, Byte(Body, at));
  }

  lemma ChunkOuts(c: Core, ch: byte, at: nat)
    requires IsChunkState(c.state)
    ensures StepOuts(c, ch, at) == [] || StepOuts(c, ch, at) == [Byte(Body, at)]
  {
    hide Step, StepChunk, OpenSlices;
    StepCases(c, ch);
    ChunkFrame(c, ch);
    CtlNone(at);
    NothingAdds();
    NoSliceIn(Step(c, ch).core.state);
  }

  lemma ChunkFrame(c: Core, ch: byte)
    requires IsChunkState(c.state)
    ensures var r := StepChunk(c, ch);
            && r.ctl == [] && r.core.kind == c.kind
            && (IsChunkState(r.core.state) || (r.core.state.HeaderFieldStart? && r.core.flags.trailing))
  {
  }

  /** One byte keeps the trace inside the grammar. */
  lemma StepKeepsGrammar(c: Core, ch: byte, at: nat, g: Phase)
    requires Fits(c, g)
    ensures StepFits(c, ch, at, g)
  {
    hide StepFits, Step, InRequestLine, IsHeaderState, IsChunkState;
    if c.state.StartReq? {
      StartFits(c, ch, at, g);
    } else if InRequestLine(c.state) {
      LineFits(c, ch, at, g);
    } else if IsHeaderState(c.state) {
      if EndsBlock(c, ch) {
        BlockEndFits(c, ch, at, g);
      } else {
        HeaderLineFrame(c, ch);
        HeaderLineFits(c, ch, at, g);
      }
    } else if IsChunkState(c.state) {
      ChunkFits(c, ch, at, g);
    } else if c.state.BodyIdentity? {
      IdentityFits(c, ch, at, g);
    } else {
      DeadFits(c, ch, at, g);
    }
  }

  lemma DeadFits(c: Core, ch: byte, at: nat, g: Phase)
    requires Fits(c, g) && c.state.Dead?
    ensures StepFits(c, ch, at, g)
  {
    hide Step;
    StepCases(c, ch);
    OutsList(c, ch, at);
    CtlNone(at);
    NothingAdds();
  }

  /** The grammar, over one run. */
  lemma {:induction false} RunKeepsGrammar(c: Core, s: seq<byte>, at: nat, g: Phase)
    requires Fits(c, g)
    ensures var r := Run(c, s, at);
            var h := AcceptAll(g, r.outs);
            h.Some? && (r.stop.Running? ==> Fits(r.core, h.value))
    decreases |s|
  {
    hide Run, Step, StepOuts, Fits;
    if s == [] {
      RunNil(c, at, Run(c, s, at));
    } else {
      StepKeepsGrammar(c, s[0], at, g);
      RunCons(c, s, at);
      var r, h := Step(c, s[0]), AcceptAll(g, StepOuts(c, s[0], at));
      if r.stop.Running? {
        RunKeepsGrammar(r.core, s[1..], at + 1, h.value);
        AcceptAppend(g, StepOuts(c, s[0], at), Run(r.core, s[1..], at + 1).outs);
      }
    }
  }

  /** The grammar, over any sequence of calls: all that a request parser makes observable is a run of it. */
  lemma {:induction false} FeedKeepsGrammar(s: Saved, pieces: seq<seq<byte>>, at: nat, g: Phase)
    requires Fits(s.core, g)
    ensures AcceptAll(g, Feed(s, pieces, at).outs).Some?
    decreases |pieces|
  {
    hide Run, Count, Allowed;
    if pieces != [] {
      var k := Allowed(s.core, s.nread, pieces[0]);
      RunKeepsGrammar(s.core, pieces[0][..k], at, g);
      var r := Call(s, pieces[0], at);
      if r.stop.Running? {
        assert pieces[0][..k] == pieces[0];
        var h := AcceptAll(g, r.outs).value;
        FeedKeepsGrammar(r.saved, pieces[1..], at + |pieces[0]|, h);
        AcceptAppend(g, r.outs, Feed(r.saved, pieces[1..], at + |pieces[0]|).outs);
      }
    }
  }

  // ---------------------------------------------------------------- counting

  function Times(outs: seq<Out>, e: Control): nat {
    if outs == [] then 0
    else (if outs[0].Ctl? && outs[0].event == e then 1 else 0) + Times(outs[1..], e)
  }

  /** Begin, headers-complete and complete fire once each per message, in turn. */
  lemma {:induction false} OncePerMessage(outs: seq<Out>, g: Phase)
    requires AcceptAll(g, outs).Some?
    ensures var h := AcceptAll(g, outs).value;
            && Times(outs, MessageBegin) + (if g.Idle? then 0 else 1)
               == Times(outs, MessageComplete) + (if h.Idle? then 0 else 1)
            && Times(outs, HeadersComplete) + (if g.BodyPart? || g.Trailer? then 1 else 0)
               == Times(outs, MessageComplete) + (if h.BodyPart? || h.Trailer? then 1 else 0)
    decreases |outs|
  {
    if outs != [] {
      OncePerMessage(outs[1..], Accept(g, outs[0]).value);
    }
  }
}
