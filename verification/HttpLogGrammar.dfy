/** The order of callbacks: the log of a request parser, over any calls, follows the shape of messages, whatever was
    dropped when the parser stopped. */
module HttpLogGrammar {
  import opened Options
  import opened HttpChars
  import opened HttpAutomaton
  import opened HttpShape
  import opened HttpRun
  import opened HttpBody
  import opened HttpLog
  import opened HttpGrammar

  // ---------------------------------------------------------------- logs

  /** What the grammar sees of a callback: its kind. */
  function Head(e: Event): Out {
    match e
    case Signal(c, at) => Ctl(c, at)
    case Data(k, from, _) => Byte(k, from)
  }

  function Heads(log: seq<Event>): seq<Out> {
    seq(|log|, i requires 0 <= i < |log| => Head(log[i]))
  }

  lemma HeadsAppend(a: seq<Event>, b: seq<Event>)
    ensures Heads(a + b) == Heads(a) + Heads(b)
  {
  }

  /** The phase behind these callbacks, if the grammar allows them in this order. */
  function AcceptLog(g: Phase, log: seq<Event>): Option<Phase> { AcceptAll(g, Heads(log)) }

  lemma AcceptLogAppend(g: Phase, a: seq<Event>, b: seq<Event>)
    ensures AcceptLog(g, a + b) == (match AcceptLog(g, a) case Some(h) => AcceptLog(h, b) case None => None)
  {
    HeadsAppend(a, b);
    AcceptAppend(g, Heads(a), Heads(b));
  }

  /** From the fields `c` on, the log has grown by callbacks that the grammar allows; if the parser can go on, its
      fields `d` fit the phase that these lead to. */
  ghost predicate GrowsInOrder(c: Core, log0: seq<Event>, log: seq<Event>, d: Core, goesOn: bool) {
    && log0 <= log
    && forall g :: Fits(c, g) ==>
         var h := AcceptLog(g, log[|log0|..]);
         h.Some? && (goesOn ==> Fits(d, h.value))
  }

  lemma GrowsByNothing(c: Core, log: seq<Event>)
    ensures GrowsInOrder(c, log, log, c, true)
  {
    assert log[|log|..] == [];
  }

  lemma GrowsMore(c: Core, log0: seq<Event>, log1: seq<Event>, d: Core, more: seq<Event>, e: Core, goesOn: bool)
    requires GrowsInOrder(c, log0, log1, d, true)
    requires forall g :: Fits(d, g) ==> var h := AcceptLog(g, more); h.Some? && (goesOn ==> Fits(e, h.value))
    ensures GrowsInOrder(c, log0, log1 + more, e, goesOn)
  {
    hide Fits, AcceptLog;
    assert (log1 + more)[|log0|..] == log1[|log0|..] + more;
    forall g | Fits(c, g)
      ensures var h := AcceptLog(g, (log1 + more)[|log0|..]); h.Some? && (goesOn ==> Fits(e, h.value))
    {
      AcceptLogAppend(g, log1[|log0|..], more);
    }
  }

  lemma GrowsAndStops(c: Core, log0: seq<Event>, log: seq<Event>, d: Core, goesOn: bool, e: Core)
    requires GrowsInOrder(c, log0, log, d, goesOn)
    ensures GrowsInOrder(c, log0, log, e, false)
  {
  }

  lemma GrowsThen(c: Core, log0: seq<Event>, log1: seq<Event>, d: Core, log2: seq<Event>, e: Core, goesOn: bool)
    requires GrowsInOrder(c, log0, log1, d, true) && GrowsInOrder(d, log1, log2, e, goesOn)
    ensures GrowsInOrder(c, log0, log2, e, goesOn)
  {
    hide Fits, AcceptLog;
    assert log2 == log1 + log2[|log1|..];
    GrowsMore(c, log0, log1, d, log2[|log1|..], e, goesOn);
  }

  // ---------------------------------------------------------------- slices that are handed over

  /** Data callbacks for these slices only. */
  predicate OnlySlices(log: seq<Event>, slices: set<Slice>) {
    forall i :: 0 <= i < |log| ==> log[i].Data? && log[i].slice in slices
  }

  lemma FirstSlice(log: seq<Event>, slices: set<Slice>)
    requires OnlySlices(log, slices)
    ensures log == [] || (log[0].Data? && log[0].slice in slices)
  {
  }

  lemma ClosingSlices(marks: Marks, keep: set<Slice>, at: nat)
    requires Body !in marks
    ensures OnlySlices(Closing(marks, keep, at), marks.Keys)
  {
  }

  lemma FlushSlices(marks: Marks, at: nat)
    ensures OnlySlices(Flush(marks, at), marks.Keys)
  {
  }

  lemma {:induction false} UrlSlicesFit(g: Phase, log: seq<Event>)
    requires g.RequestLine? && OnlySlices(log, {Url, Path, Query, Fragment})
    ensures AcceptLog(g, log) == Some(g)
    decreases |log|
  {
    if log != [] {
      assert Heads(log)[1..] == Heads(log[1..]);
      UrlSlicesFit(g, log[1..]);
    }
  }

  lemma {:induction false} HeaderSlicesFit(g: Phase, log: seq<Event>)
    requires !g.Idle? && OnlySlices(log, {HeaderName, HeaderText})
    ensures var h := AcceptLog(g, log);
            && h.Some? && (g.RequestLine? || g.Headers? ==> h.value.RequestLine? || h.value.Headers?)
            && (g.BodyPart? || g.Trailer? ==> h.value.BodyPart? || h.value.Trailer?)
    decreases |log|
  {
    if log != [] {
      assert Heads(log)[1..] == Heads(log[1..]);
      HeaderSlicesFit(Accept(g, Head(log[0])).value, log[1..]);
    }
  }

  /** Handing over open slices does not leave the part of the message they are in. */
  lemma OpenSlicesFit(c: Core, log: seq<Event>, g: Phase)
    requires Fits(c, g) && OnlySlices(log, OpenSet(c.state))
    ensures var h := AcceptLog(g, log); h.Some? && Fits(c, h.value)
  {
    hide OpenSet, AcceptLog;
    OpenSetOf(c.state);
    if InRequestLine(c.state) {
      UrlSlicesFit(g, log);
    } else if IsHeaderState(c.state) {
      HeaderSlicesFit(g, log);
    } else {
      NoOpenSlices(c.state);
      FirstSlice(log, {});
      AcceptNothing(g);
    }
  }

  lemma AcceptNothing(g: Phase)
    ensures AcceptLog(g, []) == Some(g)
  {
  }

  // ---------------------------------------------------------------- one byte

  /** What the callbacks of one iteration owe the grammar. */
  predicate ByteInOrder(c: Core, ch: byte, marks: Marks, at: nat, g: Phase) {
    var r, h := Step(c, ch), AcceptLog(g, Emitted(c, ch, Step(c, ch), marks, at));
    h.Some? && (r.stop.Running? ==> Fits(r.core, h.value))
  }

  lemma SignalHeads(ctl: seq<Control>, at: nat)
    ensures Heads(Signals(ctl, at)) == CtlAt(ctl, at)
  {
  }

  /** Where nothing is open before or after the byte, the callbacks are the observables. */
  lemma SignalsInOrder(c: Core, ch: byte, marks: Marks, at: nat, g: Phase)
    requires Fits(c, g) && marks == map[] && !DeliversBody(c) && !(IsEmptyValue(c, ch) && Step(c, ch).stop.Running?)
    requires Step(c, ch).stop.Running? ==> OpenSlices(Step(c, ch).core.state) == []
    ensures ByteInOrder(c, ch, marks, at, g)
  {
    hide Step, AcceptAll, Fits;
    StepKeepsGrammar(c, ch, at, g);
    var r := Step(c, ch);
    OutsList(c, ch, at);
    SignalHeads(r.ctl, at);
    CtlNone(at);
    NothingAdds();
    assert Emitted(c, ch, r, marks, at) == Signals(r.ctl, at);
  }

  /** A byte that stops the parser hands no slice over. */
  lemma StopInOrder(c: Core, ch: byte, marks: Marks, at: nat, g: Phase)
    requires Fits(c, g) && !DeliversBody(c) && !Step(c, ch).stop.Running?
    ensures ByteInOrder(c, ch, marks, at, g)
  {
    hide Step, AcceptAll, Fits, Closing;
    StepKeepsGrammar(c, ch, at, g);
    var r := Step(c, ch);
    OutsList(c, ch, at);
    SignalHeads(r.ctl, at);
    CtlNone(at);
    NothingAdds();
    assert Closing(marks, marks.Keys, at) == [] by { NothingCloses(marks, at); }
    assert Emitted(c, ch, r, marks, at) == Signals(r.ctl, at);
  }

  lemma NothingCloses(marks: Marks, at: nat)
    ensures Closing(marks, marks.Keys, at) == []
  {
  }

  /** A byte of the request line hands over url slices only. */
  lemma LineInOrder(c: Core, ch: byte, marks: Marks, at: nat, g: Phase)
    requires Fits(c, g) && marks.Keys == OpenSet(c.state) && InRequestLine(c.state) && Step(c, ch).stop.Running?
    ensures ByteInOrder(c, ch, marks, at, g)
  {
    hide Step, AcceptLog, OpenSet, Closing, StepMethod, UrlMove, LiteralMove, StepNumber;
    QuietLine(c, ch);
    LineTarget(c, ch);
    var closing := Closing(marks, OpenSet(Step(c, ch).core.state), at);
    NoBodyMark(c.state);
    ClosingSlices(marks, OpenSet(Step(c, ch).core.state), at);
    OpenSetOf(c.state);
    UrlSlicesFit(g, closing);
    assert Emitted(c, ch, Step(c, ch), marks, at) == closing;
  }

  /** A byte of a header line hands over its name or its value. */
  lemma HeaderInOrder(c: Core, ch: byte, marks: Marks, at: nat, g: Phase)
    requires Fits(c, g) && marks.Keys == OpenSet(c.state) && IsHeaderState(c.state) && !EndsBlock(c, ch)
    requires Step(c, ch).stop.Running?
    ensures ByteInOrder(c, ch, marks, at, g)
  {
    hide Step, AcceptLog, OpenSet, Closing, EndsBlock;
    HeaderLineFrame(c, ch);
    var r := Step(c, ch);
    var closing := Closing(marks, OpenSet(r.core.state), at);
    NoBodyMark(c.state);
    ClosingSlices(marks, OpenSet(r.core.state), at);
    OpenSetOf(c.state);
    var e := Emitted(c, ch, r, marks, at);
    assert e == closing + (if IsEmptyValue(c, ch) then [Data(HeaderText, at, at)] else []);
    HeaderSlicesFit(g, e);
  }

  /** The callbacks of every byte outside the bodies are in order. */
  lemma EmittedInOrder(c: Core, ch: byte, marks: Marks, at: nat, g: Phase)
    requires Fits(c, g) && marks.Keys == OpenSet(c.state) && !DeliversBody(c)
    ensures ByteInOrder(c, ch, marks, at, g)
  {
    hide Step, ByteInOrder, OpenSet, OpenSlices, EndHeaders;
    var r := Step(c, ch);
    if !r.stop.Running? {
      StopInOrder(c, ch, marks, at, g);
    } else if InRequestLine(c.state) {
      LineInOrder(c, ch, marks, at, g);
    } else if IsHeaderState(c.state) && !EndsBlock(c, ch) {
      HeaderInOrder(c, ch, marks, at, g);
    } else {
      if IsHeaderState(c.state) {
        OpenSetOf(c.state);
      } else {
        NoOpenSlices(c.state);
      }
      if c.state.StartReq? {
        StartSignals(c, ch);
      } else if IsHeaderState(c.state) {
        StepCases(c, ch);
        EndHeadersSignals(c.(state := HeadersAlmostDone));
        assert c.state.HeadersAlmostDone? ==> c == c.(state := HeadersAlmostDone);
      } else if IsChunkState(c.state) || c.state.BodyIdentity? {
        BodySignals(c, ch);
      } else {
        StepCases(c, ch);
      }
      SignalsInOrder(c, ch, marks, at, g);
    }
  }

  // ---------------------------------------------------------------- bodies

  lemma IdentityInOrder(c: Core, m: nat, at: nat, g: Phase)
    requires Fits(c, g) && c.state.BodyIdentity? && 0 < m <= c.contentLength
    ensures var log := [Data(Body, at, at + m)] + Signals(SkipIdentityEvents(c, m), at + m - 1);
            var h := AcceptLog(g, log);
            h.Some? && Fits(SkipIdentity(c, m), h.value)
  {
    hide KeepAlive, AcceptAll;
    var ctl := SkipIdentityEvents(c, m);
    var log := [Data(Body, at, at + m)] + Signals(ctl, at + m - 1);
    AcceptOne(g, Byte(Body, at));
    AcceptTwo(g, Byte(Body, at), Ctl(MessageComplete, at + m - 1));
    if m == c.contentLength {
      assert Heads(log) == [Byte(Body, at), Ctl(MessageComplete, at + m - 1)];
    } else {
      assert Heads(log) == [Byte(Body, at)];
    }
  }

  lemma ChunkInOrder(c: Core, m: nat, at: nat, g: Phase)
    requires Fits(c, g) && c.state.ChunkData? && 0 < m <= c.contentLength
    ensures var h := AcceptLog(g, [Data(Body, at, at + m)]);
            h.Some? && Fits(SkipChunkData(c, m), h.value)
  {
    AcceptOne(g, Byte(Body, at));
    assert Heads([Data(Body, at, at + m)]) == [Byte(Body, at)];
  }

  // ---------------------------------------------------------------- the loop

  lemma ByteGrows(c0: Core, log0: seq<Event>, log: seq<Event>, c: Core, ch: byte, marks: Marks, at: nat)
    requires GrowsInOrder(c0, log0, log, c, true) && marks.Keys == OpenSet(c.state) && !DeliversBody(c)
    ensures var r := Step(c, ch);
            GrowsInOrder(c0, log0, log + Emitted(c, ch, r, marks, at), r.core, r.stop.Running?)
  {
    hide GrowsInOrder, Step, Fits, AcceptLog, Emitted, OpenSet, DeliversBody;
    forall g | Fits(c, g) ensures ByteInOrder(c, ch, marks, at, g) { EmittedInOrder(c, ch, marks, at, g); }
    GrowsMore(c0, log0, log, c, Emitted(c, ch, Step(c, ch), marks, at), Step(c, ch).core, Step(c, ch).stop.Running?);
  }

  lemma IdentityGrows(c0: Core, log0: seq<Event>, log: seq<Event>, c: Core, m: nat, at: nat)
    requires GrowsInOrder(c0, log0, log, c, true) && c.state.BodyIdentity? && 0 < m <= c.contentLength
    ensures GrowsInOrder(c0, log0, log + [Data(Body, at, at + m)] + Signals(SkipIdentityEvents(c, m), at + m - 1),
                         SkipIdentity(c, m), true)
  {
    hide GrowsInOrder, Fits, AcceptLog, SkipIdentity, SkipIdentityEvents;
    var more := [Data(Body, at, at + m)] + Signals(SkipIdentityEvents(c, m), at + m - 1);
    forall g | Fits(c, g)
      ensures var h := AcceptLog(g, more); h.Some? && Fits(SkipIdentity(c, m), h.value)
    {
      IdentityInOrder(c, m, at, g);
    }
    GrowsMore(c0, log0, log, c, more, SkipIdentity(c, m), true);
    assert log + more == log + [Data(Body, at, at + m)] + Signals(SkipIdentityEvents(c, m), at + m - 1);
  }

  lemma ChunkGrows(c0: Core, log0: seq<Event>, log: seq<Event>, c: Core, m: nat, at: nat)
    requires GrowsInOrder(c0, log0, log, c, true) && c.state.ChunkData? && 0 < m <= c.contentLength
    ensures GrowsInOrder(c0, log0, log + [Data(Body, at, at + m)], SkipChunkData(c, m), true)
  {
    hide GrowsInOrder, Fits, AcceptLog, SkipChunkData;
    forall g | Fits(c, g)
      ensures var h := AcceptLog(g, [Data(Body, at, at + m)]); h.Some? && Fits(SkipChunkData(c, m), h.value)
    {
      ChunkInOrder(c, m, at, g);
    }
    GrowsMore(c0, log0, log, c, [Data(Body, at, at + m)], SkipChunkData(c, m), true);
  }

  /** The end of the buffer, and the save. */
  lemma FlushGrows(c0: Core, log0: seq<Event>, log: seq<Event>, c: Core, marks: Marks, at: nat)
    requires GrowsInOrder(c0, log0, log, c, true) && marks.Keys == OpenSet(c.state)
    ensures GrowsInOrder(c0, log0, log + Flush(marks, at), c.(index := c.index % 256), true)
  {
    hide GrowsInOrder, AcceptLog, Flush, OpenSet;
    FlushSlices(marks, at);
    forall g | Fits(c, g)
      ensures var h := AcceptLog(g, Flush(marks, at)); h.Some? && Fits(c.(index := c.index % 256), h.value)
    {
      OpenSlicesFit(c, Flush(marks, at), g);
    }
    GrowsMore(c0, log0, log, c, Flush(marks, at), c.(index := c.index % 256), true);
  }

  // ---------------------------------------------------------------- counting

  /** How often a control callback has fired. */
  function Fired(log: seq<Event>, e: Control): nat {
    if log == [] then 0
    else (if log[0].Signal? && log[0].event == e then 1 else 0) + Fired(log[1..], e)
  }

  lemma {:induction false} FiredIsTimes(log: seq<Event>, e: Control)
    ensures Fired(log, e) == Times(Heads(log), e)
    decreases |log|
  {
    if log != [] {
      assert Heads(log)[1..] == Heads(log[1..]);
      FiredIsTimes(log[1..], e);
    }
  }

  /** Begin, headers-complete and complete have fired once each per message, in turn. */
  lemma FiredOncePerMessage(log: seq<Event>, g: Phase)
    requires AcceptLog(g, log).Some?
    ensures var h := AcceptLog(g, log).value;
            && Fired(log, MessageBegin) + (if g.Idle? then 0 else 1)
               == Fired(log, MessageComplete) + (if h.Idle? then 0 else 1)
            && Fired(log, HeadersComplete) + (if g.BodyPart? || g.Trailer? then 1 else 0)
               == Fired(log, MessageComplete) + (if h.BodyPart? || h.Trailer? then 1 else 0)
  {
    OncePerMessage(Heads(log), g);
    FiredIsTimes(log, MessageBegin);
    FiredIsTimes(log, HeadersComplete);
    FiredIsTimes(log, MessageComplete);
  }

  /** The log of a request parser from its start on: the grammar allows it, stopped or not, so that at most one message
      has begun and not completed, and at most one has complete headers and is not complete itself. */
  lemma LogFromStart(c: Core, log: seq<Event>, d: Core, goesOn: bool)
    requires c.kind.Request? && c.state.StartReq? && GrowsInOrder(c, [], log, d, goesOn)
    ensures AcceptLog(Idle, log).Some?
    ensures Fired(log, MessageComplete) <= Fired(log, HeadersComplete) <= Fired(log, MessageBegin)
            <= Fired(log, MessageComplete) + 1
  {
    assert Fits(c, Idle) && log[0..] == log;
    FiredOncePerMessage(log, Idle);
  }
}
