/** The callbacks as the application sees them, slices marked by their first byte and handed over when they
    end, and how such a log relates to the byte-by-byte trace of a run. */
module HttpLog {
  import opened HttpChars
  import opened HttpAutomaton
  import opened HttpRun
  import opened HttpShape

  /** One callback: a control callback, or the stream bytes `from .. to` of one slice. */
  datatype Event = Signal(event: Control, at: nat) | Data(slice: Slice, from: nat, to: nat)

  /** The `*_mark` pointers that are set, as stream offsets. */
  type Marks = map<Slice, nat>

  function EventLens(e: Event, k: Slice): seq<Out> {
    match e
    case Signal(c, at) => [Ctl(c, at)]
    case Data(j, from, to) => if j == k && from <= to then Range(k, from, to) else []
  }

  /** A log as the callback for `k` sees it: its slices joined byte by byte, between the control callbacks. */
  function LogLens(log: seq<Event>, k: Slice): seq<Out> {
    if log == [] then [] else EventLens(log[0], k) + LogLens(log[1..], k)
  }

  lemma {:induction false} LogLensAppend(a: seq<Event>, b: seq<Event>, k: Slice)
    ensures LogLens(a + b, k) == LogLens(a, k) + LogLens(b, k)
  {
    if a == [] {
      assert a + b == b;
    } else {
      assert (a + b)[0] == a[0] && (a + b)[1..] == a[1..] + b;
      LogLensAppend(a[1..], b, k);
      OutsAssoc(EventLens(a[0], k), LogLens(a[1..], k), LogLens(b, k));
    }
  }

  lemma LogLensOne(e: Event, k: Slice)
    ensures LogLens([e], k) == EventLens(e, k)
  {
    assert LogLens([e][1..], k) == [];
    assert EventLens(e, k) + [] == EventLens(e, k);
  }

  /** The bytes of slice `k` that are marked but not yet handed over. */
  function Pending(marks: Marks, k: Slice, at: nat): seq<Out> {
    if k in marks && marks[k] <= at then Range(k, marks[k], at) else []
  }

  predicate IsOpen(s: State, k: Slice) {
    match k
    case Url => InUrl(s)
    case Path => s.ReqPath?
    case Query => s.ReqQuery?
    case Fragment => s.ReqFragment?
    case HeaderName => s.HeaderField?
    case HeaderText => s.HeaderValue?
    case Body => false
  }

  /** The slices open in a state: the marks that are set. */
  function OpenSet(s: State): set<Slice> {
    set k: Slice | IsOpen(s, k)
  }

  /** The marks when the loop moves on to the next byte in state `s`. */
  function MarksAfter(marks: Marks, s: State, at: nat): Marks {
    map k | k in OpenSet(s) :: if k in marks then marks[k] else at
  }

  function CloseOne(marks: Marks, keep: set<Slice>, k: Slice, at: nat): seq<Event> {
    if k in marks && k !in keep then [Data(k, marks[k], at)] else []
  }

  /** The slices that end: the url first, then the slice inside it. */
  function Closing(marks: Marks, keep: set<Slice>, at: nat): seq<Event> {
    CloseOne(marks, keep, Url, at) + CloseOne(marks, keep, Path, at) + CloseOne(marks, keep, Query, at)
    + CloseOne(marks, keep, Fragment, at) + CloseOne(marks, keep, HeaderName, at)
    + CloseOne(marks, keep, HeaderText, at)
  }

  /** The `CALLBACK_NOCLEAR`s after the loop, in their order. */
  function Flush(marks: Marks, at: nat): seq<Event> {
    CloseOne(marks, {}, HeaderName, at) + CloseOne(marks, {}, HeaderText, at) + CloseOne(marks, {}, Fragment, at)
    + CloseOne(marks, {}, Query, at) + CloseOne(marks, {}, Path, at) + CloseOne(marks, {}, Url, at)
  }

  function Signals(ctl: seq<Control>, at: nat): seq<Event> {
    seq(|ctl|, i requires 0 <= i < |ctl| => Signal(ctl[i], at))
  }

  /** An empty header value is marked and handed over on the same byte. */
  predicate IsEmptyValue(c: Core, ch: byte) {
    c.state.HeaderValueStart? && (ch == CR || ch == LF)
  }

  /** The callbacks of one iteration outside the bodies, given its result `r`. */
  function Emitted(c: Core, ch: byte, r: StepResult, marks: Marks, at: nat): seq<Event> {
    Closing(marks, if r.stop.Running? then OpenSet(r.core.state) else marks.Keys, at)
    + (if IsEmptyValue(c, ch) && r.stop.Running? then [Data(HeaderText, at, at)] else [])
    + Signals(r.ctl, at)
  }

  // ---------------------------------------------------------------- marks

  lemma OpenSetOf(s: State)
    ensures OpenSet(s) == match s
                          case ReqPath => {Url, Path}
                          case ReqQuery => {Url, Query}
                          case ReqFragment => {Url, Fragment}
                          case HeaderField => {HeaderName}
                          case HeaderValue => {HeaderText}
                          case _ => if InUrl(s) then {Url} else {}
  {
  }

  /** No slice starts or ends. */
  lemma KeepMarks(marks: Marks, s: State, at: nat)
    requires marks.Keys == OpenSet(s)
    ensures MarksAfter(marks, s, at) == marks && Closing(marks, OpenSet(s), at) == []
    ensures Closing(marks, marks.Keys, at) == []
  {
    hide OpenSet;
  }

  /** One slice starts. */
  lemma OpenOne(marks: Marks, s: State, k: Slice, at: nat)
    requires k !in marks && OpenSet(s) == marks.Keys + {k}
    ensures MarksAfter(marks, s, at) == marks[k := at] && Closing(marks, OpenSet(s), at) == []
  {
    hide OpenSet;
  }

  /** The slice inside the url ends. */
  lemma CloseInner(marks: Marks, s: State, k: Slice, at: nat)
    requires marks.Keys == {Url, k} && OpenSet(s) == {Url} && k in {Path, Query, Fragment}
    ensures MarksAfter(marks, s, at) == marks - {k} && Closing(marks, OpenSet(s), at) == CloseOne(marks, {}, k, at)
  {
    hide OpenSet;
    assert MarksAfter(marks, s, at).Keys == {Url};
  }

  /** Everything ends: the url, and the slice `k` inside it if there is one, or a single other slice. */
  lemma CloseAll(marks: Marks, s: State, k: Slice, at: nat)
    requires marks.Keys <= {Url, k} && !k.Body? && !k.Url? && OpenSet(s) == {}
    ensures MarksAfter(marks, s, at) == map[]
    ensures Closing(marks, OpenSet(s), at) == CloseOne(marks, {}, Url, at) + CloseOne(marks - {Url}, {}, k, at)
    ensures marks - {Url} - {k} == map[]
  {
    hide OpenSet;
  }

  // ---------------------------------------------------------------- accounting

  lemma ClosingLens(marks: Marks, keep: set<Slice>, at: nat, k: Slice)
    requires k.Body? ==> k !in marks
    requires k in marks ==> marks[k] <= at
    ensures LogLens(Closing(marks, keep, at), k)
            == (if k in marks && k !in keep then Range(k, marks[k], at) else [])
  {
    hide LogLens, Range, Closing, CloseOne;
    var u, p, q := CloseOne(marks, keep, Url, at), CloseOne(marks, keep, Path, at), CloseOne(marks, keep, Query, at);
    var f, h, t := CloseOne(marks, keep, Fragment, at), CloseOne(marks, keep, HeaderName, at),
        CloseOne(marks, keep, HeaderText, at);
    assert Closing(marks, keep, at) == u + p + q + f + h + t by { ClosingParts(marks, keep, at); }
    LogLensAppend(u, p, k);
    LogLensAppend(u + p, q, k);
    LogLensAppend(u + p + q, f, k);
    LogLensAppend(u + p + q + f, h, k);
    LogLensAppend(u + p + q + f + h, t, k);
    CloseOneLens(marks, keep, Url, at, k);
    CloseOneLens(marks, keep, Path, at, k);
    CloseOneLens(marks, keep, Query, at, k);
    CloseOneLens(marks, keep, Fragment, at, k);
    CloseOneLens(marks, keep, HeaderName, at, k);
    CloseOneLens(marks, keep, HeaderText, at, k);
  }

  lemma ClosingParts(marks: Marks, keep: set<Slice>, at: nat)
    ensures Closing(marks, keep, at)
            == CloseOne(marks, keep, Url, at) + CloseOne(marks, keep, Path, at) + CloseOne(marks, keep, Query, at)
               + CloseOne(marks, keep, Fragment, at) + CloseOne(marks, keep, HeaderName, at)
               + CloseOne(marks, keep, HeaderText, at)
  {
  }

  lemma CloseOneLens(marks: Marks, keep: set<Slice>, j: Slice, at: nat, k: Slice)
    requires k in marks ==> marks[k] <= at
    ensures LogLens(CloseOne(marks, keep, j, at), k)
            == (if j == k && k in marks && k !in keep then Range(k, marks[k], at) else [])
  {
    hide Range;
    if j in marks && j !in keep {
      LogLensOne(Data(j, marks[j], at), k);
    }
  }

  lemma {:induction false} SignalsLens(ctl: seq<Control>, at: nat, k: Slice)
    ensures LogLens(Signals(ctl, at), k) == CtlAt(ctl, at)
    ensures Lens(CtlAt(ctl, at), k) == CtlAt(ctl, at)
    decreases |ctl|
  {
    if ctl != [] {
      SignalsLens(ctl[1..], at, k);
      assert Signals(ctl, at)[1..] == Signals(ctl[1..], at);
      assert CtlAt(ctl, at)[1..] == CtlAt(ctl[1..], at);
      assert CtlAt(ctl, at) == [Ctl(ctl[0], at)] + CtlAt(ctl[1..], at);
    }
  }

  lemma OpenSlicesOf(s: State)
    ensures OpenSlices(s) == match s
                             case ReqPath => [Url, Path]
                             case ReqQuery => [Url, Query]
                             case ReqFragment => [Url, Fragment]
                             case HeaderField => [HeaderName]
                             case HeaderValue => [HeaderText]
                             case _ => if InUrl(s) then [Url] else []
  {
  }

  lemma BytesLens(s: State, at: nat, k: Slice)
    ensures Lens(BytesAt(OpenSlices(s), at), k) == (if k in OpenSet(s) then [Byte(k, at)] else [])
  {
    hide Lens, OpenSet, OpenSlices, InUrl;
    OpenSetOf(s);
    OpenSlicesOf(s);
    var open := OpenSlices(s);
    assert open == [] || open == [open[0]] || (open == [open[0], open[1]] && open[0] != open[1]);
    SlicesLens(open, at, k);
  }

  lemma SlicesLens(open: seq<Slice>, at: nat, k: Slice)
    requires |open| <= 2 && (|open| == 2 ==> open[0] != open[1])
    ensures Lens(BytesAt(open, at), k) == (if k in open then [Byte(k, at)] else [])
  {
    var b := BytesAt(open, at);
    hide Lens;
    if |open| == 0 {
      assert b == [];
      LensEmpty(k);
    } else if |open| == 1 {
      assert b == [Byte(open[0], at)];
      LensOne(b[0], k);
    } else {
      assert b == [Byte(open[0], at)] + [Byte(open[1], at)];
      LensOne(b[0], k);
      LensOne(b[1], k);
      LensAppend([b[0]], [b[1]], k);
    }
  }

  /** Control callbacks fire only where no slice is open. */
  lemma SignalsBetweenSlices(c: Core, ch: byte)
    requires Step(c, ch).ctl != []
    ensures OpenSet(c.state) == {} && (Step(c, ch).stop.Running? ==> OpenSlices(Step(c, ch).core.state) == [])
  {
    hide *;
    StateGroups(c.state);
    if IsUrlState(c.state) || c.state.ReqMethod? || IsLiteralState(c.state) || IsNumberState(c.state) {
      QuietLine(c, ch);
    } else if IsHeaderState(c.state) {
      HeaderSignals(c, ch);
    } else {
      NoOpenSlices(c.state);
      if IsStartState(c.state) {
        StartSignals(c, ch);
      } else if IsChunkState(c.state) || c.state.BodyIdentity? {
        BodySignals(c, ch);
      } else {
        QuietRest(c, ch);
      }
    }
  }

  lemma QuietRest(c: Core, ch: byte)
    requires c.state.Dead? || c.state.BodyIdentityEof?
    ensures Step(c, ch).ctl == []
  {
    hide Step;
    StepCases(c, ch);
  }

  lemma QuietLine(c: Core, ch: byte)
    requires IsUrlState(c.state) || c.state.ReqMethod? || IsLiteralState(c.state) || IsNumberState(c.state)
    ensures Step(c, ch).ctl == [] && !Step(c, ch).reset
  {
    hide Step, UrlMove, LiteralMove, StepNumber, StepMethod;
    StepCases(c, ch);
    if IsNumberState(c.state) {
      NumberFrame(c, ch);
    } else if c.state.ReqMethod? {
      MethodFrame(c, ch);
    }
  }

  lemma HeaderSignals(c: Core, ch: byte)
    requires IsHeaderState(c.state) && Step(c, ch).ctl != []
    ensures OpenSet(c.state) == {} && (Step(c, ch).stop.Running? ==> OpenSlices(Step(c, ch).core.state) == [])
  {
    hide Step, StepName, StepValue, OpenSet, OpenSlices, NewMessage;
    StepCases(c, ch);
    assert c.state.HeaderFieldStart? || c.state.HeadersAlmostDone?;
    EndHeadersSignals(c);
    EndHeadersSignals(c.(state := HeadersAlmostDone));
    OpenSetOf(c.state);
  }

  lemma EndHeadersSignals(c: Core)
    ensures EndHeaders(c).stop.Running? ==> OpenSlices(EndHeaders(c).core.state) == []
  {
    hide NewMessage;
    NewMessageState(c);
    NewMessageState(c.(upgrade := c.upgrade || c.flags.upgrade || c.meth.Connect?));
  }

  lemma StartSignals(c: Core, ch: byte)
    requires IsStartState(c.state)
    ensures OpenSlices(Step(c, ch).core.state) == []
  {
    hide StepStart, Step;
    StepCases(c, ch);
    StartFrame(c, ch);
  }

  lemma BodySignals(c: Core, ch: byte)
    requires IsChunkState(c.state) || c.state.BodyIdentity?
    ensures OpenSlices(Step(c, ch).core.state) == []
  {
    hide NewMessage, Step, OpenSlices, StepChunk;
    StepCases(c, ch);
    if c.state.BodyIdentity? {
      NewMessageState(c.(contentLength := if c.contentLength == 0 then 0 else c.contentLength - 1));
      NoSliceIn(c.state);
    } else {
      ChunkTarget(c, ch);
      NoSliceIn(StepChunk(c, ch).core.state);
    }
  }

  lemma ChunkTarget(c: Core, ch: byte)
    requires IsChunkState(c.state)
    ensures var s := StepChunk(c, ch).core.state; IsChunkState(s) || s.HeaderFieldStart?
  {
  }

  lemma NoSliceIn(s: State)
    requires IsChunkState(s) || s.HeaderFieldStart? || s.BodyIdentity?
    ensures OpenSlices(s) == []
  {
  }

  lemma NewMessageState(c: Core)
    ensures OpenSlices(NewMessage(c).state) == []
  {
  }

  lemma NoOpenSlices(s: State)
    requires !IsUrlState(s) && !IsHeaderState(s)
    ensures OpenSet(s) == {}
  {
  }

  /** What one byte hands over and newly marks is what it makes observable. */
  lemma StepAccounting(c: Core, ch: byte, marks: Marks, at: nat, k: Slice)
    requires !DeliversBody(c) && marks.Keys == OpenSet(c.state)
    requires k in marks ==> marks[k] <= at
    ensures var r := Step(c, ch);
            var log := LogLens(Emitted(c, ch, r, marks, at), k);
            if r.stop.Running? then
              log + Pending(MarksAfter(marks, r.core.state, at), k, at + 1)
              == Pending(marks, k, at) + Lens(StepOuts(c, ch, at), k)
            else log == Lens(StepOuts(c, ch, at), k)
  {
    hide Step, Closing, LogLens, Lens, OpenSet;
    var r := Step(c, ch);
    assert k.Body? ==> k !in marks by { NoBodyMark(c.state); }
    EmittedLens(c, ch, r, marks, at, k);
    OutsLens(c, ch, at, k);
    if r.ctl != [] {
      SignalsBetweenSlices(c, ch);
    }
    if r.stop.Running? {
      if k in OpenSet(r.core.state) {
        if k in marks { RangeSnoc(k, marks[k], at); }
        assert r.ctl != [] ==> false by { NoSlices(r.core.state); }
      }
    }
  }

  lemma NoBodyMark(s: State)
    ensures Body !in OpenSet(s)
  {
  }

  lemma NoSlices(s: State)
    ensures OpenSlices(s) == [] ==> OpenSet(s) == {}
  {
  }

  lemma EmittedLens(c: Core, ch: byte, r: StepResult, marks: Marks, at: nat, k: Slice)
    requires k in marks ==> marks[k] <= at
    requires k.Body? ==> k !in marks
    ensures LogLens(Emitted(c, ch, r, marks, at), k)
            == (if r.stop.Running? && k in marks && k !in OpenSet(r.core.state) then Range(k, marks[k], at) else [])
               + CtlAt(r.ctl, at)
  {
    hide LogLens, Closing, OpenSet, Range;
    var closed := Closing(marks, if r.stop.Running? then OpenSet(r.core.state) else marks.Keys, at);
    var empty := if IsEmptyValue(c, ch) && r.stop.Running? then [Data(HeaderText, at, at)] else [];
    LogLensAppend(closed, empty, k);
    LogLensAppend(closed + empty, Signals(r.ctl, at), k);
    ClosingLens(marks, if r.stop.Running? then OpenSet(r.core.state) else marks.Keys, at, k);
    SignalsLens(r.ctl, at, k);
    assert LogLens(empty, k) == [] by { EmptyValueLens(at, k); }
  }

  lemma EmptyValueLens(at: nat, k: Slice)
    ensures LogLens([], k) == [] && LogLens([Data(HeaderText, at, at)], k) == []
  {
    LogLensOne(Data(HeaderText, at, at), k);
  }

  lemma OutsLens(c: Core, ch: byte, at: nat, k: Slice)
    requires !DeliversBody(c)
    ensures var r := Step(c, ch);
            Lens(StepOuts(c, ch, at), k)
            == CtlAt(r.ctl, at) + (if r.stop.Running? && k in OpenSet(r.core.state) then [Byte(k, at)] else [])
  {
    hide Step, Lens, OpenSet;
    var r := Step(c, ch);
    var bytes := if r.stop.Running? then BytesAt(OpenSlices(r.core.state), at) else [];
    assert StepOuts(c, ch, at) == CtlAt(r.ctl, at) + bytes;
    LensAppend(CtlAt(r.ctl, at), bytes, k);
    SignalsLens(r.ctl, at, k);
    if r.stop.Running? {
      BytesLens(r.core.state, at, k);
    } else {
      LensEmpty(k);
    }
  }

}
