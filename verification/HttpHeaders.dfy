/** Header blocks: what any sequence of well-formed lines does to the parser. */
module HttpHeaders {
  import opened Options
  import opened HttpChars
  import opened HttpAutomaton
  import opened HttpText
  import opened HttpShape
  import opened HttpInvariant
  import opened HttpRun
  import opened HttpHeaderWords

  // ---------------------------------------------------------------- lines

  /** A header line: a name, a colon and a value unless the colon is missing, and a line end. */
  datatype Line = Line(name: seq<byte>, value: Option<seq<byte>>, crlf: bool)

  predicate ValidName(name: seq<byte>) {
    name != [] && forall i :: 0 <= i < |name| ==> IsNameByte(name[i])
  }

  predicate ValidValue(v: seq<byte>) { CR !in v && LF !in v }

  predicate ValidLine(l: Line) {
    ValidName(l.name) && (l.value.Some? ==> ValidValue(l.value.value))
  }

  function Eol(crlf: bool): seq<byte> { if crlf then [CR, LF] else [LF] }

  function Rest(l: Line): seq<byte> {
    (if l.value.Some? then [COLON] + l.value.value else []) + Eol(l.crlf)
  }

  function Encode(l: Line): seq<byte> { l.name + Rest(l) }

  // ---------------------------------------------------------------- names

  /** A name runs through the name matcher and is handed over byte by byte. */
  lemma {:induction false} NameRun(c: Core, name: seq<byte>, at: nat)
    requires c.state.HeaderFieldStart? && ValidName(name)
    ensures var h := TrackName(FoldAll(name));
            && IsNameState(h.0)
            && Run(c, name, at) == RunResult(c.(state := HeaderField, headerState := h.0, index := h.1),
                                             Range(HeaderName, at, at + |name|), |name|, Running)
    decreases |name|
  {
    hide Run, Step, StepOuts, Range;
    var t := FoldAll(name);
    if |name| == 1 {
      assert t == [Fold(name[0])] && name == [name[0]];
      FirstNameStep(c, name[0], at);
      RunOne(c, name[0], at);
      RangeOne(HeaderName, at);
    } else {
      var u, ch := name[..|name| - 1], name[|name| - 1];
      assert ValidName(u);
      NameRun(c, u, at);
      assert name == u + [ch] && FoldAll(u) == t[..|t| - 1];
      RunSnoc(c, u, ch, at);
      var h := TrackName(FoldAll(u));
      NextNameStep(c.(state := HeaderField, headerState := h.0, index := h.1), ch, at + |u|);
      RangeSnoc(HeaderName, at, at + |u|);
    }
  }

  lemma FirstNameStep(c: Core, ch: byte, at: nat)
    requires c.state.HeaderFieldStart? && IsNameByte(ch)
    ensures Step(c, ch) == Go(c.(state := HeaderField, headerState := FirstNameState(Fold(ch)), index := 0))
    ensures StepOuts(c, ch, at) == [Byte(HeaderName, at)]
    ensures IsNameState(FirstNameState(Fold(ch)))
  {
    hide Step;
    StepCases(c, ch);
    TokenIs(ch);
    assert OpenSlices(HeaderField) == [HeaderName];
  }

  lemma NextNameStep(c: Core, ch: byte, at: nat)
    requires c.state.HeaderField? && IsNameByte(ch) && IsNameState(c.headerState)
    ensures var n := StepName(c.headerState, c.index, Fold(ch));
            && Step(c, ch) == Go(c.(headerState := n.0, index := n.1)) && IsNameState(n.0)
            && StepOuts(c, ch, at) == [Byte(HeaderName, at)]
  {
    hide Step;
    StepCases(c, ch);
    TokenIs(ch);
    assert OpenSlices(HeaderField) == [HeaderName];
  }

  /** At the colon the sub-state tells which header the name denotes, and nothing else does. */
  lemma ColonState(c: Core, name: seq<byte>, at: nat)
    requires c.state.HeaderFieldStart? && ValidName(name)
    ensures var r := Run(c, name + [COLON], at);
            && r.stop.Running? && r.core.state.HeaderValueStart?
            && ClassOf(r.core.headerState) == Classify(name)
  {
    hide Run, Step;
    NameRun(c, name, at);
    RunSnoc(c, name, COLON, at);
    NameRecognised(name);
    StepCases(Run(c, name, at).core, COLON);
  }

  // ---------------------------------------------------------------- values

  predicate DigitsAndSpaces(w: seq<byte>) {
    forall i :: 0 <= i < |w| ==> IsDigit(w[i]) || w[i] == SP
  }

  /** The decimal number that the digits of `w` spell, spaces skipped. */
  function Decimal(w: seq<byte>): nat
    requires DigitsAndSpaces(w)
  {
    if w == [] then 0
    else
      var ch := w[|w| - 1];
      if ch == SP then Decimal(w[..|w| - 1]) else Decimal(w[..|w| - 1]) * 10 + (ch - 48)
  }

  /** The values a content length may have: a digit, then digits and spaces. */
  predicate GoodLength(w: seq<byte>) {
    w != [] && IsDigit(w[0]) && DigitsAndSpaces(w)
  }

  lemma AppendDigit(x: nat, d: nat)
    ensures (x % U64 * 10 + d) % U64 == (x * 10 + d) % U64
  {
    var q, y := x / U64, x % U64;
    assert x * 10 + d == y * 10 + d + (10 * q) * U64;
    ModuloShift(y * 10 + d, 10 * q);
  }

  /** Spaces before a value leave no trace. */
  lemma {:induction false} LeadingSpaces(c: Core, s: seq<byte>, at: nat)
    requires c.state.HeaderValueStart? && forall i :: 0 <= i < |s| ==> s[i] == SP
    ensures Run(c, s, at) == RunResult(c, [], |s|, Running)
    decreases |s|
  {
    hide Step;
    if s != [] {
      StepCases(c, SP);
      assert StepOuts(c, SP, at) == [];
      LeadingSpaces(c, s[1..], at + 1);
    }
  }

  /** The parser inside a value that is not a content length, after the value bytes `w`. */
  function InValue(c: Core, w: seq<byte>): Core
    requires w != []
  {
    var h := TrackValue(c.headerState, w);
    c.(state := HeaderValue, headerState := h.0, index := h.1,
       flags := if c.headerState.IsUpgrade? then c.flags.(upgrade := true) else c.flags)
  }

  /** The states of a value matcher that is not a content length. */
  predicate IsMatcher(hs: HeaderState) {
    IsValueState(hs) && !hs.IsContentLength?
  }

  lemma FirstValueStep(c: Core, ch: byte, at: nat)
    requires c.state.HeaderValueStart? && !c.headerState.IsContentLength? && ch != SP && ch != CR && ch != LF
    ensures Step(c, ch) == Go(InValue(c, [ch])) && StepOuts(c, ch, at) == [Byte(HeaderText, at)]
    ensures IsMatcher(FirstValueState(c.headerState, ch))
  {
    hide Step;
    StepCases(c, ch);
    assert OpenSlices(HeaderValue) == [HeaderText];
  }

  lemma NextValueStep(c: Core, ch: byte, at: nat)
    requires c.state.HeaderValue? && IsMatcher(c.headerState) && ch != CR && ch != LF
    ensures var v := StepValue(c.headerState, c.index, Lower(ch), ch);
            && Step(c, ch) == Go(c.(headerState := v.0, index := v.1)) && IsMatcher(v.0)
            && StepOuts(c, ch, at) == [Byte(HeaderText, at)]
  {
    hide Step;
    StepCases(c, ch);
    assert OpenSlices(HeaderValue) == [HeaderText];
  }

  lemma {:induction false} ValueRun(c: Core, w: seq<byte>, at: nat)
    requires c.state.HeaderValueStart? && !c.headerState.IsContentLength?
    requires w != [] && w[0] != SP && ValidValue(w)
    ensures Run(c, w, at) == RunResult(InValue(c, w), Range(HeaderText, at, at + |w|), |w|, Running)
    ensures IsMatcher(TrackValue(c.headerState, w).0)
    decreases |w|
  {
    hide Run, Step, StepOuts, Range;
    if |w| == 1 {
      assert w == [w[0]];
      FirstValueStep(c, w[0], at);
      RunOne(c, w[0], at);
      RangeOne(HeaderText, at);
    } else {
      var u, ch := w[..|w| - 1], w[|w| - 1];
      assert w == u + [ch] && u[0] == w[0];
      ValueRun(c, u, at);
      RunSnoc(c, u, ch, at);
      NextValueStep(InValue(c, u), ch, at + |u|);
      RangeSnoc(HeaderText, at, at + |u|);
    }
  }

  /** The parser inside a content length, after the value bytes `w`. */
  function InLength(c: Core, w: seq<byte>): Core
    requires DigitsAndSpaces(w)
  {
    c.(state := HeaderValue, index := 0, contentLength := Decimal(w) % 0x1_0000_0000_0000_0000)
  }

  lemma FirstLengthStep(c: Core, ch: byte, at: nat)
    requires c.state.HeaderValueStart? && c.headerState.IsContentLength? && ch != SP && ch != CR && ch != LF
    ensures IsDigit(ch) ==> Step(c, ch) == Go(c.(state := HeaderValue, index := 0, contentLength := ch - 48))
                            && StepOuts(c, ch, at) == [Byte(HeaderText, at)]
    ensures !IsDigit(ch) ==> Step(c, ch).stop.Error?
  {
    hide Step;
    StepCases(c, ch);
    assert OpenSlices(HeaderValue) == [HeaderText];
  }

  lemma NextLengthStep(c: Core, ch: byte, at: nat)
    requires c.state.HeaderValue? && c.headerState.IsContentLength? && ch != CR && ch != LF
    ensures IsDigit(ch) ==> Step(c, ch) == Go(c.(contentLength := (c.contentLength * 10 + (ch - 48)) % U64))
                            && StepOuts(c, ch, at) == [Byte(HeaderText, at)]
    ensures ch == SP ==> Step(c, ch) == Go(c) && StepOuts(c, ch, at) == [Byte(HeaderText, at)]
    ensures !IsDigit(ch) && ch != SP ==> Step(c, ch).stop.Error?
  {
    hide Step;
    StepCases(c, ch);
    assert OpenSlices(HeaderValue) == [HeaderText];
  }

  /** A good content length is read modulo 2^64; anything else is an error. */
  lemma {:induction false} LengthRun(c: Core, w: seq<byte>, at: nat)
    requires c.state.HeaderValueStart? && c.headerState.IsContentLength?
    requires w != [] && w[0] != SP && ValidValue(w)
    ensures if GoodLength(w) then
              Run(c, w, at) == RunResult(InLength(c, w), Range(HeaderText, at, at + |w|), |w|, Running)
            else Run(c, w, at).stop.Error?
    decreases |w|
  {
    hide Run, Step, StepOuts, Range;
    if |w| == 1 {
      assert w == [w[0]] && w[..0] == [];
      FirstLengthStep(c, w[0], at);
      RunOne(c, w[0], at);
      RangeOne(HeaderText, at);
    } else {
      var u, ch := w[..|w| - 1], w[|w| - 1];
      assert w == u + [ch] && u[0] == w[0];
      LengthRun(c, u, at);
      if GoodLength(u) {
        RunSnoc(c, u, ch, at);
        NextLengthStep(InLength(c, u), ch, at + |u|);
        RangeSnoc(HeaderText, at, at + |u|);
        if IsDigit(ch) { AppendDigit(Decimal(u), ch - 48); }
        assert GoodLength(w) <==> IsDigit(ch) || ch == SP;
      } else {
        RunAppend(c, u, [ch], at);
        assert !GoodLength(w);
      }
    }
  }

  // ---------------------------------------------------------------- what a line means

  /** A value without the spaces around it decides; `w` is the value without those before it. */
  function LineValue(l: Line): seq<byte> {
    if l.value.Some? then TrimLeft(l.value.value) else []
  }

  function FlagsAfter(f: Flags, l: Line): Flags {
    var w := LineValue(l);
    if w == [] then f
    else if Classify(l.name).Upgrade? then f.(upgrade := true)
    else FlagsOf(f, Classify(l.name), w)
  }

  /** A line that sets the content length. */
  predicate SetsLength(l: Line) {
    Classify(l.name).ContentLength? && LineValue(l) != []
  }

  predicate GoodLine(l: Line) {
    ValidLine(l) && (SetsLength(l) ==> GoodLength(LineValue(l)))
  }

  function LengthAfter(n: nat, l: Line): nat
    requires GoodLine(l)
  {
    if SetsLength(l) then Decimal(LineValue(l)) % 0x1_0000_0000_0000_0000 else n
  }

  /** The slices of a line: its name, and its value without the spaces before it. */
  function LineOuts(l: Line, at: nat): seq<Out> {
    var to := at + |l.name| + (if l.value.Some? then 1 + |l.value.value| else 0);
    Range(HeaderName, at, at + |l.name|) + Range(HeaderText, to - |LineValue(l)|, to)
  }

  /** The parser after a line, up to the scratch fields of the matchers. */
  predicate IsAfterLine(c: Core, l: Line, d: Core)
    requires GoodLine(l)
  {
    d == c.(state := HeaderFieldStart, flags := FlagsAfter(c.flags, l),
            contentLength := LengthAfter(c.contentLength, l),
            headerState := d.headerState, index := d.index)
  }

  // ---------------------------------------------------------------- line ends

  /** The end of a line in a state that waits for one: the line's flag is set and nothing is observable. */
  lemma EolRun(c: Core, crlf: bool, at: nat)
    requires c.state.HeaderField? || c.state.HeaderValue? || c.state.HeaderValueStart?
    requires c.state.HeaderField? || c.state.HeaderValueStart? ==> IsNameState(c.headerState)
    ensures var r := Run(c, Eol(crlf), at);
            && r.outs == [] && r.consumed == |Eol(crlf)| && r.stop.Running?
            && r.core == c.(state := HeaderFieldStart, flags := LineFlags(c.flags, c.headerState),
                            headerState := r.core.headerState, index := r.core.index)
  {
    hide Run, Step;
    if crlf {
      CrStep(c, at);
      var d := Step(c, CR).core;
      RunOne(c, CR, at);
      LfStep(d, at + 1);
      RunSnoc(c, [CR], LF, at);
      assert [CR] + [LF] == Eol(true);
    } else {
      LfFirstStep(c, at);
      RunOne(c, LF, at);
    }
  }

  lemma CrStep(c: Core, at: nat)
    requires c.state.HeaderField? || c.state.HeaderValue? || c.state.HeaderValueStart?
    requires c.state.HeaderField? || c.state.HeaderValueStart? ==> IsNameState(c.headerState)
    ensures var r := Step(c, CR);
            && r.stop.Running? && StepOuts(c, CR, at) == []
            && r.core == c.(state := HeaderAlmostDone, headerState := r.core.headerState, index := r.core.index)
            && LineFlags(c.flags, r.core.headerState) == LineFlags(c.flags, c.headerState)
  {
    hide Step;
    StepCases(c, CR);
    assert OpenSlices(HeaderAlmostDone) == [];
  }

  lemma LfFirstStep(c: Core, at: nat)
    requires c.state.HeaderField? || c.state.HeaderValue? || c.state.HeaderValueStart?
    requires c.state.HeaderField? || c.state.HeaderValueStart? ==> IsNameState(c.headerState)
    ensures var r := Step(c, LF);
            && r.stop.Running? && StepOuts(c, LF, at) == []
            && r.core == c.(state := HeaderFieldStart, flags := LineFlags(c.flags, c.headerState),
                            headerState := r.core.headerState, index := r.core.index)
  {
    hide Step;
    StepCases(c, LF);
    assert OpenSlices(HeaderFieldStart) == [];
  }

  lemma LfStep(c: Core, at: nat)
    requires c.state.HeaderAlmostDone?
    ensures Step(c, LF) == Go(c.(state := HeaderFieldStart, flags := LineFlags(c.flags, c.headerState)))
    ensures StepOuts(c, LF, at) == []
  {
    hide Step;
    StepCases(c, LF);
    assert OpenSlices(HeaderFieldStart) == [];
  }

  // ---------------------------------------------------------------- whole lines

  lemma LeftSpaces(v: seq<byte>)
    ensures var k := |v| - |TrimLeft(v)|;
            v == v[..k] + TrimLeft(v) && forall i :: 0 <= i < k ==> v[i] == SP
  {
    var k := |v| - |TrimLeft(v)|;
    LeftSpacesAt(v);
    assert v == v[..k] + v[k..];
  }

  lemma {:induction false} LeftSpacesAt(v: seq<byte>)
    ensures forall i :: 0 <= i < |v| - |TrimLeft(v)| ==> v[i] == SP
    decreases |v|
  {
    if v != [] && v[0] == SP {
      LeftSpacesAt(v[1..]);
      assert forall i :: 1 <= i < |v| - |TrimLeft(v)| ==> v[i] == v[1..][i - 1];
    }
  }

  lemma SubValue(v: seq<byte>, k: nat)
    requires ValidValue(v) && k <= |v|
    ensures ValidValue(v[k..])
  {
  }

  /** What the run over the rest of a line from its value on owes the line. */
  predicate ValueDone(c: Core, l: Line, r: RunResult, at: nat)
    requires ValidLine(l) && |LineValue(l)| <= at
  {
    if GoodLine(l) then
      r.stop.Running? && r.outs == Range(HeaderText, at - |LineValue(l)|, at) && IsAfterLine(c, l, r.core)
    else r.stop.Error?
  }

  /** A value of spaces only. */
  lemma EmptyValueRun(c: Core, l: Line, at: nat)
    requires ValidLine(l) && l.value.Some? && c.state.HeaderValueStart? && IsNameState(c.headerState)
    requires LineValue(l) == []
    ensures ValueDone(c, l, Run(c, Eol(l.crlf), at), at) && GoodLine(l)
  {
    hide Run, Step, Range, LineValue, Eol, LineFlags, IsNameState, Classify;
    EolRun(c, l.crlf, at);
    NameSetsNoFlag(c.flags, c.headerState);
    RangeOne(HeaderText, at);
  }

  /** A content length. */
  lemma LengthValueRun(c: Core, l: Line, at: nat)
    requires ValidLine(l) && c.state.HeaderValueStart? && c.headerState.IsContentLength?
             && Classify(l.name).ContentLength?
    requires LineValue(l) != [] && LineValue(l)[0] != SP && ValidValue(LineValue(l))
    ensures ValueDone(c, l, Run(c, LineValue(l) + Eol(l.crlf), at), at + |LineValue(l)|)
  {
    hide Run, Step, Range, LineValue, Eol, LineFlags, Classify, Decimal, ValidValue, ValidName, FoldAll, TrimRight;
    var w := LineValue(l);
    RunAppend(c, w, Eol(l.crlf), at);
    LengthRun(c, w, at);
    if GoodLength(w) {
      EolRun(InLength(c, w), l.crlf, at + |w|);
      NameSetsNoFlag(c.flags, c.headerState);
      NoOuts(Range(HeaderText, at, at + |w|));
    }
  }

  /** Any other value. */
  lemma WordValueRun(c: Core, l: Line, at: nat)
    requires ValidLine(l) && c.state.HeaderValueStart? && !c.headerState.IsContentLength?
    requires ClassOf(c.headerState) == Classify(l.name)
    requires LineValue(l) != [] && LineValue(l)[0] != SP && ValidValue(LineValue(l))
    ensures ValueDone(c, l, Run(c, LineValue(l) + Eol(l.crlf), at), at + |LineValue(l)|) && GoodLine(l)
  {
    hide Run, Step, Range, LineValue, Eol, LineFlags, Classify, Decimal, ValidName, FoldAll, TrimRight,
         TrackValue, FlagsOf;
    var w := LineValue(l);
    RunAppend(c, w, Eol(l.crlf), at);
    ValueRun(c, w, at);
    var d := InValue(c, w);
    EolRun(d, l.crlf, at + |w|);
    ValueRecognised(d.flags, c.headerState, w);
    UpgradeHasNoWord(d.flags, w);
    NoOuts(Range(HeaderText, at, at + |w|));
  }

  lemma UpgradeHasNoWord(f: Flags, w: seq<byte>)
    ensures FlagsOf(f, Upgrade, w) == f
  {
  }

  lemma LineValueParts(l: Line)
    requires ValidLine(l) && l.value.Some?
    ensures var v, w := l.value.value, LineValue(l);
            && |w| <= |v| && v == v[..|v| - |w|] + w
            && (forall i :: 0 <= i < |v| - |w| ==> v[i] == SP)
            && (w != [] ==> w[0] != SP) && ValidValue(w)
  {
    var v := l.value.value;
    LeftSpaces(v);
    SubValue(v, |v| - |TrimLeft(v)|);
  }

  /** The value from its first byte that is not a space, and the line end. */
  lemma TrimmedRun(c: Core, l: Line, at: nat)
    requires ValidLine(l) && l.value.Some? && c.state.HeaderValueStart? && IsNameState(c.headerState)
    requires ClassOf(c.headerState) == Classify(l.name)
    ensures ValueDone(c, l, Run(c, LineValue(l) + Eol(l.crlf), at), at + |LineValue(l)|)
  {
    hide Run, Step, Range, Eol, IsNameState, ValueDone, Classify, ClassOf, ValidName, LineValue;
    LineValueParts(l);
    LengthClass();
    if LineValue(l) == [] {
      NoEol(l.crlf);
      EmptyValueRun(c, l, at);
    } else if c.headerState.IsContentLength? {
      LengthValueRun(c, l, at);
    } else {
      WordValueRun(c, l, at);
    }
  }

  lemma NoEol(crlf: bool)
    ensures [] + Eol(crlf) == Eol(crlf) == Eol(crlf) + []
  {
  }

  /** The rest of a line whose header is recognised, from behind the colon on. */
  lemma ColonRun(c: Core, l: Line, at: nat)
    requires ValidLine(l) && l.value.Some? && c.state.HeaderValueStart? && IsNameState(c.headerState)
    requires ClassOf(c.headerState) == Classify(l.name)
    ensures ValueDone(c, l, Run(c, l.value.value + Eol(l.crlf), at), at + |l.value.value|)
  {
    hide *;
    var v, w := l.value.value, LineValue(l);
    LineValueParts(l);
    var k := |v| - |w|;
    LeadingSpaces(c, v[..k], at);
    assert v + Eol(l.crlf) == v[..k] + (w + Eol(l.crlf));
    RunAppend(c, v[..k], w + Eol(l.crlf), at);
    var r := Run(c, w + Eol(l.crlf), at + k);
    ThenFromNothing(c, k, r);
    TrimmedRun(c, l, at + k);
    SameValueDone(c, l, r, Run(c, v + Eol(l.crlf), at), at + |v|);
  }

  lemma LengthClass()
    ensures ClassOf(IsContentLength) == ContentLength
  {
  }

  lemma SameValueDone(c: Core, l: Line, r: RunResult, r': RunResult, at: nat)
    requires ValidLine(l) && |LineValue(l)| <= at && ValueDone(c, l, r, at)
    requires r'.core == r.core && r'.outs == r.outs && r'.stop == r.stop
    ensures ValueDone(c, l, r', at)
  {
    hide LineValue, IsAfterLine, Range;
  }

  lemma ThenFromNothing(c: Core, k: nat, r: RunResult)
    ensures Then(RunResult(c, [], k, Running), r) == RunResult(r.core, r.outs, k + r.consumed, r.stop)
  {
    NoOuts(r.outs);
  }

  lemma NameSetsNoFlag(f: Flags, hs: HeaderState)
    requires IsNameState(hs)
    ensures LineFlags(f, hs) == f
  {
  }

  /** What the run over a line owes it. */
  predicate LineDone(c: Core, l: Line, r: RunResult, at: nat)
    requires ValidLine(l)
  {
    if GoodLine(l) then
      r.stop.Running? && r.consumed == |Encode(l)| && r.outs == LineOuts(l, at) && IsAfterLine(c, l, r.core)
    else r.stop.Error?
  }

  /** A line with a colon, behind its name. */
  lemma ColonLineRun(c: Core, d: Core, l: Line, at: nat)
    requires ValidLine(l) && l.value.Some?
    requires d.state.HeaderField? && IsNameState(d.headerState) && ClassOf(d.headerState) == Classify(l.name)
    requires d == c.(state := HeaderField, headerState := d.headerState, index := d.index)
    ensures var r := Run(d, Rest(l), at + |l.name|);
            LineDone(c, l,
                     RunResult(r.core, Range(HeaderName, at, at + |l.name|) + r.outs, |l.name| + r.consumed, r.stop),
                     at)
  {
    hide Run, Step, StepOuts, Range, Eol, ValidName, ValidValue, Classify, ClassOf, IsNameState, LineValue,
         IsAfterLine, GoodLine;
    var tail := l.value.value + Eol(l.crlf);
    assert Rest(l) == [COLON] + tail;
    ColonStep(d, at + |l.name|);
    RunAppend(d, [COLON], tail, at + |l.name|);
    RunOne(d, COLON, at + |l.name|);
    var e := d.(state := HeaderValueStart);
    LineValueParts(l);
    ColonRun(e, l, at + |l.name| + 1);
    ThenFromNothing(e, 1, Run(e, tail, at + |l.name| + 1));
    AfterName(c, l, e);
  }

  /** A line without a colon, behind its name. */
  lemma BareLineRun(c: Core, d: Core, l: Line, at: nat)
    requires ValidLine(l) && l.value.None? && d.state.HeaderField? && IsNameState(d.headerState)
    requires d == c.(state := HeaderField, headerState := d.headerState, index := d.index)
    ensures var r := Run(d, Rest(l), at + |l.name|);
            LineDone(c, l,
                     RunResult(r.core, Range(HeaderName, at, at + |l.name|) + r.outs, |l.name| + r.consumed, r.stop),
                     at)
  {
    hide Run, Step, StepOuts, Range, Eol, ValidName, FlagsAfter, LengthAfter, LineFlags, IsNameState, Classify;
    assert Rest(l) == Eol(l.crlf) by { NoEol(l.crlf); }
    EolRun(d, l.crlf, at + |l.name|);
    NameSetsNoFlag(c.flags, d.headerState);
    NoEffect(c, l);
    RangeOne(HeaderText, at + |l.name|);
    NoOuts(Range(HeaderName, at, at + |l.name|));
  }

  /** A line sets exactly the flags and the length that its words say, and hands over its name and value; a
      content length that is not a number is an error. */
  lemma LineRun(c: Core, l: Line, at: nat)
    requires c.state.HeaderFieldStart? && ValidLine(l)
    ensures LineDone(c, l, Run(c, Encode(l), at), at)
  {
    hide Run, Step, StepOuts, Range, FoldAll, TrackName, Rest, LineDone, Classify, ClassOf;
    NameRun(c, l.name, at);
    NameRecognised(l.name);
    var h := TrackName(FoldAll(l.name));
    var d := c.(state := HeaderField, headerState := h.0, index := h.1);
    RunAppend(c, l.name, Rest(l), at);
    if l.value.Some? {
      ColonLineRun(c, d, l, at);
    } else {
      BareLineRun(c, d, l, at);
    }
  }

  lemma ColonStep(c: Core, at: nat)
    requires c.state.HeaderField? && IsNameState(c.headerState)
    ensures Step(c, COLON) == Go(c.(state := HeaderValueStart)) && StepOuts(c, COLON, at) == []
  {
    hide Step;
    StepCases(c, COLON);
    assert OpenSlices(HeaderValueStart) == [];
  }

  lemma NoEffect(c: Core, l: Line)
    requires ValidLine(l) && l.value.None?
    ensures GoodLine(l) && FlagsAfter(c.flags, l) == c.flags && LengthAfter(c.contentLength, l) == c.contentLength
  {
  }

  lemma AfterName(c: Core, l: Line, e: Core)
    requires e.flags == c.flags && e.contentLength == c.contentLength
    requires e == c.(state := e.state, headerState := e.headerState, index := e.index)
    ensures forall d :: GoodLine(l) && IsAfterLine(e, l, d) ==> IsAfterLine(c, l, d)
  {
    hide FlagsAfter, LengthAfter, GoodLine;
  }

  // ---------------------------------------------------------------- header blocks

  function EncodeAll(ls: seq<Line>): seq<byte> {
    if ls == [] then [] else Encode(ls[0]) + EncodeAll(ls[1..])
  }

  predicate GoodLines(ls: seq<Line>) { forall i :: 0 <= i < |ls| ==> GoodLine(ls[i]) }

  function BlockFlags(f: Flags, ls: seq<Line>): Flags
    decreases |ls|
  {
    if ls == [] then f else BlockFlags(FlagsAfter(f, ls[0]), ls[1..])
  }

  function BlockLength(n: nat, ls: seq<Line>): nat
    requires GoodLines(ls)
    decreases |ls|
  {
    if ls == [] then n else BlockLength(LengthAfter(n, ls[0]), ls[1..])
  }

  function BlockOuts(ls: seq<Line>, at: nat): seq<Out> {
    if ls == [] then [] else LineOuts(ls[0], at) + BlockOuts(ls[1..], at + |Encode(ls[0])|)
  }

  /** The line carries this header with this value, up to case and surrounding spaces. */
  predicate LineCarries(l: Line, class_: NameClass, word: seq<byte>) {
    Classify(l.name) == class_ && LineValue(l) != [] && FoldAll(TrimRight(LineValue(l))) == word
  }

  predicate Carries(ls: seq<Line>, class_: NameClass, word: seq<byte>) {
    exists i :: 0 <= i < |ls| && LineCarries(ls[i], class_, word)
  }

  /** The line is an upgrade header with a value. */
  predicate LineAsksUpgrade(l: Line) {
    Classify(l.name).Upgrade? && LineValue(l) != []
  }

  predicate AsksUpgrade(ls: seq<Line>) {
    exists i :: 0 <= i < |ls| && LineAsksUpgrade(ls[i])
  }

  /** Any header block: the flags set, the length read and the slices handed over are those of its lines. */
  lemma {:induction false} BlockRun(c: Core, ls: seq<Line>, at: nat)
    requires c.state.HeaderFieldStart? && GoodLines(ls)
    ensures var r := Run(c, EncodeAll(ls), at);
            && r.stop.Running? && r.consumed == |EncodeAll(ls)| && r.outs == BlockOuts(ls, at)
            && r.core == c.(flags := BlockFlags(c.flags, ls), contentLength := BlockLength(c.contentLength, ls),
                            headerState := r.core.headerState, index := r.core.index)
    decreases |ls|
  {
    hide Run, Encode, LineOuts, FlagsAfter, LengthAfter, GoodLine;
    if ls == [] {
      RunNil(c, at, Run(c, [], at));
    } else {
      var rest := EncodeAll(ls[1..]);
      GoodIsValid(ls[0]);
      LineRun(c, ls[0], at);
      RunAppend(c, Encode(ls[0]), rest, at);
      var d := Run(c, Encode(ls[0]), at).core;
      BlockRun(d, ls[1..], at + |Encode(ls[0])|);
    }
  }

  lemma GoodIsValid(l: Line)
    requires GoodLine(l)
    ensures ValidLine(l)
  {
  }

  lemma FlagsAfterWords(f: Flags, l: Line)
    ensures var g := FlagsAfter(f, l);
            && (g.keepAlive <==> f.keepAlive || LineCarries(l, Connection, WORD_KEEP_ALIVE))
            && (g.close <==> f.close || LineCarries(l, Connection, WORD_CLOSE))
            && (g.chunked <==> f.chunked || LineCarries(l, TransferEncoding, WORD_CHUNKED))
            && (g.upgrade <==> f.upgrade || LineAsksUpgrade(l))
            && g.trailing == f.trailing && g.skipBody == f.skipBody
  {
    hide WORD_KEEP_ALIVE, WORD_CLOSE, WORD_CHUNKED, FoldAll, TrimRight, Classify, LineValue;
    KeepAliveIsNotClose();
  }

  lemma KeepAliveIsNotClose()
    ensures WORD_KEEP_ALIVE != WORD_CLOSE
  {
    assert |WORD_KEEP_ALIVE| != |WORD_CLOSE|;
  }

  lemma CarriesCons(ls: seq<Line>, class_: NameClass, word: seq<byte>)
    requires ls != []
    ensures Carries(ls, class_, word) <==> LineCarries(ls[0], class_, word) || Carries(ls[1..], class_, word)
    ensures AsksUpgrade(ls) <==> LineAsksUpgrade(ls[0]) || AsksUpgrade(ls[1..])
  {
    hide LineCarries, LineAsksUpgrade;
    assert forall i :: 1 <= i < |ls| ==> ls[i] == ls[1..][i - 1];
    assert forall i :: 0 <= i < |ls| - 1 ==> ls[1..][i] == ls[i + 1];
  }

  /** The flags of a block are set exactly when some line carries the matching word. */
  lemma {:induction false} BlockFlagsByWords(f: Flags, ls: seq<Line>)
    ensures var g := BlockFlags(f, ls);
            && (g.keepAlive <==> f.keepAlive || Carries(ls, Connection, WORD_KEEP_ALIVE))
            && (g.close <==> f.close || Carries(ls, Connection, WORD_CLOSE))
            && (g.chunked <==> f.chunked || Carries(ls, TransferEncoding, WORD_CHUNKED))
            && (g.upgrade <==> f.upgrade || AsksUpgrade(ls))
            && g.trailing == f.trailing && g.skipBody == f.skipBody
    decreases |ls|
  {
    if ls != [] {
      hide Carries, AsksUpgrade, FlagsAfter, LineCarries, LineAsksUpgrade;
      FlagsAfterWords(f, ls[0]);
      BlockFlagsByWords(FlagsAfter(f, ls[0]), ls[1..]);
      CarriesCons(ls, Connection, WORD_KEEP_ALIVE);
      CarriesCons(ls, Connection, WORD_CLOSE);
      CarriesCons(ls, TransferEncoding, WORD_CHUNKED);
    }
  }
}
