/** Exactly which status lines of responses are accepted, and what is read from them. */
module HttpStatusLine {
  import opened HttpChars
  import opened HttpAutomaton
  import opened HttpText
  import opened HttpShape
  import opened HttpRun
  import opened HttpHeaders
  import opened HttpRequestLine
  import opened HttpVersions

  // ---------------------------------------------------------------- the version of a response

  predicate InVersion(s: State) { s.ResFirstMajor? || s.ResMajor? || s.ResFirstMinor? || s.ResMinor? }

  /** The state of a request that reads the same part of the version. */
  function Mirrored(s: State): State {
    match s
    case ResFirstMajor => ReqFirstMajor
    case ResMajor => ReqMajor
    case ResFirstMinor => ReqFirstMinor
    case ResMinor => ReqMinor
    case _ => s
  }

  function Mirror(c: Core): Core { c.(state := Mirrored(c.state)) }

  lemma MirrorStep(c: Core, ch: byte, at: nat)
    requires InVersion(c.state) && ch != 32 && ch != 13 && ch != 10
    ensures var r, r' := Step(c, ch), Step(Mirror(c), ch);
            && r.stop == r'.stop && (r.stop.Running? || r.stop.Error?)
            && (r.stop.Running? ==> InVersion(r.core.state) && Mirror(r.core) == r'.core)
    ensures Step(c, ch).stop.Running? ==> StepOuts(c, ch, at) == []
  {
    hide Step;
    StepCases(c, ch);
    StepCases(Mirror(c), ch);
    if Step(c, ch).stop.Running? { NothingOpen(Step(c, ch).core.state); }
  }

  lemma NothingOpen(s: State)
    requires InVersion(s) || s.ResFirstStatus? || s.ResStatusCode? || s.ResStatus? || s.ResLineAlmostDone?
    ensures OpenSlices(s) == []
  {
  }

  /** A response version is read as a request version is. */
  lemma {:induction false} MirrorRun(c: Core, v: seq<byte>, at: nat)
    requires InVersion(c.state) && 32 !in v && 13 !in v && 10 !in v
    ensures var r, r' := Run(c, v, at), Run(Mirror(c), v, at);
            && r.stop == r'.stop && (r.stop.Running? || r.stop.Error?)
            && (r.stop.Running? ==> r.outs == [] && InVersion(r.core.state) && Mirror(r.core) == r'.core)
    decreases |v|
  {
    hide Step, StepOuts, InVersion, Mirrored;
    if v != [] {
      MirrorStep(c, v[0], at);
      if Step(c, v[0]).stop.Running? {
        MirrorRun(Step(c, v[0]).core, v[1..], at + 1);
      }
    }
  }

  // ---------------------------------------------------------------- the status code

  lemma StatusSteps(c: Core, x: byte, at: nat)
    requires c.state.ResFirstStatus? || c.state.ResStatusCode?
    ensures var first := c.state.ResFirstStatus?;
            var n := if !IsDigit(x) then 0 else if first then x - 48 else c.statusCode * 10 + (x - 48);
            && (IsDigit(x) && n <= 999 ==>
                  Step(c, x) == To(c.(statusCode := n), ResStatusCode) && StepOuts(c, x, at) == [])
            && (IsDigit(x) && n > 999 ==> Step(c, x).stop.Error?)
            && (x == 32 ==>
                  Step(c, x) == To(c, if first then ResFirstStatus else ResStatus) && StepOuts(c, x, at) == [])
            && (!IsDigit(x) && x != 32 && (first || (x != 13 && x != 10)) ==> Step(c, x).stop.Error?)
  {
    hide Step;
    StepCases(c, x);
    NothingOpen(ResFirstStatus);
    NothingOpen(ResStatusCode);
    NothingOpen(ResStatus);
  }

  lemma {:induction false} StatusRun(c: Core, u: seq<byte>, at: nat)
    requires c.state.ResFirstStatus? && u != [] && AllDigits(u)
    ensures if Number(u) <= 999 then
              Run(c, u, at) == RunResult(c.(state := ResStatusCode, statusCode := Number(u)), [], |u|, Running)
            else Run(c, u, at).stop.Error?
    decreases |u|
  {
    hide Run, Step, StepOuts, Number;
    var t, x := u[..|u| - 1], u[|u| - 1];
    assert u == t + [x];
    NumberSnoc(t, x);
    NoNumber();
    if t == [] {
      assert u == [x];
      StatusSteps(c, x, at);
      RunOne(c, x, at);
    } else {
      StatusRun(c, t, at);
      RunAppend(c, t, [x], at);
      if Number(t) <= 999 {
        StatusSteps(Run(c, t, at).core, x, at + |t|);
        RunSnoc(c, t, x, at);
      }
    }
  }

  lemma {:induction false} StatusSpaces(c: Core, s: seq<byte>, at: nat)
    requires c.state.ResFirstStatus? && forall i :: 0 <= i < |s| ==> s[i] == 32
    ensures Run(c, s, at) == RunResult(c, [], |s|, Running)
    decreases |s|
  {
    hide Step, StepOuts;
    if s != [] {
      StatusSteps(c, 32, at);
      StatusSpaces(c, s[1..], at + 1);
    }
  }

  /** The text behind the status code does not matter. */
  lemma {:induction false} TextRun(c: Core, s: seq<byte>, at: nat)
    requires c.state.ResStatus? && 13 !in s && 10 !in s
    ensures Run(c, s, at) == RunResult(c, [], |s|, Running)
    decreases |s|
  {
    hide Step;
    if s != [] {
      StepCases(c, s[0]);
      assert StepOuts(c, s[0], at) == [];
      TextRun(c, s[1..], at + 1);
    }
  }

  lemma StatusEnds(c: Core, crlf: bool, at: nat)
    requires c.state.ResStatusCode? || c.state.ResStatus?
    ensures Run(c, Eol(crlf), at) == RunResult(c.(state := HeaderFieldStart), [], |Eol(crlf)|, Running)
  {
    hide Run, Step;
    StepCases(c, CR);
    StepCases(c, LF);
    StepCases(c.(state := ResLineAlmostDone), LF);
    NothingOpen(ResLineAlmostDone);
    assert OpenSlices(HeaderFieldStart) == [];
    if crlf {
      RunOne(c, CR, at);
      RunSnoc(c, [CR], LF, at);
      assert [CR] + [LF] == Eol(true);
    } else {
      RunOne(c, LF, at);
    }
  }

  /** A status code and, behind a space, any text. */
  predicate IsStatus(w: seq<byte>) {
    var x := w[SpacesLength(w)..];
    var j := DigitsLength(x);
    IsSmall(x[..j]) && (j == |x| || x[j] == 32)
  }

  function StatusOf(w: seq<byte>): nat
    requires IsStatus(w)
  {
    var x := w[SpacesLength(w)..];
    Number(x[..DigitsLength(x)])
  }

  lemma StatusIff(c: Core, w: seq<byte>, crlf: bool, at: nat)
    requires c.state.ResFirstStatus? && 13 !in w && 10 !in w
    ensures var r := Run(c, w + Eol(crlf), at);
            && (r.stop.Running? <==> IsStatus(w)) && (r.stop.Running? || r.stop.Error?)
            && (r.stop.Running? ==> r.outs == [] && r.core == c.(state := HeaderFieldStart, statusCode := StatusOf(w)))
  {
    hide Run, Step, Number, Eol;
    var k := SpacesLength(w);
    var x := w[k..];
    StatusSpaces(c, w[..k], at);
    RunAppend(c, w[..k], x + Eol(crlf), at);
    assert w[..k] + (x + Eol(crlf)) == w + Eol(crlf);
    NoOuts(Run(c, x + Eol(crlf), at + k).outs);
    DigitsIff(c, x, crlf, at + k);
  }

  lemma DigitsIff(c: Core, x: seq<byte>, crlf: bool, at: nat)
    requires c.state.ResFirstStatus? && 13 !in x && 10 !in x && (x != [] ==> x[0] != 32)
    ensures var r, j := Run(c, x + Eol(crlf), at), DigitsLength(x);
            && (r.stop.Running? <==> IsSmall(x[..j]) && (j == |x| || x[j] == 32)) && (r.stop.Running? || r.stop.Error?)
            && (r.stop.Running? ==>
                  r.outs == [] && r.core == c.(state := HeaderFieldStart, statusCode := Number(x[..j])))
  {
    hide Run, Step, Number, StepOuts;
    var j := DigitsLength(x);
    var u := x[..j];
    var all := x + Eol(crlf);
    if j == 0 {
      StatusSteps(c, all[0], at);
      RunCons(c, all, at);
    } else {
      StatusRun(c, u, at);
      assert all == u + (x[j..] + Eol(crlf));
      RunAppend(c, u, x[j..] + Eol(crlf), at);
      if Number(u) <= 999 {
        var d := c.(state := ResStatusCode, statusCode := Number(u));
        BehindCode(d, x[j..], crlf, at + j);
        NoOuts(Run(d, x[j..] + Eol(crlf), at + j).outs);
      }
    }
  }

  lemma BehindCode(d: Core, y: seq<byte>, crlf: bool, at: nat)
    requires d.state.ResStatusCode? && 13 !in y && 10 !in y && (y != [] ==> !IsDigit(y[0]))
    ensures var r := Run(d, y + Eol(crlf), at);
            && (r.stop.Running? <==> y == [] || y[0] == 32) && (r.stop.Running? || r.stop.Error?)
            && (r.stop.Running? ==> r.outs == [] && r.core == d.(state := HeaderFieldStart))
  {
    hide Run, Step, StepOuts, Eol;
    NoOuts([]);
    if y == [] {
      StatusEnds(d, crlf, at);
      assert y + Eol(crlf) == Eol(crlf);
    } else {
      StatusSteps(d, y[0], at);
      assert y + Eol(crlf) == [y[0]] + (y[1..] + Eol(crlf));
      RunOne(d, y[0], at);
      RunAppend(d, [y[0]], y[1..] + Eol(crlf), at);
      if y[0] == 32 {
        var e := d.(state := ResStatus);
        TextRun(e, y[1..], at + 1);
        StatusEnds(e, crlf, at + |y|);
        RunAppend(e, y[1..], Eol(crlf), at + 1);
      }
    }
  }

  // ---------------------------------------------------------------- the whole line

  /** The state after `i` bytes of `HTTP/`, where a response starts. */
  function InPrefix(i: nat): State {
    if i == 0 then StartRes
    else if i == 1 then ResH
    else if i == 2 then ResHT
    else if i == 3 then ResHTT
    else if i == 4 then ResHTTP
    else ResFirstMajor
  }

  /** The parser there: the first byte begins a message. */
  function AfterPrefix(c: Core, i: nat, at: nat): RunResult {
    if i == 0 then RunResult(c, [], 0, Running)
    else RunResult(FreshMessage(c).(state := InPrefix(i)), [Ctl(MessageBegin, at)], i, Running)
  }

  lemma PrefixStep(c: Core, i: nat, x: byte, at: nat)
    requires i < 5 && c.state == InPrefix(i)
    ensures i == 0 && x == HTTP_SLASH[0] ==>
              Step(c, x).core == FreshMessage(c).(state := ResH) && Step(c, x).stop.Running?
              && StepOuts(c, x, at) == [Ctl(MessageBegin, at)]
    ensures i > 0 && x == HTTP_SLASH[i] ==> Step(c, x) == To(c, InPrefix(i + 1)) && StepOuts(c, x, at) == []
    ensures x != HTTP_SLASH[i] && (i > 0 || (x != 13 && x != 10)) ==> Step(c, x).stop.Error?
  {
    hide Step;
    StepCases(c, x);
    assert OpenSlices(InPrefix(i + 1)) == [];
    assert CtlAt([], at) == [] && CtlAt([MessageBegin], at) == [Ctl(MessageBegin, at)];
  }

  lemma {:induction false} PrefixRun(c: Core, i: nat, at: nat)
    requires c.state.StartRes? && i <= 5 == |HTTP_SLASH|
    ensures Run(c, HTTP_SLASH[..i], at) == AfterPrefix(c, i, at)
    decreases i
  {
    hide Run, Step, StepOuts, HTTP_SLASH;
    if i == 0 {
      RunNil(c, at, Run(c, [], at));
    } else {
      var s := HTTP_SLASH[..i - 1];
      PrefixRun(c, i - 1, at);
      assert HTTP_SLASH[..i] == s + [HTTP_SLASH[i - 1]];
      RunSnoc(c, s, HTTP_SLASH[i - 1], at);
      PrefixStep(AfterPrefix(c, i - 1, at).core, i - 1, HTTP_SLASH[i - 1], at + i - 1);
    }
  }

  /** Where the first space is. */
  function FirstSpace(w: seq<byte>): (k: nat)
    ensures k <= |w| && (k < |w| ==> w[k] == 32) && 32 !in w[..k]
  {
    if w == [] || w[0] == 32 then 0
    else
      var k := FirstSpace(w[1..]);
      assert forall i :: 0 < i < 1 + k ==> w[i] == w[1..][..k][i - 1];
      1 + k
  }

  /** A version, a space and a status. */
  predicate IsNumbers(w: seq<byte>) {
    var j := FirstSpace(w);
    IsVersion(w[..j]) && j < |w| && IsStatus(w[j + 1..])
  }

  /** The parser behind them. */
  function BehindNumbers(c: Core, w: seq<byte>): Core
    requires IsNumbers(w)
  {
    var j := FirstSpace(w);
    var v := BehindVersion(c, w[..j]);
    v.(state := HeaderFieldStart, statusCode := StatusOf(w[j + 1..]))
  }

  predicate IsResponseLine(w: seq<byte>) {
    |w| >= 5 && w[..5] == Ascii("HTTP/") && IsNumbers(w[5..])
  }

  /** The byte behind the version of a response: only a space goes on to the status, from the last state alone. */
  lemma BehindVersionStep(c: Core, x: byte, at: nat)
    requires InVersion(c.state) && (x == 32 || x == 13 || x == 10)
    ensures if c.state.ResMinor? && x == 32 then
              Step(c, x) == To(c, ResFirstStatus) && StepOuts(c, x, at) == []
            else Step(c, x).stop.Error?
  {
    hide Step;
    StepCases(c, x);
    NothingOpen(ResFirstStatus);
  }

  /** What a response version leaves behind. */
  lemma ResponseVersion(c: Core, v: seq<byte>, at: nat)
    requires c.state.ResFirstMajor? && 32 !in v && 13 !in v && 10 !in v
    ensures var r := Run(c, v, at);
            && (r.stop.Running? ==> InVersion(r.core.state) && r.outs == [])
            && (!r.stop.Running? ==> r.stop.Error?)
            && (r.stop.Running? && r.core.state.ResMinor? <==> IsVersion(v))
            && (IsVersion(v) ==> r.core == BehindVersion(c, v).(state := ResMinor))
  {
    hide Run, IsVersion, Number;
    MirrorRun(c, v, at);
    VersionTextIff(Mirror(c), v, at);
    var r := Run(c, v, at);
    if IsVersion(v) {
      assert Mirror(r.core) == BehindVersion(Mirror(c), v);
      MirrorBehind(c, v, r.core);
    }
  }

  lemma MirrorBehind(c: Core, v: seq<byte>, d: Core)
    requires IsVersion(v) && InVersion(d.state) && Mirror(d) == BehindVersion(Mirror(c), v)
    ensures d == BehindVersion(c, v).(state := ResMinor)
  {
    hide IsVersion, Number;
  }

  lemma NumbersIff(c: Core, w: seq<byte>, crlf: bool, at: nat)
    requires c.state.ResFirstMajor? && 13 !in w && 10 !in w
    ensures var r := Run(c, w + Eol(crlf), at);
            && (r.stop.Running? <==> IsNumbers(w)) && (r.stop.Running? || r.stop.Error?)
            && (r.stop.Running? ==> r.outs == [] && r.core == BehindNumbers(c, w))
  {
    hide Run, Step, StepOuts, IsVersion, IsStatus, BehindVersion, StatusOf;
    var j := FirstSpace(w);
    var v, y := w[..j], w[j..] + Eol(crlf);
    assert v + y == w + Eol(crlf);
    ResponseVersion(c, v, at);
    RunAppend(c, v, y, at);
    var r := Run(c, v, at);
    NoOuts([]);
    if r.stop.Running? {
      BehindVersionStep(r.core, y[0], at + j);
      RunCons(r.core, y, at + j);
      if r.core.state.ResMinor? && j < |w| {
        var e := r.core.(state := ResFirstStatus);
        assert y[1..] == w[j + 1..] + Eol(crlf);
        StatusIff(e, w[j + 1..], crlf, at + j + 1);
        NoOuts(Run(e, y[1..], at + j + 1).outs);
      }
    }
  }

  /** Every line of bytes but line ends is accepted where a response starts exactly if it is `HTTP/`, a version, a
      space, a status code of at most three significant digits and, behind a further space, any text. */
  lemma ResponseLineIff(c: Core, w: seq<byte>, crlf: bool, at: nat)
    requires c.state.StartRes? && 13 !in w && 10 !in w
    ensures var r := Run(c, w + Eol(crlf), at);
            && (r.stop.Running? && r.core.state.HeaderFieldStart? <==> IsResponseLine(w))
            && (IsResponseLine(w) ==>
                  r.outs == [Ctl(MessageBegin, at)] && r.core == BehindNumbers(FreshMessage(c), w[5..]))
            && (w != [] && !IsResponseLine(w) ==> r.stop.Error?)
  {
    hide Run, Step, StepOuts, HTTP_SLASH, IsNumbers, BehindNumbers, Eol;
    SlashIsSpelled();
    hide Ascii;
    SlashLength();
    assert w[..0] == HTTP_SLASH[..0];
    var i := Agreement(w, 0);
    PrefixRun(c, i, at);
    var d := AfterPrefix(c, i, at).core;
    if i == 5 {
      assert HTTP_SLASH[..5] == HTTP_SLASH;
      assert w[..5] + (w[5..] + Eol(crlf)) == w + Eol(crlf);
      RunAppend(c, w[..5], w[5..] + Eol(crlf), at);
      NumbersIff(d, w[5..], crlf, at + 5);
      assert [Ctl(MessageBegin, at)] + [] == [Ctl(MessageBegin, at)];
      if IsNumbers(w[5..]) { SameNumbers(FreshMessage(c), d, w[5..]); }
    } else if i < |w| {
      PrefixStep(d, i, w[i], at + i);
      RefusedByte(c, w[..i], w[i], w[i + 1..] + Eol(crlf), at);
      assert w[..i] + [w[i]] + (w[i + 1..] + Eol(crlf)) == w + Eol(crlf);
      NotSlash(w, i);
    } else if w != [] {
      assert w[..i] == w;
      EolStarts(crlf);
      PrefixStep(d, i, Eol(crlf)[0], at + i);
      NotALineEnd(i);
      RefusedByte(c, w, Eol(crlf)[0], Eol(crlf)[1..], at);
      assert w + [Eol(crlf)[0]] + Eol(crlf)[1..] == w + Eol(crlf);
    } else {
      assert w + Eol(crlf) == Eol(crlf);
      BlankStart(c, crlf, at);
    }
  }

  lemma SameNumbers(c: Core, d: Core, w: seq<byte>)
    requires d == c.(state := d.state) && IsNumbers(w)
    ensures BehindNumbers(c, w) == BehindNumbers(d, w) && BehindNumbers(d, w).state.HeaderFieldStart?
  {
    hide IsVersion, IsStatus, StatusOf, Number;
  }

  lemma EolStarts(crlf: bool)
    ensures Eol(crlf) != [] && (Eol(crlf)[0] == 13 || Eol(crlf)[0] == 10)
  {
  }

  lemma NotALineEnd(i: nat)
    requires i < 5 == |HTTP_SLASH|
    ensures HTTP_SLASH[i] != 13 && HTTP_SLASH[i] != 10
  {
  }

  lemma BlankStart(c: Core, crlf: bool, at: nat)
    requires c.state.StartRes?
    ensures Run(c, Eol(crlf), at).core.state.StartRes?
  {
    hide Run, Step;
    StepCases(c, CR);
    StepCases(c, LF);
    RunOne(c, CR, at);
    RunOne(c, LF, at);
    if crlf {
      StepCases(Step(c, CR).core, LF);
      RunSnoc(c, [CR], LF, at);
      assert [CR] + [LF] == Eol(true);
    }
  }

  // ---------------------------------------------------------------- parsers for both

  function AsRequest(c: Core): Core { c.(state := StartReq, kind := Request) }

  function AsResponse(c: Core): Core { c.(state := StartRes, kind := Response) }

  /** The same observables and the same stop, and the same parser unless it stopped. */
  predicate Alike(r: RunResult, r': RunResult) {
    r.outs == r'.outs && r.consumed == r'.consumed && r.stop == r'.stop && (r.stop.Running? ==> r.core == r'.core)
  }

  /** Two runs that are alike so far stay alike. */
  lemma AlikeOnward(c: Core, c': Core, s: seq<byte>, t: seq<byte>, at: nat)
    requires Alike(Run(c, s, at), Run(c', s, at))
    ensures Alike(Run(c, s + t, at), Run(c', s + t, at))
  {
    hide Run;
    RunAppend(c, s, t, at);
    RunAppend(c', s, t, at);
  }

  lemma FirstByteOfBoth(c: Core, x: byte, at: nat)
    requires c.state.StartReqOrRes? && x != 72 && x != 13 && x != 10
    ensures Alike(Run(c, [x], at), Run(AsRequest(c), [x], at))
  {
    hide Run, Step;
    StepCases(c, x);
    StepCases(AsRequest(c), x);
    RunOne(c, x, at);
    RunOne(AsRequest(c), x, at);
  }

  lemma FirstTwoBytes(c: Core, y: byte, at: nat)
    requires c.state.StartReqOrRes?
    ensures Alike(Run(c, [72, y], at), Run(if y == 84 then AsResponse(c) else AsRequest(c), [72, y], at))
  {
    hide Run, Step, StepOuts;
    var d := if y == 84 then AsResponse(c) else AsRequest(c);
    AfterH(c, at);
    AfterH(AsRequest(c), at);
    AfterH(AsResponse(c), at);
    RunOne(c, 72, at);
    RunOne(d, 72, at);
    RunSnoc(c, [72], y, at);
    RunSnoc(d, [72], y, at);
    assert [72] + [y] == [72, y];
    SecondByte(Step(c, 72).core, Step(d, 72).core, y, at + 1);
  }

  /** The parser behind the first `H`. */
  lemma AfterH(c: Core, at: nat)
    requires c.state.StartReqOrRes? || (c.state.StartReq? && c.kind.Request?) || c.state.StartRes?
    ensures var r, d := Step(c, 72), FreshMessage(c);
            && r.stop.Running? && StepOuts(c, 72, at) == [Ctl(MessageBegin, at)]
            && (c.state.StartReqOrRes? ==> r.core == d.(state := ResOrRespH))
            && (c.state.StartReq? ==> r.core == d.(state := ReqMethod, meth := Head, index := 1))
            && (c.state.StartRes? ==> r.core == d.(state := ResH))
  {
    hide Step;
    StepCases(c, 72);
    assert CtlAt([MessageBegin], at) == [Ctl(MessageBegin, at)];
    assert OpenSlices(ResOrRespH) == [] && OpenSlices(ReqMethod) == [] && OpenSlices(ResH) == [];
    assert BytesAt([], at) == [] by { CtlNone(at); }
  }

  lemma SecondByte(d: Core, e: Core, y: byte, at: nat)
    requires d.state.ResOrRespH?
    requires if y == 84 then e == d.(state := ResH, kind := Response)
             else e == d.(state := ReqMethod, kind := Request, meth := Head, index := 1)
    ensures var r, r' := Step(d, y), Step(e, y);
            && StepOuts(d, y, at) == StepOuts(e, y, at)
            && r.stop == r'.stop && (r.stop.Running? ==> r.core == r'.core)
  {
    hide Step;
    StepCases(d, y);
    StepCases(e, y);
  }

  /** A parser for both kinds of messages reads what starts with `HT` as a response parser does, and anything else as
      a request parser does. */
  lemma BothTypes(c: Core, s: seq<byte>, at: nat)
    requires c.state.StartReqOrRes? && s != [] && s != Ascii("H") && s[0] != 13 && s[0] != 10
    ensures Alike(Run(c, s, at),
                  Run(if |s| >= 2 && s[..2] == Ascii("HT") then AsResponse(c) else AsRequest(c), s, at))
  {
    hide Run, Alike;
    assert Ascii("H") == [72] && Ascii("HT") == [72, 84];
    hide Ascii;
    if s[0] != 72 {
      FirstByteOfBoth(c, s[0], at);
      AlikeOnward(c, AsRequest(c), [s[0]], s[1..], at);
      assert [s[0]] + s[1..] == s;
    } else {
      assert s == [s[0]] || |s| >= 2;
      var d := if s[1] == 84 then AsResponse(c) else AsRequest(c);
      assert s[..2] == [72, s[1]];
      FirstTwoBytes(c, s[1], at);
      AlikeOnward(c, d, [72, s[1]], s[2..], at);
      assert [72, s[1]] + s[2..] == s;
    }
  }
}
