/** Request lines: every method name, target and version that a well-formed request can carry. */
module HttpRequestLine {
  import opened Options
  import opened HttpChars
  import opened HttpAutomaton
  import opened HttpText
  import opened HttpShape
  import opened HttpRun
  import opened HttpTargets
  import opened HttpHeaders

  // ---------------------------------------------------------------- methods

  /** From which byte on the parser's guess at the method is final. */
  function Settled(m: Method): nat {
    match m
    case Put => 2
    case Copy => 3
    case Checkout => 2
    case Move => 2
    case Merge => 2
    case Msearch => 2
    case Mkactivity => 3
    case Propfind => 2
    case Proppatch => 5
    case Unsubscribe => 3
    case _ => 1
  }

  /** The parser's guess after `i` bytes of the name of `m`. */
  function Guess(m: Method, i: nat): Method {
    if i >= Settled(m) then m
    else match m
      case Put => Post
      case Copy => Connect
      case Checkout => Connect
      case Move => Mkcol
      case Merge => Mkcol
      case Msearch => Mkcol
      case Mkactivity => Mkcol
      case Propfind => Post
      case Proppatch => if i == 1 then Post else Propfind
      case Unsubscribe => Unlock
      case _ => m
  }

  lemma FirstGuess(m: Method)
    ensures FirstMethod(MethodString(m)[0]) == Some(Guess(m, 1)) && IsUpper(MethodString(m)[0])
  {
  }

  /** While the guess is not final, the next byte of the name corrects it or agrees with it. */
  lemma GuessSteps(m: Method, i: nat, c: Core)
    requires 1 <= i < Settled(m) && c.state.ReqMethod? && c.meth == Guess(m, i) && c.index == i
    ensures i < |MethodString(m)|
    ensures StepMethod(c, MethodString(m)[i]) == Go(c.(meth := Guess(m, i + 1), index := i + 1))
  {
    match m {
      case Put =>
      case Copy =>
      case Checkout =>
      case Move =>
      case Merge =>
      case Msearch =>
      case Mkactivity =>
      case Propfind =>
      case Proppatch =>
      case Unsubscribe =>
      case _ =>
    }
  }

  /** Once it is final, the rest of the name matches. */
  lemma SettledSteps(m: Method, i: nat, c: Core)
    requires Settled(m) <= i < |MethodString(m)| && c.state.ReqMethod? && c.meth == m && c.index == i
    ensures StepMethod(c, MethodString(m)[i]) == Go(c.(index := i + 1))
  {
    assert MethodString(m)[i] != 0 && MethodString(m)[i] != SP by { NameBytes(m); }
    hide MethodString;
  }

  lemma NameBytes(m: Method)
    ensures forall i :: 0 <= i < |MethodString(m)| ==> MethodString(m)[i] != 0 && MethodString(m)[i] != SP
  {
    var s := MethodString(m);
    forall i | 0 <= i < |s| ensures s[i] != 0 && s[i] != SP {
      NameByte(m, i);
    }
  }

  lemma NameByte(m: Method, i: nat)
    requires i < |MethodString(m)|
    ensures DASH <= MethodString(m)[i] <= 90
  {
  }

  /** The parser after `i` bytes of the name of `m`. */
  function InMethod(c: Core, m: Method, i: nat): Core {
    FreshMessage(c).(state := ReqMethod, meth := Guess(m, i), index := i)
  }

  lemma MethodByte(c: Core, m: Method, i: nat, at: nat)
    requires 1 <= i < |MethodString(m)|
    ensures Step(InMethod(c, m, i), MethodString(m)[i]) == Go(InMethod(c, m, i + 1))
    ensures StepOuts(InMethod(c, m, i), MethodString(m)[i], at) == []
  {
    hide Step, StepMethod, MethodString, Guess;
    var d := InMethod(c, m, i);
    StepCases(d, MethodString(m)[i]);
    if i >= Settled(m) { GuessFinal(m, i); }
    if i < Settled(m) {
      GuessSteps(m, i, d);
    } else {
      SettledSteps(m, i, d);
    }
    assert OpenSlices(ReqMethod) == [];
  }

  lemma GuessFinal(m: Method, i: nat)
    requires i >= Settled(m)
    ensures Guess(m, i) == m && Guess(m, i + 1) == m
  {
  }

  /** A method name and the space behind it: the message begins, and the parser has the method. */
  lemma MethodRun(c: Core, m: Method, at: nat)
    requires c.state.StartReq?
    ensures var n := |NameOf(m)|;
            Run(c, Ascii(NameOf(m)) + Ascii(" "), at)
            == RunResult(FreshMessage(c).(state := ReqSpacesBeforeUrl, meth := m, index := n + 1),
                         [Ctl(MessageBegin, at)], n + 1, Running)
  {
    hide Run, Step, StepOuts, MethodString, Guess, NameOf;
    NameIs(m);
    assert Ascii(" ") == [SP];
    var n := |MethodString(m)|;
    NameRun(c, m, n, at);
    assert MethodString(m)[..n] == MethodString(m);
    SettledByEnd(m);
    RunSnoc(c, MethodString(m), SP, at);
    MethodSpace(c, m, at + n);
  }

  lemma SettledByEnd(m: Method)
    ensures Guess(m, |MethodString(m)|) == m
  {
  }

  lemma MethodSpace(c: Core, m: Method, at: nat)
    requires Guess(m, |MethodString(m)|) == m
    ensures var n := |MethodString(m)|;
            var d := InMethod(c, m, n);
            && Step(d, SP) == Go(FreshMessage(c).(state := ReqSpacesBeforeUrl, meth := m, index := n + 1))
            && StepOuts(d, SP, at) == []
  {
    hide Step, MethodString, Guess;
    StepCases(InMethod(c, m, |MethodString(m)|), SP);
    assert OpenSlices(ReqSpacesBeforeUrl) == [];
  }

  lemma {:induction false} NameRun(c: Core, m: Method, i: nat, at: nat)
    requires c.state.StartReq? && 1 <= i <= |MethodString(m)|
    ensures Run(c, MethodString(m)[..i], at) == RunResult(InMethod(c, m, i), [Ctl(MessageBegin, at)], i, Running)
    decreases i
  {
    hide Run, Step, StepOuts, MethodString, Guess, InMethod;
    var s := MethodString(m);
    if i == 1 {
      assert s[..1] == [s[0]];
      MethodFirst(c, m, at);
      RunOne(c, s[0], at);
    } else {
      NameRun(c, m, i - 1, at);
      assert s[..i] == s[..i - 1] + [s[i - 1]];
      RunSnoc(c, s[..i - 1], s[i - 1], at);
      MethodByte(c, m, i - 1, at + i - 1);
    }
  }

  lemma MethodFirst(c: Core, m: Method, at: nat)
    requires c.state.StartReq?
    ensures var ch := MethodString(m)[0];
            && Step(c, ch) == StepResult(InMethod(c, m, 1), [MessageBegin], Running, false)
            && StepOuts(c, ch, at) == [Ctl(MessageBegin, at)]
  {
    hide Step, MethodString, Guess;
    StepCases(c, MethodString(m)[0]);
    FirstGuess(m);
    hide FirstMethod;
    assert [MessageBegin] + [] == [MessageBegin];
    assert OpenSlices(ReqMethod) == [] && CtlAt([MessageBegin], at) == [Ctl(MessageBegin, at)];
  }

  // ---------------------------------------------------------------- versions

  function Number(s: seq<byte>): nat
    requires AllDigits(s)
  {
    if s == [] then 0 else Number(s[..|s| - 1]) * 10 + (s[|s| - 1] - 48)
  }

  /** A version: a major number that does not start with 0, and a minor number, each at most 999. */
  datatype Version = Version(major: seq<byte>, minor: seq<byte>)

  predicate ValidVersion(v: Version) {
    && v.major != [] && AllDigits(v.major) && v.major[0] != 48 && Number(v.major) <= 999
    && v.minor != [] && AllDigits(v.minor) && Number(v.minor) <= 999
  }

  const HTTP_SLASH: seq<byte> := [72, 84, 84, 80, 47]

  lemma NumberSnoc(s: seq<byte>, ch: byte)
    requires AllDigits(s) && IsDigit(ch)
    ensures AllDigits(s + [ch]) && Number(s + [ch]) == Number(s) * 10 + (ch - 48)
    ensures Number(s) <= Number(s + [ch]) && Number([ch]) == ch - 48
  {
    assert (s + [ch])[..|s|] == s && [ch][..0] == [];
  }

  /** The state after `i` bytes of `HTTP/`. */
  function InLiteral(i: nat): State {
    if i == 0 then ReqHttpStart
    else if i == 1 then ReqHttpH
    else if i == 2 then ReqHttpHT
    else if i == 3 then ReqHttpHTT
    else if i == 4 then ReqHttpHTTP
    else ReqFirstMajor
  }

  lemma LiteralMoves(i: nat)
    requires i < 5
    ensures IsLiteralState(InLiteral(i)) && LiteralMove(InLiteral(i), HTTP_SLASH[i]) == Next(InLiteral(i + 1))
  {
  }

  /** `HTTP/` */
  lemma {:induction false} LiteralRun(c: Core, i: nat, at: nat)
    requires c.state.ReqHttpStart? && i <= 5
    ensures Run(c, HTTP_SLASH[..i], at) == RunResult(c.(state := InLiteral(i)), [], i, Running)
    decreases i
  {
    hide Run, Step, StepOuts, HTTP_SLASH, LiteralMove;
    SlashLength();
    if i == 0 {
      RunNil(c, at, Run(c, [], at));
    } else {
      var s := HTTP_SLASH[..i - 1];
      LiteralRun(c, i - 1, at);
      LiteralMoves(i - 1);
      assert HTTP_SLASH[..i] == s + [HTTP_SLASH[i - 1]];
      RunSnoc(c, s, HTTP_SLASH[i - 1], at);
      LiteralStep(c.(state := InLiteral(i - 1)), HTTP_SLASH[i - 1], InLiteral(i), at + i - 1);
    }
  }

  lemma LiteralStep(c: Core, ch: byte, next: State, at: nat)
    requires IsLiteralState(c.state) && LiteralMove(c.state, ch) == Next(next)
    requires next in {ReqHttpH, ReqHttpHT, ReqHttpHTT, ReqHttpHTTP, ReqFirstMajor, HeaderFieldStart}
    ensures Step(c, ch) == To(c, next) && StepOuts(c, ch, at) == []
  {
    hide Step, LiteralMove;
    StepCases(c, ch);
    assert OpenSlices(next) == [];
  }

  lemma MajorStep(c: Core, ch: byte, at: nat)
    requires IsDigit(ch)
    requires (c.state.ReqFirstMajor? && ch != 48) || (c.state.ReqMajor? && c.httpMajor * 10 + (ch - 48) <= 999)
    ensures Step(c, ch) == To(c.(httpMajor := if c.state.ReqFirstMajor? then ch - 48 else c.httpMajor * 10 + (ch - 48)),
                              ReqMajor)
    ensures StepOuts(c, ch, at) == []
  {
    hide Step;
    StepCases(c, ch);
    assert OpenSlices(ReqMajor) == [];
  }

  lemma MinorStep(c: Core, ch: byte, at: nat)
    requires IsDigit(ch)
    requires c.state.ReqFirstMinor? || (c.state.ReqMinor? && c.httpMinor * 10 + (ch - 48) <= 999)
    ensures Step(c, ch) == To(c.(httpMinor := if c.state.ReqFirstMinor? then ch - 48 else c.httpMinor * 10 + (ch - 48)),
                              ReqMinor)
    ensures StepOuts(c, ch, at) == []
  {
    hide Step;
    StepCases(c, ch);
    assert OpenSlices(ReqMinor) == [];
  }

  lemma {:induction false} MajorRun(c: Core, s: seq<byte>, at: nat)
    requires c.state.ReqFirstMajor? && s != [] && AllDigits(s) && s[0] != 48 && Number(s) <= 999
    ensures Run(c, s, at) == RunResult(c.(state := ReqMajor, httpMajor := Number(s)), [], |s|, Running)
    decreases |s|
  {
    hide Run, Step, StepOuts, Number;
    var u, ch := s[..|s| - 1], s[|s| - 1];
    assert s == u + [ch];
    NumberSnoc(u, ch);
    if |s| == 1 {
      assert s == [ch];
      MajorStep(c, ch, at);
      RunOne(c, ch, at);
    } else {
      MajorRun(c, u, at);
      RunSnoc(c, u, ch, at);
      MajorStep(c.(state := ReqMajor, httpMajor := Number(u)), ch, at + |u|);
    }
  }

  lemma {:induction false} MinorRun(c: Core, s: seq<byte>, at: nat)
    requires c.state.ReqFirstMinor? && s != [] && AllDigits(s) && Number(s) <= 999
    ensures Run(c, s, at) == RunResult(c.(state := ReqMinor, httpMinor := Number(s)), [], |s|, Running)
    decreases |s|
  {
    hide Run, Step, StepOuts, Number;
    var u, ch := s[..|s| - 1], s[|s| - 1];
    assert s == u + [ch];
    NumberSnoc(u, ch);
    if |s| == 1 {
      assert s == [ch];
      MinorStep(c, ch, at);
      RunOne(c, ch, at);
    } else {
      MinorRun(c, u, at);
      RunSnoc(c, u, ch, at);
      MinorStep(c.(state := ReqMinor, httpMinor := Number(u)), ch, at + |u|);
    }
  }

  lemma DotStep(c: Core, at: nat)
    requires c.state.ReqMajor?
    ensures Step(c, DOT) == To(c, ReqFirstMinor) && StepOuts(c, DOT, at) == []
  {
    hide Step;
    StepCases(c, DOT);
    assert OpenSlices(ReqFirstMinor) == [];
  }

  lemma LineEndRun(c: Core, crlf: bool, at: nat)
    requires c.state.ReqMinor?
    ensures Run(c, Eol(crlf), at) == RunResult(c.(state := HeaderFieldStart), [], |Eol(crlf)|, Running)
  {
    hide Run, Step, StepOuts;
    MinorEnds(c, at);
    if crlf {
      RunOne(c, CR, at);
      LiteralStep(c.(state := ReqLineAlmostDone), LF, HeaderFieldStart, at + 1);
      RunSnoc(c, [CR], LF, at);
      assert [CR] + [LF] == Eol(true);
    } else {
      RunOne(c, LF, at);
    }
  }

  lemma MinorEnds(c: Core, at: nat)
    requires c.state.ReqMinor?
    ensures Step(c, CR) == To(c, ReqLineAlmostDone) && StepOuts(c, CR, at) == []
    ensures Step(c, LF) == To(c, HeaderFieldStart) && StepOuts(c, LF, at) == []
  {
    hide Step;
    StepCases(c, CR);
    StepCases(c, LF);
    assert OpenSlices(ReqLineAlmostDone) == [] && OpenSlices(HeaderFieldStart) == [];
  }

  function EncodeVersion(v: Version, crlf: bool): seq<byte> {
    HTTP_SLASH + (v.major + ([DOT] + (v.minor + Eol(crlf))))
  }

  /** The version and the end of the request line. */
  lemma VersionRun(c: Core, v: Version, crlf: bool, at: nat)
    requires c.state.ReqHttpStart? && ValidVersion(v)
    ensures Run(c, EncodeVersion(v, crlf), at)
            == RunResult(c.(state := HeaderFieldStart, httpMajor := Number(v.major), httpMinor := Number(v.minor)),
                         [], |EncodeVersion(v, crlf)|, Running)
  {
    hide Run, Step, StepOuts, Number, Eol, HTTP_SLASH;
    LiteralRun(c, 5, at);
    SlashLength();
    assert HTTP_SLASH[..5] == HTTP_SLASH;
    NoOuts([]);
    var d := c.(state := ReqFirstMajor);
    MajorRun(d, v.major, at + 5);
    var e := d.(state := ReqMajor, httpMajor := Number(v.major));
    var at1 := at + 5 + |v.major|;
    DotStep(e, at1);
    RunOne(e, DOT, at1);
    var f := e.(state := ReqFirstMinor);
    MinorRun(f, v.minor, at1 + 1);
    var g := f.(state := ReqMinor, httpMinor := Number(v.minor));
    LineEndRun(g, crlf, at1 + 1 + |v.minor|);
    RunJoin(f, v.minor, Eol(crlf), at1 + 1, Run(f, v.minor, at1 + 1), Run(g, Eol(crlf), at1 + 1 + |v.minor|));
    RunJoin(e, [DOT], v.minor + Eol(crlf), at1, Run(e, [DOT], at1), Run(f, v.minor + Eol(crlf), at1 + 1));
    RunJoin(d, v.major, [DOT] + (v.minor + Eol(crlf)), at + 5, Run(d, v.major, at + 5),
            Run(e, [DOT] + (v.minor + Eol(crlf)), at1));
    RunJoin(c, HTTP_SLASH, v.major + ([DOT] + (v.minor + Eol(crlf))), at, Run(c, HTTP_SLASH, at),
            Run(d, v.major + ([DOT] + (v.minor + Eol(crlf))), at + 5));
  }

  lemma SlashLength()
    ensures |HTTP_SLASH| == 5
  {
  }

  // ---------------------------------------------------------------- request lines

  datatype RequestLine = RequestLine(meth: Method, target: seq<byte>, version: Version, crlf: bool)

  predicate ValidRequestLine(l: RequestLine) {
    IsRequestTarget(l.target) && ValidVersion(l.version)
  }

  function EncodeRequestLine(l: RequestLine): seq<byte> {
    (Name(l.meth) + [SP]) + ((l.target + [SP]) + EncodeVersion(l.version, l.crlf))
  }

  /** The parser behind a request line. */
  function BehindRequestLine(c: Core, l: RequestLine): Core
    requires ValidRequestLine(l)
  {
    FreshMessage(c).(state := HeaderFieldStart, meth := l.meth, index := |Name(l.meth)| + 1,
                     httpMajor := Number(l.version.major), httpMinor := Number(l.version.minor))
  }

  /** The stream offset of the target of a request line at offset `at`. */
  function TargetAt(l: RequestLine, at: nat): nat { at + |Name(l.meth)| + 1 }

  lemma NameRunSpelled(c: Core, m: Method, at: nat)
    requires c.state.StartReq?
    ensures var n := |Name(m)|;
            Run(c, Name(m) + [SP], at)
            == RunResult(FreshMessage(c).(state := ReqSpacesBeforeUrl, meth := m, index := n + 1),
                         [Ctl(MessageBegin, at)], n + 1, Running)
  {
    hide Run, NameOf;
    assert Ascii(" ") == [SP];
    MethodRun(c, m, at);
  }

  /** A request line: the message begins, every url callback sees its slice of the target, and the method and
      the version are known. */
  lemma RequestLineRun(c: Core, l: RequestLine, at: nat, k: Slice)
    requires c.state.StartReq? && ValidRequestLine(l)
    ensures var r := Run(c, EncodeRequestLine(l), at);
            && r.stop.Running? && r.consumed == |EncodeRequestLine(l)| && r.core == BehindRequestLine(c, l)
            && Lens(r.outs, k) == [Ctl(MessageBegin, at)] + TargetOuts(l.target, k, TargetAt(l, at))
  {
    hide Run, Step, StepOuts, Number, Name, EncodeVersion, Lens, Range, IsRequestTarget, ValidVersion,
         TargetOuts, PathAt;
    var a, b, v := Name(l.meth) + [SP], l.target + [SP], EncodeVersion(l.version, l.crlf);
    NameRunSpelled(c, l.meth, at);
    var d := Run(c, a, at).core;
    TargetIsPlain(l.target);
    RequestTargetIff(d, l.target, SP, TargetAt(l, at), k);
    var r2 := Run(d, b, TargetAt(l, at));
    VersionRun(r2.core, l.version, l.crlf, TargetAt(l, at) + |b|);
    var r3 := Run(r2.core, v, TargetAt(l, at) + |b|);
    RunJoin(d, b, v, TargetAt(l, at), r2, r3);
    RunJoin(c, a, b + v, at, Run(c, a, at), Run(d, b + v, TargetAt(l, at)));
    NoOuts(r2.outs);
    LensAppend([Ctl(MessageBegin, at)], r2.outs, k);
    LensOne(Ctl(MessageBegin, at), k);
  }
}
