/** All request targets: a path, or a host with or without a scheme before it, and how they are cut into slices. */
module HttpTargets {
  import opened HttpChars
  import opened HttpAutomaton
  import opened HttpText
  import opened HttpShape
  import opened HttpRun
  import opened HttpUrl

  // ---------------------------------------------------------------- specification

  predicate IsLetter(ch: byte) { 65 <= ch <= 90 || 97 <= ch <= 122 }

  predicate IsHostByte(ch: byte) { IsLetter(ch) || IsDigit(ch) || ch == 45 || ch == 46 }

  /** How many of the first bytes are letters. */
  function LettersLength(w: seq<byte>): (k: nat)
    ensures k <= |w| && (k < |w| ==> !IsLetter(w[k])) && forall i :: 0 <= i < k ==> IsLetter(w[i])
  {
    if w == [] || !IsLetter(w[0]) then 0 else 1 + LettersLength(w[1..])
  }

  /** How many of the first bytes belong to a host. */
  function HostLength(w: seq<byte>): (k: nat)
    ensures k <= |w| && (k < |w| ==> !IsHostByte(w[k])) && forall i :: 0 <= i < k ==> IsHostByte(w[i])
  {
    if w == [] || !IsHostByte(w[0]) then 0 else 1 + HostLength(w[1..])
  }

  /** The length of a host with the port behind it. */
  function AuthorityLength(h: seq<byte>): (k: nat)
    ensures k <= |h|
  {
    var p := HostLength(h);
    if p < |h| && h[p] == 58 then p + 1 + DigitsLength(h[p + 1..]) else p
  }

  predicate StartsWithScheme(y: seq<byte>) { |y| >= 3 && y[..3] == Ascii("://") }

  /** Where the path of a target is: behind the scheme and the host. */
  function PathAt(t: seq<byte>): (k: nat)
    ensures k <= |t|
  {
    var a := LettersLength(t);
    if StartsWithScheme(t[a..]) then a + 3 + AuthorityLength(t[a + 3..]) else a + AuthorityLength(t[a..])
  }

  /** Nothing, or a slash and what can be seen behind it. */
  predicate IsPath(p: seq<byte>) { p == [] || (p[0] == 47 && IsTarget(p)) }

  /** A target that starts with a letter: `scheme://host:port/path`, or letters and a dot or digit as a host that
      continues and stands for itself. The port and the path may be missing, and the host may be empty behind a
      scheme. */
  predicate IsAbsolute(t: seq<byte>) {
    var a := LettersLength(t);
    && a > 0 && a < |t|
    && (StartsWithScheme(t[a..]) || t[a] == 46 || IsDigit(t[a]))
    && IsPath(t[PathAt(t)..])
  }

  predicate IsRequestTarget(t: seq<byte>) { IsTarget(t) || IsAbsolute(t) }

  /** What a callback sees of a target: the url callback all of it, the others the slices of its path. */
  function TargetOuts(t: seq<byte>, k: Slice, at: nat): seq<Out> {
    if k.Url? then Range(Url, at, at + |t|) else PathOuts(t[PathAt(t)..], k, at + PathAt(t))
  }

  function PathOuts(p: seq<byte>, k: Slice, at: nat): seq<Out> {
    SliceOrdered(p, k);
    SliceOuts(p, k, at)
  }

  // ---------------------------------------------------------------- inside the host

  predicate BeforePath(s: State) {
    s.ReqSchema? || s.ReqSchemaSlash? || s.ReqSchemaSlashSlash? || s.ReqHost? || s.ReqPort?
  }

  /** The bytes that the three states with a class of their own go on with. */
  predicate Stays(s: State, x: byte) {
    match s
    case ReqSchema => IsLetter(x)
    case ReqHost => IsHostByte(x)
    case ReqPort => IsDigit(x)
    case _ => false
  }

  /** Where a byte leads that does not belong to a path. */
  function Onward(s: State, x: byte): State
    requires BeforePath(s)
  {
    if Stays(s, x) then s
    else
      match s
      case ReqSchema => if x == 58 then ReqSchemaSlash else if x == 46 || IsDigit(x) then ReqHost else Dead
      case ReqSchemaSlash => if x == 47 then ReqSchemaSlashSlash else Dead
      case ReqSchemaSlashSlash => if x == 47 then ReqHost else Dead
      case ReqHost => if x == 58 then ReqPort else if x == 47 then ReqPath else if x == 32 then ReqHttpStart else Dead
      case _ => if x == 47 then ReqPath else if x == 32 then ReqHttpStart else Dead
  }

  lemma OnwardMove(s: State, x: byte)
    requires BeforePath(s)
    ensures UrlMove(s, x) == if Onward(s, x).Dead? then Reject else Next(Onward(s, x))
    ensures var t := Onward(s, x); BeforePath(t) || t.ReqPath? || t.ReqHttpStart? || t.Dead?
  {
  }

  lemma OnwardStep(c: Core, x: byte, at: nat)
    requires BeforePath(c.state)
    ensures var s := Onward(c.state, x);
            && (s.Dead? ==> Step(c, x).stop.Error?)
            && (!s.Dead? ==> Step(c, x) == To(c, s))
            && (BeforePath(s) ==> StepOuts(c, x, at) == Range(Url, at, at + 1))
            && (s.ReqHttpStart? ==> StepOuts(c, x, at) == [])
            && (s.ReqPath? ==> StepOuts(c, x, at) == BytesAt([Url, Path], at))
  {
    hide Step, UrlMove, Onward;
    StepCases(c, x);
    OnwardMove(c.state, x);
    RangeOne(Url, at);
    assert CtlAt([], at) == [] by { CtlNone(at); }
    var s := Onward(c.state, x);
    if BeforePath(s) {
      assert OpenSlices(s) == [Url] && BytesAt([Url], at) == [Byte(Url, at)];
    } else if s.ReqPath? {
      assert OpenSlices(ReqPath) == [Url, Path];
    } else {
      assert OpenSlices(ReqHttpStart) == [];
    }
  }

  lemma {:induction false} StayRun(c: Core, u: seq<byte>, at: nat)
    requires BeforePath(c.state) && forall i :: 0 <= i < |u| ==> Stays(c.state, u[i])
    ensures Run(c, u, at) == RunResult(c, Range(Url, at, at + |u|), |u|, Running)
    decreases |u|
  {
    hide Run, Step, StepOuts, Stays;
    if u == [] {
      RunNil(c, at, Run(c, [], at));
      assert Range(Url, at, at) == [];
    } else {
      OnwardStep(c, u[0], at);
      RunCons(c, u, at);
      StayRun(c, u[1..], at + 1);
      RangeJoin(at, at + 1, at + |u|);
    }
  }

  lemma RangeJoin(a: nat, b: nat, e: nat)
    requires a <= b <= e
    ensures Range(Url, a, b) + Range(Url, b, e) == Range(Url, a, e)
  {
  }

  // ---------------------------------------------------------------- results

  /** The byte behind a target that ends without a version makes it an HTTP/0.9 request; only a path may end so. */
  function BehindTarget(c: Core, end: byte): Core {
    if end == SP then c.(state := ReqHttpStart)
    else c.(httpMajor := 0, httpMinor := 9, state := if end == CR then ReqLineAlmostDone else HeaderFieldStart)
  }

  predicate IsEnd(end: byte) { end == SP || end == CR || end == LF }

  predicate NoEnd(t: seq<byte>) { SP !in t && CR !in t && LF !in t }

  /** What the rest of a target with a path behind `j` bytes leaves. */
  predicate Reads(c: Core, r: RunResult, t: seq<byte>, j: nat, end: byte, at: nat, k: Slice)
    requires j <= |t|
  {
    && r.stop.Running? && r.core == BehindTarget(c, end)
    && Lens(r.outs, k) == if k.Url? then Range(Url, at, at + |t|) else PathOuts(t[j..], k, at + j)
  }

  /** A rest of a target is read exactly if it is `good`, and refused otherwise. */
  predicate Decides(c: Core, t: seq<byte>, j: nat, good: bool, end: byte, at: nat, k: Slice)
    requires j <= |t|
  {
    var r := Run(c, t + [end], at);
    if good && (end == SP || j < |t|) then Reads(c, r, t, j, end, at, k) else r.stop.Error?
  }

  /** What goes before the rest. */
  lemma DecidesBehind(c: Core, u: seq<byte>, d: Core, y: seq<byte>, j: nat, good: bool, end: byte, at: nat, k: Slice)
    requires Run(c, u, at) == RunResult(d, Range(Url, at, at + |u|), |u|, Running)
    requires d == c.(state := d.state) && j <= |y| && IsEnd(end)
    requires Decides(d, y, j, good, end, at + |u|, k)
    ensures Decides(c, u + y, |u| + j, good, end, at, k)
  {
    hide Run, PathOuts, Lens, BehindTarget;
    var r := Run(d, y + [end], at + |u|);
    RunAppend(c, u, y + [end], at);
    assert u + (y + [end]) == u + y + [end];
    if r.stop.Running? {
      ReadsBehind(c, u, d, y, j, end, at, k, r);
    }
  }

  lemma ReadsBehind(c: Core, u: seq<byte>, d: Core, y: seq<byte>, j: nat, end: byte, at: nat, k: Slice, r: RunResult)
    requires d == c.(state := d.state) && j <= |y| && IsEnd(end) && Reads(d, r, y, j, end, at + |u|, k)
    ensures Reads(c, Then(RunResult(d, Range(Url, at, at + |u|), |u|, Running), r), u + y, |u| + j, end, at, k)
  {
    hide PathOuts, Lens, Range;
    LensAppend(Range(Url, at, at + |u|), r.outs, k);
    LensRange(Url, at, at + |u|, k);
    RangeJoin(at, at + |u|, at + |u| + |y|);
    assert (u + y)[|u| + j..] == y[j..];
    NoOuts(Lens(r.outs, k));
  }

  // ---------------------------------------------------------------- the path

  lemma PathPart(c: Core, p: seq<byte>, end: byte, at: nat, k: Slice)
    requires (c.state.ReqHost? || c.state.ReqPort?) && p != [] && p[0] == 47 && NoEnd(p) && IsEnd(end)
    ensures Decides(c, p, 0, IsPath(p), end, at, k)
  {
    hide Run, Step, StepOuts, IsTarget, SliceOf, Lens;
    var d := c.(state := ReqSpacesBeforeUrl);
    OnwardStep(c, 47, at);
    SlashStep(d, at);
    RunCons(c, p + [end], at);
    RunCons(d, p + [end], at);
    assert p[0..] == p;
    SliceOrdered(p, k);
    if IsTarget(p) {
      UrlSlicing(d, p, end, at, k);
      if k.Url? { WholeUrl(p, at); }
    } else {
      TargetRun(d, p, at, k);
      StaysRefused(d, p, [end], at);
    }
  }

  lemma WholeUrl(p: seq<byte>, at: nat)
    ensures SliceOf(p, Url) == (0, |p|) && SliceOuts(p, Url, at) == Range(Url, at, at + |p|)
  {
  }

  lemma SlashStep(c: Core, at: nat)
    requires c.state.ReqSpacesBeforeUrl?
    ensures Step(c, 47) == To(c, ReqPath) && StepOuts(c, 47, at) == BytesAt([Url, Path], at)
  {
    hide Step;
    StepCases(c, 47);
    assert CtlAt([], at) == [] by { CtlNone(at); }
    assert OpenSlices(ReqPath) == [Url, Path];
  }

  /** Behind the host or the port: a path, or the end. */
  lemma PathOrEnd(c: Core, y: seq<byte>, end: byte, at: nat, k: Slice)
    requires (c.state.ReqHost? || c.state.ReqPort?) && NoEnd(y) && IsEnd(end)
    requires y != [] ==> !Stays(c.state, y[0]) && (c.state.ReqHost? ==> y[0] != 58)
    ensures Decides(c, y, 0, IsPath(y), end, at, k)
  {
    hide Run, Step, StepOuts, IsTarget, PathOuts;
    if y == [] {
      OnwardStep(c, end, at);
      RunOne(c, end, at);
      assert [] + [end] == [end];
      NoPath(k, at);
      LensEmpty(k);
    } else if y[0] == 47 {
      PathPart(c, y, end, at, k);
    } else {
      OnwardStep(c, y[0], at);
      RunCons(c, y + [end], at);
    }
  }

  lemma NoPath(k: Slice, at: nat)
    ensures PathOuts([], k, at) == [] && Range(Url, at, at) == []
  {
    SliceOrdered([], k);
  }

  // ---------------------------------------------------------------- the host and the scheme

  lemma PortPart(c: Core, y: seq<byte>, end: byte, at: nat, k: Slice)
    requires c.state.ReqPort? && NoEnd(y) && IsEnd(end)
    ensures var n := DigitsLength(y); Decides(c, y, n, IsPath(y[n..]), end, at, k)
  {
    hide Run, IsPath, Decides;
    var n := DigitsLength(y);
    assert y == y[..n] + y[n..];
    StayRun(c, y[..n], at);
    PathOrEnd(c, y[n..], end, at + n, k);
    DecidesBehind(c, y[..n], c, y[n..], 0, IsPath(y[n..]), end, at, k);
  }

  lemma HostPart(c: Core, h: seq<byte>, end: byte, at: nat, k: Slice)
    requires c.state.ReqHost? && NoEnd(h) && IsEnd(end)
    ensures var n := AuthorityLength(h); Decides(c, h, n, IsPath(h[n..]), end, at, k)
  {
    hide *;
    HostCut(h);
    var p := HostLength(h);
    var y := h[p..];
    HostRun(c, h, at);
    SameCore(c);
    if y != [] && y[0] == 58 {
      ColonPart(c, y, end, at + p, k);
      var n := 1 + DigitsLength(y[1..]);
      DecidesBehind(c, h[..p], c, y, n, IsPath(y[n..]), end, at, k);
    } else {
      PathOrEnd(c, y, end, at + p, k);
      DecidesBehind(c, h[..p], c, y, 0, IsPath(y), end, at, k);
    }
  }

  lemma SameCore(c: Core)
    ensures c == c.(state := c.state)
  {
  }

  /** A target falls into the host and the rest. */
  lemma HostCut(h: seq<byte>)
    ensures var p := HostLength(h);
            var y := h[p..];
            && p <= |h| && h == h[..p] + y && |h[..p]| == p
            && (NoEnd(h) ==> NoEnd(y))
            && (y != [] ==> !Stays(ReqHost, y[0]))
            && (if y != [] && y[0] == 58 then
                  var n := 1 + DigitsLength(y[1..]);
                  n <= |y| && AuthorityLength(h) == p + n && h[p + n..] == y[n..]
                else AuthorityLength(h) == p && h[p..] == y)
  {
    hide AuthorityLength, HostLength;
    var p := HostLength(h);
    if p < |h| {
      AuthorityCut(h, p, h[p..]);
    } else {
      AuthorityIsHost(h);
    }
  }

  lemma AuthorityIsHost(h: seq<byte>)
    ensures HostLength(h) == |h| ==> AuthorityLength(h) == |h|
  {
    hide HostLength;
  }

  lemma AuthorityCut(h: seq<byte>, p: nat, y: seq<byte>)
    requires p == HostLength(h) < |h| && y == h[p..]
    ensures AuthorityLength(h) == if y[0] == 58 then p + 1 + DigitsLength(y[1..]) else p
    ensures y[0] == 58 ==> h[p + 1 + DigitsLength(y[1..])..] == y[1 + DigitsLength(y[1..])..]
  {
    hide HostLength, DigitsLength;
    assert y[1..] == h[p + 1..];
  }

  lemma HostRun(c: Core, h: seq<byte>, at: nat)
    requires c.state.ReqHost?
    ensures var u := h[..HostLength(h)]; Run(c, u, at) == RunResult(c, Range(Url, at, at + |u|), |u|, Running)
  {
    hide Run;
    StayRun(c, h[..HostLength(h)], at);
  }

  lemma ColonPart(c: Core, y: seq<byte>, end: byte, at: nat, k: Slice)
    requires c.state.ReqHost? && NoEnd(y) && IsEnd(end) && y != [] && y[0] == 58
    ensures var n := 1 + DigitsLength(y[1..]); Decides(c, y, n, IsPath(y[n..]), end, at, k)
  {
    hide Run, IsPath, Decides;
    var z := y[1..];
    var m := DigitsLength(z);
    var d := c.(state := ReqPort);
    OneByte(c, 58, d, at);
    PortPart(d, z, end, at + 1, k);
    assert [58] + z == y && z[m..] == y[1 + m..];
    DecidesBehind(c, [58], d, z, m, IsPath(z[m..]), end, at, k);
  }

  lemma OneByte(c: Core, x: byte, d: Core, at: nat)
    requires BeforePath(c.state) && BeforePath(d.state) && d == c.(state := Onward(c.state, x))
    ensures Run(c, [x], at) == RunResult(d, Range(Url, at, at + |[x]|), |[x]|, Running)
  {
    hide Run, Step, StepOuts, Onward;
    OnwardStep(c, x, at);
    RunOne(c, x, at);
  }

  /** Behind the letters that a target starts with. */
  predicate GoodBehindLetters(y: seq<byte>) {
    if StartsWithScheme(y) then IsPath(y[3 + AuthorityLength(y[3..])..])
    else y != [] && (y[0] == 46 || IsDigit(y[0])) && IsPath(y[AuthorityLength(y)..])
  }

  function PathBehindLetters(y: seq<byte>): (k: nat)
    ensures k <= |y|
  {
    if StartsWithScheme(y) then 3 + AuthorityLength(y[3..]) else AuthorityLength(y)
  }

  lemma SchemePart(c: Core, y: seq<byte>, end: byte, at: nat, k: Slice)
    requires c.state.ReqSchema? && NoEnd(y) && IsEnd(end) && (y != [] ==> !IsLetter(y[0]))
    ensures Decides(c, y, PathBehindLetters(y), GoodBehindLetters(y), end, at, k)
  {
    hide Run, Step, StepOuts, IsPath, Reads, AuthorityLength;
    SchemeIsSpelled();
    hide Ascii;
    var d := c.(state := ReqHost);
    if StartsWithScheme(y) {
      var h := y[3..];
      var n := AuthorityLength(h);
      SchemeRun(c, at);
      HostPart(d, h, end, at + 3, k);
      DecidesBehind(c, [58, 47, 47], d, h, n, IsPath(h[n..]), end, at, k);
      assert [58, 47, 47] + h == y && h[n..] == y[3 + n..];
    } else if y != [] && (y[0] == 46 || IsDigit(y[0])) {
      DotStart(c, d, y, end, at, k);
    } else {
      NoScheme(c, y, end, at);
    }
  }

  lemma SchemeIsSpelled()
    ensures Ascii("://") == [58, 47, 47]
  {
  }

  lemma SchemeRun(c: Core, at: nat)
    requires c.state.ReqSchema?
    ensures Run(c, [58, 47, 47], at) == RunResult(c.(state := ReqHost), Range(Url, at, at + 3), 3, Running)
  {
    hide Run, Step, StepOuts;
    var d, e := c.(state := ReqSchemaSlash), c.(state := ReqSchemaSlashSlash);
    OneByte(c, 58, d, at);
    OnwardStep(d, 47, at + 1);
    OnwardStep(e, 47, at + 2);
    RunSnoc(c, [58], 47, at);
    RangeJoin(at, at + 1, at + 2);
    assert [58] + [47] == [58, 47] && [58, 47] + [47] == [58, 47, 47];
    RunSnoc(c, [58, 47], 47, at);
    RangeJoin(at, at + 2, at + 3);
  }

  /** A dot or a digit belongs to the host, whose letters the parser has read before. */
  lemma DotStart(c: Core, d: Core, y: seq<byte>, end: byte, at: nat, k: Slice)
    requires c.state.ReqSchema? && d == c.(state := ReqHost) && NoEnd(y) && IsEnd(end)
    requires y != [] && (y[0] == 46 || IsDigit(y[0]))
    ensures var n := AuthorityLength(y); Decides(c, y, n, IsPath(y[n..]), end, at, k)
  {
    hide Run, Step, StepOuts, IsPath, Reads;
    HostPart(d, y, end, at, k);
    OnwardStep(c, y[0], at);
    OnwardStep(d, y[0], at);
    RunCons(c, y + [end], at);
    RunCons(d, y + [end], at);
    SameReads(c, d, Run(c, y + [end], at), y, AuthorityLength(y), end, at, k);
  }

  lemma SameReads(c: Core, d: Core, r: RunResult, t: seq<byte>, j: nat, end: byte, at: nat, k: Slice)
    requires d == c.(state := d.state) && j <= |t|
    ensures Reads(c, r, t, j, end, at, k) <==> Reads(d, r, t, j, end, at, k)
  {
    hide PathOuts, Lens;
  }

  /** What follows the letters neither as a scheme nor as a host. */
  lemma NoScheme(c: Core, y: seq<byte>, end: byte, at: nat)
    requires c.state.ReqSchema? && NoEnd(y) && IsEnd(end) && !(|y| >= 3 && y[..3] == [58, 47, 47])
    requires y != [] ==> !Stays(ReqSchema, y[0]) && y[0] != 46 && !IsDigit(y[0])
    ensures Run(c, y + [end], at).stop.Error?
  {
    hide Run, Step, StepOuts;
    var z := y + [end];
    OnwardStep(c, z[0], at);
    RunCons(c, z, at);
    if y != [] && y[0] == 58 {
      var d, e := c.(state := ReqSchemaSlash), c.(state := ReqSchemaSlashSlash);
      OnwardStep(d, z[1], at + 1);
      RunCons(d, z[1..], at + 1);
      if z[1] == 47 {
        assert |y| >= 2 && z[2] == z[1..][1] && z[1..][1..] == z[2..];
        OnwardStep(e, z[2], at + 2);
        RunCons(e, z[2..], at + 2);
        if |y| >= 3 { assert y[..3] == [58, 47, y[2]]; }
      }
    }
  }

  // ---------------------------------------------------------------- all targets

  lemma FirstLetter(c: Core, x: byte, at: nat)
    requires c.state.ReqSpacesBeforeUrl?
    ensures IsLetter(x) ==>
              Run(c, [x], at) == RunResult(c.(state := ReqSchema), Range(Url, at, at + |[x]|), |[x]|, Running)
    ensures !IsLetter(x) && x != 47 && x != 42 && x != 32 ==> Step(c, x).stop.Error?
  {
    hide Run, Step;
    StepCases(c, x);
    RunOne(c, x, at);
    RangeOne(Url, at);
    assert OpenSlices(ReqSchema) == [Url] && BytesAt([Url], at) == [Byte(Url, at)];
    assert CtlAt([], at) == [] by { CtlNone(at); }
  }

  lemma AbsoluteParts(t: seq<byte>)
    requires t != []
    ensures var a := LettersLength(t);
            && PathAt(t) == a + PathBehindLetters(t[a..])
            && (IsAbsolute(t) <==> a > 0 && GoodBehindLetters(t[a..]))
  {
    hide Ascii, AuthorityLength;
    var a := LettersLength(t);
    var y := t[a..];
    assert y[PathBehindLetters(y)..] == t[PathAt(t)..];
    if StartsWithScheme(y) { assert y[3..] == t[a + 3..]; }
  }

  /** Every target, for all bytes that may stand before a space or a line end: it is read exactly if it is a path or
      an absolute target (and only a path may end the line), and then the callbacks see it and the slices of its
      path; anything else is an error. */
  lemma RequestTargetIff(c: Core, t: seq<byte>, end: byte, at: nat, k: Slice)
    requires c.state.ReqSpacesBeforeUrl? && t != [] && NoEnd(t) && IsEnd(end)
    ensures var r := Run(c, t + [end], at);
            if IsRequestTarget(t) && (end == SP || PathAt(t) < |t|) then
              && r.stop.Running? && r.core == BehindTarget(c, end) && Lens(r.outs, k) == TargetOuts(t, k, at)
            else r.stop.Error?
  {
    hide Run, Step, StepOuts, IsTarget, PathOuts, SliceOf, PathAt, IsAbsolute;
    if t[0] == 47 || t[0] == 42 {
      PathTarget(c, t, end, at, k);
    } else if IsLetter(t[0]) {
      LetterTarget(c, t, end, at, k);
    } else {
      FirstLetter(c, t[0], at);
      RunCons(c, t + [end], at);
      NeitherTarget(t);
    }
  }

  lemma NeitherTarget(t: seq<byte>)
    requires t != [] && t[0] != 47 && t[0] != 42
    ensures !IsTarget(t) && (!IsLetter(t[0]) ==> !IsAbsolute(t))
  {
  }

  lemma PathTarget(c: Core, t: seq<byte>, end: byte, at: nat, k: Slice)
    requires c.state.ReqSpacesBeforeUrl? && t != [] && NoEnd(t) && IsEnd(end) && (t[0] == 47 || t[0] == 42)
    ensures PathAt(t) == 0 && !IsAbsolute(t)
    ensures var r := Run(c, t + [end], at);
            if IsTarget(t) then
              r.stop.Running? && r.core == BehindTarget(c, end) && Lens(r.outs, k) == TargetOuts(t, k, at)
            else r.stop.Error?
  {
    hide Run, IsTarget, SliceOf, Lens;
    SchemeIsSpelled();
    hide Ascii;
    assert t[0..] == t;
    SliceOrdered(t, k);
    if IsTarget(t) {
      UrlSlicing(c, t, end, at, k);
      if k.Url? { WholeUrl(t, at); }
    } else {
      TargetRun(c, t, at, k);
      StaysRefused(c, t, [end], at);
    }
  }

  lemma LetterTarget(c: Core, t: seq<byte>, end: byte, at: nat, k: Slice)
    requires c.state.ReqSpacesBeforeUrl? && t != [] && NoEnd(t) && IsEnd(end) && IsLetter(t[0])
    ensures !IsTarget(t) && Decides(c, t, PathAt(t), IsAbsolute(t), end, at, k)
  {
    hide *;
    LetterIsNoPath(t);
    LettersCut(t);
    AbsoluteParts(t);
    LettersRun(c, t, at);
    LettersThenScheme(c, t, t[..LettersLength(t)], t[LettersLength(t)..], PathAt(t), IsAbsolute(t), end, at, k);
  }

  lemma LetterIsNoPath(t: seq<byte>)
    requires t != [] && IsLetter(t[0])
    ensures !IsTarget(t)
  {
  }

  lemma LettersThenScheme(c: Core, t: seq<byte>, u: seq<byte>, y: seq<byte>, j: nat, good: bool, end: byte, at: nat,
                          k: Slice)
    requires t == u + y && j == |u| + PathBehindLetters(y) && (good <==> GoodBehindLetters(y))
    requires Run(c, u, at) == RunResult(c.(state := ReqSchema), Range(Url, at, at + |u|), |u|, Running)
    requires NoEnd(y) && IsEnd(end) && (y != [] ==> !IsLetter(y[0]))
    ensures j <= |t| && Decides(c, t, j, good, end, at, k)
  {
    hide *;
    var d := c.(state := ReqSchema);
    SchemePart(d, y, end, at + |u|, k);
    DecidesBehind(c, u, d, y, PathBehindLetters(y), GoodBehindLetters(y), end, at, k);
  }

  lemma LettersCut(t: seq<byte>)
    requires t != [] && IsLetter(t[0])
    ensures var a := LettersLength(t);
            var y := t[a..];
            && 0 < a <= |t| && t == t[..a] + y && |t[..a]| == a
            && (NoEnd(t) ==> NoEnd(y)) && (y != [] ==> !IsLetter(y[0]))
            && PathBehindLetters(y) <= |y|
  {
    hide LettersLength, PathBehindLetters;
  }

  lemma LettersRun(c: Core, t: seq<byte>, at: nat)
    requires c.state.ReqSpacesBeforeUrl? && t != [] && IsLetter(t[0])
    ensures var u := t[..LettersLength(t)];
            Run(c, u, at) == RunResult(c.(state := ReqSchema), Range(Url, at, at + |u|), |u|, Running)
  {
    hide Run, Range;
    var a := LettersLength(t);
    var d := c.(state := ReqSchema);
    FirstLetter(c, t[0], at);
    StayRun(d, t[1..a], at + 1);
    RunJoin(c, [t[0]], t[1..a], at, Run(c, [t[0]], at), Run(d, t[1..a], at + 1));
    assert [t[0]] + t[1..a] == t[..a];
    RangeJoin(at, at + 1, at + a);
  }

  /** No target holds a space or a line end. */
  lemma TargetIsPlain(t: seq<byte>)
    requires IsRequestTarget(t)
    ensures t != [] && NoEnd(t)
  {
    if IsTarget(t) {
      TargetHoldsNoEnd(t);
    } else {
      AbsoluteParts(t);
      var a := LettersLength(t);
      BehindLettersIsPlain(t[a..]);
      NoEndJoins(t[..a], t[a..]);
      assert t[..a] + t[a..] == t;
    }
  }

  lemma NoEndJoins(u: seq<byte>, y: seq<byte>)
    ensures (forall i :: 0 <= i < |u| ==> !IsEnd(u[i])) && NoEnd(y) ==> NoEnd(u + y)
  {
  }

  lemma BehindLettersIsPlain(y: seq<byte>)
    requires GoodBehindLetters(y)
    ensures NoEnd(y)
  {
    hide IsPath, AuthorityLength;
    SchemeIsSpelled();
    if StartsWithScheme(y) {
      AuthorityIsPlain(y[3..]);
      assert y[3..][AuthorityLength(y[3..])..] == y[3 + AuthorityLength(y[3..])..];
      NoEndJoins([58, 47, 47], y[3..]);
      assert [58, 47, 47] + y[3..] == y;
    } else {
      AuthorityIsPlain(y);
    }
  }

  lemma AuthorityIsPlain(h: seq<byte>)
    requires IsPath(h[AuthorityLength(h)..])
    ensures NoEnd(h)
  {
    var n := AuthorityLength(h);
    if h[n..] != [] { TargetHoldsNoEnd(h[n..]); }
    AuthorityBytes(h);
    NoEndJoins(h[..n], h[n..]);
    assert h[..n] + h[n..] == h;
  }

  lemma AuthorityBytes(h: seq<byte>)
    ensures forall i :: 0 <= i < AuthorityLength(h) ==> !IsEnd(h[i])
  {
    var p := HostLength(h);
    if p < |h| && h[p] == 58 {
      assert forall i :: p < i < AuthorityLength(h) ==> h[i] == h[p + 1..][i - p - 1];
      forall i | p < i < AuthorityLength(h) ensures IsDigit(h[i]) {
        assert h[p + 1..][..DigitsLength(h[p + 1..])][i - p - 1] == h[i];
      }
    }
  }

  lemma NoBodyBytes(t: seq<byte>, at: nat)
    ensures TargetOuts(t, Body, at) == []
  {
    hide FirstMark, FirstHash, PathAt;
  }

  /** A host of letters alone is no target of its own: `host:80` is refused, `h.st:80` is not. */
  lemma HostNeedsDot(c: Core, at: nat)
    requires c.state.ReqSpacesBeforeUrl?
    ensures Run(c, Ascii("host:80") + [32], at).stop.Error?
    ensures Run(c, Ascii("h.st:80") + [32], at).stop.Running?
  {
    hide Run;
    var bad, good: seq<byte> := [104, 111, 115, 116, 58, 56, 48], [104, 46, 115, 116, 58, 56, 48];
    HostSpelled();
    HostLettersAlone(bad);
    HostWithDot(good);
    hide *;
    RequestTargetIff(c, bad, 32, at, Url);
    RequestTargetIff(c, good, 32, at, Url);
  }

  lemma HostSpelled()
    ensures Ascii("host:80") == [104, 111, 115, 116, 58, 56, 48]
    ensures Ascii("h.st:80") == [104, 46, 115, 116, 58, 56, 48]
  {
  }

  lemma HostLettersAlone(t: seq<byte>)
    requires t == [104, 111, 115, 116, 58, 56, 48]
    ensures NoEnd(t) && !IsRequestTarget(t)
  {
    SchemeIsSpelled();
    hide Ascii, AuthorityLength, PathAt, IsPath;
    LettersAre(t, 4);
    assert t[4..][1] == 56;
  }

  lemma HostWithDot(t: seq<byte>)
    requires t == [104, 46, 115, 116, 58, 56, 48]
    ensures NoEnd(t) && IsRequestTarget(t)
  {
    SchemeIsSpelled();
    hide Ascii;
    LettersAre(t, 1);
    var h := t[1..];
    assert h == [46, 115, 116, 58, 56, 48];
    HostIs(h, 3);
    DigitsAreAll(h[4..]);
    assert AuthorityLength(h) == 6;
    assert h[0] != 58;
  }

  lemma {:induction false} LettersAre(w: seq<byte>, n: nat)
    requires n <= |w| && (forall i :: 0 <= i < n ==> IsLetter(w[i])) && (n < |w| ==> !IsLetter(w[n]))
    ensures LettersLength(w) == n
  {
  }

  lemma {:induction false} HostIs(w: seq<byte>, n: nat)
    requires n <= |w| && (forall i :: 0 <= i < n ==> IsHostByte(w[i])) && (n < |w| ==> !IsHostByte(w[n]))
    ensures HostLength(w) == n
  {
  }

  lemma {:induction false} DigitsAreAll(w: seq<byte>)
    requires AllDigits(w)
    ensures DigitsLength(w) == |w|
  {
  }
}
