/** Exactly which versions end a request line. */
module HttpVersions {
  import opened HttpChars
  import opened HttpAutomaton
  import opened HttpText
  import opened HttpShape
  import opened HttpRun
  import opened HttpHeaders
  import opened HttpRequestLine

  // ---------------------------------------------------------------- numbers

  /** A number that is small enough. */
  predicate IsSmall(u: seq<byte>) { u != [] && AllDigits(u) && Number(u) <= 999 }

  /** `major.minor`, where the major number does not start with 0. */
  predicate IsVersion(v: seq<byte>) {
    var k := DigitsLength(v);
    && IsSmall(v[..k]) && v[0] != 48 && k < |v| && v[k] == 46
    && var m := v[k + 1..];
       IsSmall(m)
  }

  // ---------------------------------------------------------------- the version of a request

  /** The bytes that the version states refuse. */
  lemma VersionRefusals(c: Core, x: byte)
    ensures c.state.ReqFirstMajor? && !(49 <= x <= 57) ==> Step(c, x).stop.Error?
    ensures c.state.ReqMajor? && x != 46 && !IsDigit(x) ==> Step(c, x).stop.Error?
    ensures c.state.ReqMajor? && IsDigit(x) && c.httpMajor * 10 + (x - 48) > 999 ==> Step(c, x).stop.Error?
    ensures c.state.ReqFirstMinor? && !IsDigit(x) ==> Step(c, x).stop.Error?
    ensures c.state.ReqMinor? && !IsDigit(x) && x != 13 && x != 10 ==> Step(c, x).stop.Error?
    ensures c.state.ReqMinor? && IsDigit(x) && c.httpMinor * 10 + (x - 48) > 999 ==> Step(c, x).stop.Error?
  {
    hide Step;
    StepCases(c, x);
  }

  /** A major number that is too large. */
  lemma {:induction false} MajorOverflows(c: Core, u: seq<byte>, at: nat)
    requires c.state.ReqFirstMajor? && u != [] && AllDigits(u) && u[0] != 48 && Number(u) > 999
    ensures Run(c, u, at).stop.Error?
    decreases |u|
  {
    hide Run, Step, Number;
    var t, x := u[..|u| - 1], u[|u| - 1];
    assert u == t + [x];
    NumberSnoc(t, x);
    NoNumber();
    if Number(t) > 999 {
      MajorOverflows(c, t, at);
      RunAppend(c, t, [x], at);
    } else {
      assert t != [];
      MajorRun(c, t, at);
      VersionRefusals(Run(c, t, at).core, x);
      RefusedByte(c, t, x, [], at);
      assert t + [x] + [] == u;
    }
  }

  lemma NoNumber()
    ensures Number([]) == 0
  {
  }

  lemma {:induction false} MinorOverflows(c: Core, u: seq<byte>, at: nat)
    requires c.state.ReqFirstMinor? && u != [] && AllDigits(u) && Number(u) > 999
    ensures Run(c, u, at).stop.Error?
    decreases |u|
  {
    hide Run, Step, Number;
    var t, x := u[..|u| - 1], u[|u| - 1];
    assert u == t + [x];
    NumberSnoc(t, x);
    NoNumber();
    if Number(t) > 999 {
      MinorOverflows(c, t, at);
      RunAppend(c, t, [x], at);
    } else {
      assert t != [];
      MinorRun(c, t, at);
      VersionRefusals(Run(c, t, at).core, x);
      RefusedByte(c, t, x, [], at);
      assert t + [x] + [] == u;
    }
  }

  /** Where a number of the version is over: the parser has read all of `m` as the minor number, or refuses it. */
  lemma MinorIff(c: Core, m: seq<byte>, at: nat)
    requires c.state.ReqFirstMinor? && 13 !in m && 10 !in m
    ensures m != [] ==> (Run(c, m, at).stop.Running? <==> IsSmall(m))
    ensures IsSmall(m) ==> Run(c, m, at) == RunResult(c.(state := ReqMinor, httpMinor := Number(m)), [], |m|, Running)
    ensures m != [] && !IsSmall(m) ==> Run(c, m, at).stop.Error?
  {
    hide Run, Step, Number;
    var k := DigitsLength(m);
    var u := m[..k];
    if IsSmall(m) {
      MinorRun(c, m, at);
    } else if m != [] {
      if k == 0 {
        VersionRefusals(c, m[0]);
        RunCons(c, m, at);
      } else if Number(u) > 999 {
        MinorOverflows(c, u, at);
        StaysRefused(c, u, m[k..], at);
        assert u + m[k..] == m;
      } else {
        assert m[..|m|] == m;
        MinorRun(c, u, at);
        VersionRefusals(Run(c, u, at).core, m[k]);
        RefusedByte(c, u, m[k], m[k + 1..], at);
        assert u + [m[k]] + m[k + 1..] == m;
      }
    }
  }

  /** The parser behind a version. */
  function BehindVersion(c: Core, v: seq<byte>): Core
    requires IsVersion(v)
  {
    var k := DigitsLength(v);
    c.(state := ReqMinor, httpMajor := Number(v[..k]), httpMinor := Number(v[k + 1..]))
  }

  /** For all bytes but line breaks: the parser stands behind a version exactly if it is one; otherwise it is in the
      middle of one, which no line may end, or has refused it. */
  lemma VersionTextIff(c: Core, v: seq<byte>, at: nat)
    requires c.state.ReqFirstMajor? && 13 !in v && 10 !in v
    ensures var r := Run(c, v, at);
            && (r.stop.Running? ==> r.core.state.ReqFirstMajor? || r.core.state.ReqMajor? || r.core.state.ReqFirstMinor?
                                    || r.core.state.ReqMinor?)
            && (!r.stop.Running? ==> r.stop.Error?)
            && (r.stop.Running? && r.core.state.ReqMinor? <==> IsVersion(v))
            && (IsVersion(v) ==> r == RunResult(BehindVersion(c, v), [], |v|, Running))
  {
    hide Run, Step, Number, StepOuts;
    var k := DigitsLength(v);
    var u := v[..k];
    if v == [] {
      RunNil(c, at, Run(c, [], at));
    } else if k == 0 || v[0] == 48 {
      VersionRefusals(c, v[0]);
      RunCons(c, v, at);
    } else if Number(u) > 999 {
      MajorOverflows(c, u, at);
      StaysRefused(c, u, v[k..], at);
      assert u + v[k..] == v;
    } else {
      MajorRun(c, u, at);
      var d := Run(c, u, at).core;
      if k == |v| {
        assert u == v;
      } else {
        assert v == u + [v[k]] + v[k + 1..];
        if v[k] != 46 {
          VersionRefusals(d, v[k]);
          RefusedByte(c, u, v[k], v[k + 1..], at);
        } else {
          VersionSplit(c, v, k);
          BehindDot(c, u, v[k + 1..], d, at);
        }
      }
    }
  }

  /** The dot and what follows it. */
  lemma BehindDot(c: Core, u: seq<byte>, m: seq<byte>, d: Core, at: nat)
    requires d.state.ReqMajor? && 13 !in m && 10 !in m && Run(c, u, at) == RunResult(d, [], |u|, Running)
    ensures var r := Run(c, u + [46] + m, at);
            && (r.stop.Running? ==> r.core.state.ReqFirstMinor? || r.core.state.ReqMinor?)
            && (!r.stop.Running? ==> r.stop.Error?)
            && (r.stop.Running? && r.core.state.ReqMinor? <==> IsSmall(m))
            && (IsSmall(m) ==>
                  r == RunResult(d.(state := ReqMinor, httpMinor := Number(m)), [], |u| + 1 + |m|, Running))
  {
    hide Run, Step, Number, StepOuts;
    DotStep(d, at + |u|);
    RunSnoc(c, u, DOT, at);
    var e := d.(state := ReqFirstMinor);
    MinorIff(e, m, at + |u| + 1);
    RunAppend(c, u + [46], m, at);
    NoOuts(Run(e, m, at + |u| + 1).outs);
    if m == [] { RunNil(e, at + |u| + 1, Run(e, [], at + |u| + 1)); }
  }

  lemma VersionSplit(c: Core, v: seq<byte>, k: nat)
    requires k == DigitsLength(v) < |v| && v[k] == 46 && IsSmall(v[..k]) && v[0] != 48
    ensures IsVersion(v) <==> IsSmall(v[k + 1..])
    ensures IsVersion(v) ==> BehindVersion(c, v) == c.(state := ReqMinor, httpMajor := Number(v[..k]),
                                                       httpMinor := Number(v[k + 1..]))
    ensures IsSmall([]) == false
  {
    hide Number;
  }

  // ---------------------------------------------------------------- the end of a request line

  /** How many of the first bytes are spaces. */
  function SpacesLength(w: seq<byte>): (k: nat)
    ensures k <= |w| && (k < |w| ==> w[k] != 32) && forall i :: 0 <= i < k ==> w[i] == 32
  {
    if w == [] || w[0] != 32 then 0 else 1 + SpacesLength(w[1..])
  }

  /** `HTTP/` and a version, behind any spaces. */
  predicate IsHttpVersion(w: seq<byte>) {
    var v := w[SpacesLength(w)..];
    |v| >= 5 && v[..5] == Ascii("HTTP/") && IsVersion(v[5..])
  }

  lemma SlashIsSpelled()
    ensures HTTP_SLASH == Ascii("HTTP/")
  {
  }

  lemma {:induction false} SpacesBeforeVersion(c: Core, s: seq<byte>, at: nat)
    requires c.state.ReqHttpStart? && forall i :: 0 <= i < |s| ==> s[i] == 32
    ensures Run(c, s, at) == RunResult(c, [], |s|, Running)
    decreases |s|
  {
    hide Step;
    if s != [] {
      StepCases(c, SP);
      assert StepOuts(c, SP, at) == [];
      SpacesBeforeVersion(c, s[1..], at + 1);
    }
  }

  /** How far `w` agrees with `HTTP/`. */
  function Agreement(w: seq<byte>, i: nat): (k: nat)
    requires i <= 5 == |HTTP_SLASH| && i <= |w| && w[..i] == HTTP_SLASH[..i]
    ensures i <= k <= 5 && k <= |w| && w[..k] == HTTP_SLASH[..k]
    ensures k < 5 && k < |w| ==> w[k] != HTTP_SLASH[k]
    decreases 5 - i
  {
    if i < 5 && i < |w| && w[i] == HTTP_SLASH[i] then
      assert w[..i + 1] == w[..i] + [w[i]] && HTTP_SLASH[..i + 1] == HTTP_SLASH[..i] + [HTTP_SLASH[i]];
      Agreement(w, i + 1)
    else i
  }

  lemma LiteralRefusals(c: Core, i: nat, x: byte)
    requires i < 5 && c.state == InLiteral(i) && x != HTTP_SLASH[i] && (i == 0 ==> x != 32)
    ensures Step(c, x).stop.Error?
  {
    hide Step;
    StepCases(c, x);
  }

  /** Everything up to the end of the line. */
  lemma SlashIff(c: Core, v: seq<byte>, crlf: bool, at: nat)
    requires c.state.ReqHttpStart? && 13 !in v && 10 !in v && (v != [] ==> v[0] != 32)
    ensures var r := Run(c, v + Eol(crlf), at);
            && (r.stop.Running? <==> |v| >= 5 && v[..5] == HTTP_SLASH && IsVersion(v[5..]))
            && (r.stop.Running? ==> r.core == BehindVersion(c, v[5..]).(state := HeaderFieldStart) && r.outs == [])
  {
    hide Run, Step, HTTP_SLASH, InLiteral, IsVersion, Number, StepOuts;
    SlashLength();
    assert v[..0] == HTTP_SLASH[..0];
    var i := Agreement(v, 0);
    LiteralRun(c, i, at);
    var d := c.(state := InLiteral(i));
    if i == 5 {
      LiteralEnd();
      assert HTTP_SLASH[..5] == HTTP_SLASH && v == HTTP_SLASH + v[5..];
      LineIff(c, d, v[5..], crlf, at);
      assert HTTP_SLASH + (v[5..] + Eol(crlf)) == v + Eol(crlf);
    } else if i < |v| {
      LiteralRefusals(d, i, v[i]);
      RefusedByte(c, v[..i], v[i], v[i + 1..] + Eol(crlf), at);
      assert v[..i] + [v[i]] + (v[i + 1..] + Eol(crlf)) == v + Eol(crlf);
      NotSlash(v, i);
    } else {
      assert v[..i] == v;
      EolRefused(d, i, crlf);
      RefusedByte(c, v, Eol(crlf)[0], Eol(crlf)[1..], at);
      assert v + [Eol(crlf)[0]] + Eol(crlf)[1..] == v + Eol(crlf);
    }
  }

  lemma LiteralEnd()
    ensures InLiteral(5).ReqFirstMajor?
  {
  }

  lemma NotSlash(v: seq<byte>, i: nat)
    requires i < 5 == |HTTP_SLASH| && i < |v| && v[i] != HTTP_SLASH[i]
    ensures |v| >= 5 ==> v[..5] != HTTP_SLASH
  {
    if |v| >= 5 { assert v[..5][i] == v[i]; }
  }

  lemma EolRefused(d: Core, i: nat, crlf: bool)
    requires i < 5 && d.state == InLiteral(i)
    ensures |Eol(crlf)| > 0 && Step(d, Eol(crlf)[0]).stop.Error?
  {
    LiteralRefusals(d, i, Eol(crlf)[0]);
  }

  /** The version and the line end, behind `HTTP/`. */
  lemma LineIff(c: Core, d: Core, v: seq<byte>, crlf: bool, at: nat)
    requires d == c.(state := ReqFirstMajor) && 13 !in v && 10 !in v && |HTTP_SLASH| == 5
    requires Run(c, HTTP_SLASH, at) == RunResult(d, [], 5, Running)
    ensures var r := Run(c, HTTP_SLASH + (v + Eol(crlf)), at);
            && (r.stop.Running? <==> IsVersion(v))
            && (IsVersion(v) ==> r.core == BehindVersion(c, v).(state := HeaderFieldStart) && r.outs == [])
  {
    hide Run, Step, HTTP_SLASH, IsVersion, Number, StepOuts;
    VersionTextIff(d, v, at + 5);
    RunAppend(c, HTTP_SLASH, v + Eol(crlf), at);
    RunAppend(d, v, Eol(crlf), at + 5);
    var r := Run(d, v, at + 5);
    NoOuts(r.outs);
    NoOuts([]);
    if r.stop.Running? {
      if r.core.state.ReqMinor? {
        LineEndRun(r.core, crlf, at + 5 + |v|);
        SameVersion(c, d, v);
      } else {
        EolInVersion(r.core, crlf);
        RunCons(r.core, Eol(crlf), at + 5 + |v|);
      }
    }
  }

  lemma SameVersion(c: Core, d: Core, v: seq<byte>)
    requires d == c.(state := d.state) && IsVersion(v)
    ensures BehindVersion(c, v) == BehindVersion(d, v)
  {
  }

  lemma EolInVersion(c: Core, crlf: bool)
    requires c.state.ReqFirstMajor? || c.state.ReqMajor? || c.state.ReqFirstMinor?
    ensures Eol(crlf) != [] && Step(c, Eol(crlf)[0]).stop.Error?
  {
    VersionRefusals(c, Eol(crlf)[0]);
  }

  /** Behind the target of a request line: whatever stands there up to the line end is accepted exactly if it is any
      number of spaces, `HTTP/` and a version, whose two numbers are then known. */
  lemma HttpVersionIff(c: Core, w: seq<byte>, crlf: bool, at: nat)
    requires c.state.ReqHttpStart? && 13 !in w && 10 !in w
    ensures var r := Run(c, w + Eol(crlf), at);
            && (r.stop.Running? <==> IsHttpVersion(w))
            && (r.stop.Running? ==> r.core == BehindVersion(c, w[SpacesLength(w) + 5..]).(state := HeaderFieldStart))
  {
    hide Run, HTTP_SLASH, IsVersion, Number, SpacesLength, Eol;
    var k := SpacesLength(w);
    var v := w[k..];
    SlashIsSpelled();
    SpacesBeforeVersion(c, w[..k], at);
    SlashIff(c, v, crlf, at + k);
    RunAppend(c, w[..k], v + Eol(crlf), at);
    assert w[..k] + (v + Eol(crlf)) == w + Eol(crlf);
    if |v| >= 5 { assert v[5..] == w[k + 5..]; }
  }
}
