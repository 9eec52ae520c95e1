/** Exactly which tokens the parser takes for which method: the arms for CONNECT and MKCOL let mismatching bytes
    pass. */
module HttpMethods {
  import opened HttpChars
  import opened HttpAutomaton
  import opened HttpText
  import opened HttpShape
  import opened HttpRun
  import opened HttpRequestLine

  /** The bytes that are accepted at position `j` of the method `m`, spelled `name`: those of its name, but in the four
      methods that start as a guess at CONNECT or MKCOL every byte where the guess is not corrected. */
  predicate ByteFits(m: Method, name: seq<byte>, j: nat, x: byte)
    requires j < |name|
  {
    && x != 0
    && match m
       case Connect => if j == 0 then x == 67 else (j == 1 ==> x != 72) && (j == 2 ==> x != 80)
       case Copy => if j == 1 then x != 72 else x == name[j]
       case Mkcol => if j == 0 then x == 77 else (j == 1 ==> x != 79 && x != 69 && x != DASH) && (j == 2 ==> x != 65)
       case Mkactivity => if j == 1 then x != 79 && x != 69 && x != DASH else x == name[j]
       case _ => x == name[j]
  }

  predicate AcceptedAs(w: seq<byte>, m: Method) {
    |w| == |Name(m)| && forall j :: 0 <= j < |w| ==> ByteFits(m, Name(m), j, w[j])
  }

  /** The same by the table of the parser. */
  predicate TableFits(m: Method, j: nat, x: byte)
    requires j < |MethodString(m)|
  {
    ByteFits(m, MethodString(m), j, x)
  }

  predicate TableAccepts(w: seq<byte>, m: Method) {
    |w| == |MethodString(m)| && forall j :: 0 <= j < |w| ==> TableFits(m, j, w[j])
  }

  lemma AcceptedByTable(w: seq<byte>, m: Method)
    ensures AcceptedAs(w, m) <==> TableAccepts(w, m)
  {
    NameIs(m);
    hide MethodString, Name, ByteFits;
  }

  /** A method token as the request line of section 5.1.1 of RFC 2616 may start with, or any other bytes without a space
      that do not start with a line break. */
  predicate IsToken(w: seq<byte>) { w != [] && SP !in w && w[0] != CR && w[0] != LF }

  // ---------------------------------------------------------------- one byte

  /** The guess behind an accepted byte. */
  lemma FittingStep(m: Method, j: nat, x: byte, c: Core)
    requires 1 <= j < |MethodString(m)| && TableFits(m, j, x) && x != SP
    requires c.state.ReqMethod? && c.meth == Guess(m, j) && c.index == j
    ensures StepMethod(c, x) == Go(c.(meth := Guess(m, j + 1), index := j + 1))
  {
    if x == MethodString(m)[j] {
      if j < Settled(m) {
        GuessSteps(m, j, c);
      } else {
        SettledSteps(m, j, c);
        GuessFinal(m, j);
      }
    } else {
      assert m.Connect? || m.Copy? || m.Mkcol? || m.Mkactivity?;
    }
  }

  /** What is known of the bytes read while the guess is `g`. */
  predicate Fits(u: seq<byte>, g: Method) {
    && Settled(g) <= |u| <= |MethodString(g)| + 1
    && forall j :: 0 <= j < |u| && j < |MethodString(g)| ==> TableFits(g, j, u[j])
  }

  /** A byte that is not a space either stops the parser or leaves bytes that fit the new guess. */
  lemma StepFits(u: seq<byte>, g: Method, x: byte, c: Core)
    requires Fits(u, g) && x != SP && c.state.ReqMethod? && c.meth == g && c.index == |u|
    ensures var r := StepMethod(c, x);
            r.stop.Running? ==> r.core.state.ReqMethod? && r.core.index == |u| + 1 && Fits(u + [x], r.core.meth)
  {
    var r, v := StepMethod(c, x), u + [x];
    if r.stop.Running? {
      if |u| < |MethodString(g)| && x == MethodString(g)[|u|] {
        SameGuess(u, g, x);
      } else {
        NewGuess(u, g, x);
      }
    }
  }

  lemma SameGuess(u: seq<byte>, g: Method, x: byte)
    requires Fits(u, g) && |u| < |MethodString(g)| && x == MethodString(g)[|u|] && x != 0
    ensures Fits(u + [x], g)
  {
    assert TableFits(g, |u|, x) by { OwnTableFits(g, |u|); }
    hide TableFits, MethodString;
  }

  lemma OwnTableFits(g: Method, j: nat)
    requires Settled(g) <= j < |MethodString(g)| && MethodString(g)[j] != 0
    ensures TableFits(g, j, MethodString(g)[j])
  {
  }

  lemma NewGuess(u: seq<byte>, g: Method, x: byte)
    requires Fits(u, g) && x != 0 && |u| <= |MethodString(g)|
    requires |u| < |MethodString(g)| ==> x != MethodString(g)[|u|]
    requires SwitchMethod(g, |u|, x).Some?
    ensures Fits(u + [x], SwitchMethod(g, |u|, x).value)
  {
    match g {
      case Connect => SwitchConnect(u, x);
      case Mkcol => SwitchMkcol(u, x);
      case Post =>
      case Unlock =>
      case Propfind =>
      case _ =>
    }
  }

  lemma SwitchConnect(u: seq<byte>, x: byte)
    requires Fits(u, Connect) && x != 0 && |u| <= 7
    ensures Fits(u + [x], SwitchMethod(Connect, |u|, x).value)
  {
  }

  lemma SwitchMkcol(u: seq<byte>, x: byte)
    requires Fits(u, Mkcol) && x != 0 && |u| <= 5
    ensures Fits(u + [x], SwitchMethod(Mkcol, |u|, x).value)
  {
  }

  // ---------------------------------------------------------------- whole tokens

  lemma FirstFits(c: Core, x: byte)
    requires c.state.StartReq? && x != CR && x != LF
    ensures var r := Step(c, x);
            r.stop.Running? ==> r.core.state.ReqMethod? && r.core.index == 1 && Fits([x], r.core.meth)
  {
    hide Step;
    StepCases(c, x);
    if FirstMethod(x).Some? { FirstGuessFits(x); }
  }

  lemma FirstGuessFits(x: byte)
    requires FirstMethod(x).Some?
    ensures Fits([x], FirstMethod(x).value)
  {
  }

  lemma {:induction false} TokenRun(c: Core, w: seq<byte>, at: nat)
    requires c.state.StartReq? && IsToken(w)
    ensures var r := Run(c, w, at);
            r.stop.Running? ==> r.core.state.ReqMethod? && r.core.index == |w| && Fits(w, r.core.meth)
    decreases |w|
  {
    hide Run, Step, StepOuts, Fits, StepMethod;
    if |w| == 1 {
      assert w == [w[0]];
      RunOne(c, w[0], at);
      FirstFits(c, w[0]);
    } else {
      var u, x := w[..|w| - 1], w[|w| - 1];
      assert w == u + [x];
      TokenRun(c, u, at);
      RunAppend(c, u, [x], at);
      if Run(c, u, at).stop.Running? {
        var d := Run(c, u, at).core;
        RunSnoc(c, u, x, at);
        StepCases(d, x);
        StepFits(u, d.meth, x, d);
      }
    }
  }

  lemma {:induction false} AcceptedRun(c: Core, w: seq<byte>, m: Method, i: nat, at: nat)
    requires c.state.StartReq? && TableAccepts(w, m) && SP !in w && 1 <= i <= |w|
    ensures var r := Run(c, w[..i], at); r.stop.Running? && r.core == InMethod(c, m, i)
    decreases i
  {
    hide Run, Step, StepOuts, TableFits, Guess, MethodString, StepMethod;
    if i == 1 {
      assert w[..1] == [w[0]];
      assert w[0] == MethodString(m)[0] by { FirstTableFits(m, w[0]); }
      RunOne(c, w[0], at);
      MethodFirst(c, m, at);
    } else {
      AcceptedRun(c, w, m, i - 1, at);
      assert w[..i] == w[..i - 1] + [w[i - 1]];
      RunSnoc(c, w[..i - 1], w[i - 1], at);
      StepCases(InMethod(c, m, i - 1), w[i - 1]);
      FittingStep(m, i - 1, w[i - 1], InMethod(c, m, i - 1));
    }
  }

  lemma FirstTableFits(m: Method, x: byte)
    requires TableFits(m, 0, x)
    ensures x == MethodString(m)[0]
  {
  }

  /** The space behind a token ends the method exactly if the name has its length. */
  lemma SpaceStep(u: seq<byte>, d: Core)
    requires d.state.ReqMethod? && d.index == |u| && Fits(u, d.meth)
    ensures var r := StepMethod(d, SP);
            && (r.stop.Running? && r.core.state.ReqSpacesBeforeUrl? <==> |u| == |MethodString(d.meth)|)
            && (|u| == |MethodString(d.meth)| ==> r.core.meth == d.meth)
  {
    var r := StepMethod(d, SP);
    if |u| < |MethodString(d.meth)| {
      assert MethodString(d.meth)[|u|] != SP by { NameBytes(d.meth); }
    }
    hide MethodString;
  }

  /** For every token and every method: the token and a space behind it are taken for that method exactly if every byte
      fits it. */
  lemma MethodIff(c: Core, w: seq<byte>, m: Method, at: nat)
    requires c.state.StartReq? && IsToken(w)
    ensures var r := Run(c, w + [SP], at);
            r.stop.Running? && r.core.state.ReqSpacesBeforeUrl? && r.core.meth == m <==> AcceptedAs(w, m)
  {
    AcceptedByTable(w, m);
    hide Run, Step, StepOuts, TableFits, Guess, MethodString, StepMethod, Fits, AcceptedAs;
    var r := Run(c, w, at);
    TokenRun(c, w, at);
    RunAppend(c, w, [SP], at);
    if r.stop.Running? {
      RunSnoc(c, w, SP, at);
      StepCases(r.core, SP);
      SpaceStep(w, r.core);
      if |w| == |MethodString(r.core.meth)| {
        FittedIsAccepted(w, r.core.meth);
        AcceptedByTable(w, r.core.meth);
      }
    }
    if TableAccepts(w, m) {
      AcceptedRun(c, w, m, |w|, at);
      assert w[..|w|] == w && Guess(m, |MethodString(m)|) == m by { SettledByEnd(m); }
    }
  }

  lemma FittedIsAccepted(w: seq<byte>, g: Method)
    requires Fits(w, g) && |w| == |MethodString(g)|
    ensures TableAccepts(w, g)
  {
    hide TableFits, MethodString;
  }

  /** So a token is taken for a method that it does not name only for CONNECT, COPY, MKCOL and MKACTIVITY. */
  lemma OnlyFourMistaken(w: seq<byte>, m: Method)
    requires AcceptedAs(w, m) && !(m in {Connect, Copy, Mkcol, Mkactivity})
    ensures w == Name(m)
  {
    hide Name;
    assert forall j :: 0 <= j < |w| ==> ByteFits(m, Name(m), j, w[j]) && w[j] == Name(m)[j];
  }

  /** `CXNNECT` is read as CONNECT, and `CXPY` as COPY. */
  lemma MistakenMethods(c: Core, at: nat)
    requires c.state.StartReq?
    ensures var r := Run(c, Ascii("CXNNECT") + Ascii(" "), at);
            r.stop.Running? && r.core.state.ReqSpacesBeforeUrl? && r.core.meth == Connect
    ensures var r := Run(c, Ascii("CXPY") + Ascii(" "), at);
            r.stop.Running? && r.core.state.ReqSpacesBeforeUrl? && r.core.meth == Copy
  {
    hide Run;
    assert Ascii(" ") == [SP];
    MistakenConnect();
    MistakenCopy();
    hide AcceptedAs, Ascii;
    MethodIff(c, Ascii("CXNNECT"), Connect, at);
    MethodIff(c, Ascii("CXPY"), Copy, at);
  }

  lemma MistakenConnect()
    ensures IsToken(Ascii("CXNNECT")) && AcceptedAs(Ascii("CXNNECT"), Connect)
  {
    assert Ascii("CXNNECT") == [67, 88, 78, 78, 69, 67, 84];
    assert |Name(Connect)| == 7;
  }

  lemma MistakenCopy()
    ensures IsToken(Ascii("CXPY")) && AcceptedAs(Ascii("CXPY"), Copy)
  {
    assert Ascii("CXPY") == [67, 88, 80, 89];
    assert Name(Copy) == [67, 79, 80, 89];
  }
}
