/** Which slices a run has marked and not yet handed over, and since when. */
module HttpMarks {
  import opened HttpChars
  import opened HttpAutomaton
  import opened HttpRun
  import opened HttpShape
  import opened HttpLog

  /** The marks of a call that has read `s` from offset `at` on: slices that were open before are marked at its
      first byte, the others at theirs. */
  function OpenMarks(c: Core, s: seq<byte>, at: nat): Marks
    decreases |s|
  {
    if s == [] then MarksAfter(map[], c.state, at)
    else MarksAfter(OpenMarks(c, s[..|s| - 1], at), Run(c, s, at).core.state, at + |s| - 1)
  }

  lemma OpenMarksSnoc(c: Core, s: seq<byte>, ch: byte, at: nat)
    requires Run(c, s, at).stop.Running?
    ensures OpenMarks(c, s + [ch], at)
            == MarksAfter(OpenMarks(c, s, at), Step(Run(c, s, at).core, ch).core.state, at + |s|)
  {
    hide Run, Step, MarksAfter;
    assert (s + [ch])[..|s|] == s;
    RunSnoc(c, s, ch, at);
  }

  lemma LastByte(c: Core, s: seq<byte>, at: nat)
    requires s != [] && Run(c, s, at).stop.Running?
    ensures var t, ch := s[..|s| - 1], s[|s| - 1];
            && s == t + [ch] && Run(c, t, at).stop.Running? && Step(Run(c, t, at).core, ch).stop.Running?
            && Run(c, s, at).core == Step(Run(c, t, at).core, ch).core
            && Run(c, s, at).outs == Run(c, t, at).outs + StepOuts(Run(c, t, at).core, ch, at + |t|)
  {
    hide Run, Step, StepOuts;
    var t, ch := s[..|s| - 1], s[|s| - 1];
    assert s == t + [ch];
    RunAppend(c, t, [ch], at);
    if Run(c, t, at).stop.Running? { RunSnoc(c, t, ch, at); }
  }

  /** The marks are those of the open slices, at bytes of the call. */
  lemma {:induction false} OpenMarksRange(c: Core, s: seq<byte>, at: nat)
    requires Run(c, s, at).stop.Running?
    ensures var m := OpenMarks(c, s, at);
            && m.Keys == OpenSet(Run(c, s, at).core.state)
            && forall k :: k in m ==> at <= m[k] <= at + |s| && (s != [] ==> m[k] < at + |s|)
    decreases |s|
  {
    hide Run, Step, StepOuts, OpenSet;
    if s == [] {
      RunNil(c, at, Run(c, s, at));
    } else {
      LastByte(c, s, at);
      OpenMarksRange(c, s[..|s| - 1], at);
    }
  }

  /** Body bytes and the ends of messages leave nothing marked. */
  lemma NothingMarked(c: Core, s: seq<byte>, at: nat)
    requires Run(c, s, at).stop.Running? && OpenSet(Run(c, s, at).core.state) == {}
    ensures OpenMarks(c, s, at) == map[]
  {
    hide Run, OpenSet, OpenMarks;
    OpenMarksRange(c, s, at);
  }

  /** The bytes that are marked are the last ones that the run makes observable for their callback. */
  lemma {:induction false} PendingFits(c: Core, s: seq<byte>, at: nat, k: Slice)
    requires Run(c, s, at).stop.Running?
    ensures |Pending(OpenMarks(c, s, at), k, at + |s|)| <= |Lens(Run(c, s, at).outs, k)|
    decreases |s|
  {
    hide Run, Step, StepOuts, OpenSet, Lens, OpenMarks;
    OpenMarksRange(c, s, at);
    if s == [] {
    } else {
      LastByte(c, s, at);
      var t, ch := s[..|s| - 1], s[|s| - 1];
      PendingFits(c, t, at, k);
      OpenMarksSnoc(c, t, ch, at);
      OpenMarksRange(c, t, at);
      var d := Run(c, t, at).core;
      LensAppend(Run(c, t, at).outs, StepOuts(d, ch, at + |t|), k);
      if k in OpenMarks(c, s, at) { OpenByte(d, ch, at + |t|, k); }
    }
  }

  /** A byte that leads into a slice belongs to it. */
  lemma OpenByte(c: Core, ch: byte, at: nat, k: Slice)
    requires Step(c, ch).stop.Running? && k in OpenSet(Step(c, ch).core.state)
    ensures |Lens(StepOuts(c, ch, at), k)| >= 1
  {
    hide Step, OpenSet, Lens;
    if DeliversBody(c) { BodyOpensNothing(c, ch); }
    NoSlices(Step(c, ch).core.state);
    OutsLens(c, ch, at, k);
  }

  lemma BodyOpensNothing(c: Core, ch: byte)
    requires DeliversBody(c)
    ensures OpenSlices(Step(c, ch).core.state) == []
  {
    hide Step, OpenSlices;
    if c.state.BodyIdentityEof? {
      StepCases(c, ch);
      EofOpensNothing(c.state);
    } else {
      BodySignals(c, ch);
    }
  }

  lemma EofOpensNothing(s: State)
    requires s.BodyIdentityEof?
    ensures OpenSlices(s) == []
  {
  }

  /** The same bytes in two calls: a slice that was open at the cut is marked anew by the second call, the others
      as without the cut. */
  lemma {:induction false} MarksBehindCut(c: Core, a: seq<byte>, b: seq<byte>, at: nat)
    requires Run(c, a + b, at).stop.Running? && Run(c, a, at).stop.Running?
    ensures var m, m' := OpenMarks(c, a + b, at), OpenMarks(Run(c, a, at).core, b, at + |a|);
            && m'.Keys == m.Keys
            && forall k :: k in m ==> m'[k] == if m[k] < at + |a| then at + |a| else m[k]
    decreases |b|
  {
    hide Run, Step, StepOuts, OpenSet;
    var d := Run(c, a, at).core;
    if b == [] {
      assert a + b == a;
      OpenMarksRange(c, a, at);
      OpenMarksRange(d, [], at + |a|);
      RunNil(d, at + |a|, Run(d, [], at + |a|));
    } else {
      var t, ch := b[..|b| - 1], b[|b| - 1];
      assert (a + b)[..|a + b| - 1] == a + t && t + [ch] == b && (a + t) + [ch] == a + b;
      LastByte(c, a + b, at);
      MarksBehindCut(c, a, t, at);
      RunAppend(c, a, t, at);
      RunAppend(c, a, b, at);
      assert Run(d, b, at + |a|).core == Run(c, a + b, at).core;
    }
  }
}
