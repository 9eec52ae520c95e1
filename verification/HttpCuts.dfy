/** Exactly when a stream may be cut into pieces: any number of cuts, above and below the header limit. */
module HttpCuts {
  import opened HttpChars
  import opened HttpAutomaton
  import opened HttpText
  import opened HttpRun
  import opened HttpShape
  import opened HttpInvariant
  import opened HttpLog
  import opened HttpMarks
  import opened HttpCalls
  import opened HttpHanded
  import opened HttpSplit
  import opened HttpRequestLine

  /** Some cut hides an overflow of the header limit, from the parser as the calls before that cut left it. */
  predicate CutsHideOverflow(s: Saved, pieces: seq<seq<byte>>)
    decreases |pieces|
  {
    && |pieces| >= 2
    && (|| CutHidesOverflow(s, pieces[0], Concat(pieces[1..]))
        || (Call(s, pieces[0], 0).stop.Running? && CutsHideOverflow(Call(s, pieces[0], 0).saved, pieces[1..])))
  }

  /** The first `m` bytes of a stream in pieces. */
  function Take(pieces: seq<seq<byte>>, m: nat): (t: seq<seq<byte>>)
    requires NonEmpty(pieces) && 0 < m <= |Concat(pieces)|
    ensures NonEmpty(t) && Concat(t) == Concat(pieces)[..m]
    decreases |pieces|
  {
    ConcatCons(pieces);
    if m <= |pieces[0]| then ConcatOne(pieces[0][..m]); [pieces[0][..m]]
    else
      var rest := Take(pieces[1..], m - |pieces[0]|);
      ConcatCons([pieces[0]] + rest);
      [pieces[0]] + rest
  }

  lemma ConcatCons(pieces: seq<seq<byte>>)
    requires pieces != []
    ensures Concat(pieces) == pieces[0] + Concat(pieces[1..])
    ensures |pieces| == 1 ==> Concat(pieces) == pieces[0]
  {
  }

  lemma ConcatOne(p: seq<byte>)
    ensures Concat([p]) == p
  {
  }

  /** What the calls on a beginning of a stream owe the calls on all of it. */
  predicate Begins(g: CallResult, f: CallResult, m: nat) {
    if g.stop.Running? then f.consumed >= m
    else f.stop == g.stop && f.consumed == g.consumed && f.outs == g.outs && SameFields(f.saved.core, g.saved.core)
  }

  lemma CallBegins(s: Saved, data: seq<byte>, m: nat, at: nat)
    requires Inv(s.core, s.nread) && m <= |data|
    ensures Begins(Call(s, data[..m], at), Call(s, data, at), m)
  {
    hide Call, Run, Count, Allowed, Inv;
    var a, b := data[..m], data[m..];
    assert data == a + b;
    if Call(s, a, at).stop.Running? {
      CallThen(s, a, b, at);
    } else {
      StoppedCall(s, a, b, at);
    }
  }

  /** The calls on a beginning of the stream stop as the calls on all of it do, if they stop. */
  lemma {:induction false} FeedBegins(s: Saved, pieces: seq<seq<byte>>, m: nat, at: nat)
    requires Inv(s.core, s.nread) && NonEmpty(pieces) && 0 < m <= |Concat(pieces)|
    ensures Begins(Feed(s, Take(pieces, m), at), Feed(s, pieces, at), m)
    decreases |pieces|
  {
    hide Call, Feed, Inv, Concat;
    ConcatCons(pieces);
    var p, t := pieces[0], Take(pieces, m);
    FeedCons(s, pieces, at);
    FeedCons(s, t, at);
    if m <= |p| {
      CallBegins(s, p, m, at);
      FeedOne(s, p[..m], at);
      if Call(s, p, at).stop.Running? { CallConsumes(s, p, at); }
    } else if Call(s, p, at).stop.Running? {
      CallKeepsInv(s, p, at);
      FeedBegins(Call(s, p, at).saved, pieces[1..], m - |p|, at + |p|);
      assert t[1..] == Take(pieces[1..], m - |p|);
    }
  }

  lemma CallKeepsInv(s: Saved, p: seq<byte>, at: nat)
    requires Inv(s.core, s.nread) && Call(s, p, at).stop.Running?
    ensures var first := Call(s, p, at);
            && Inv(first.saved.core, first.saved.nread) && Call(s, p, 0).saved == first.saved
               && Call(s, p, 0).stop.Running?
  {
    hide Run, Count, Allowed, Inv, Call;
    FirstCall(s, p, at);
    var r, n := Run(s.core, p, at), Count(s.core, s.nread, p);
    SaveKeepsInv(r.core, n);
    RunOffset(s.core, p, at, 0);
    CallIsRun(s, p, 0);
  }

  /** What is left of a run that may be longer. */
  lemma {:induction false} AllowedCut(c: Core, n: nat, s: seq<byte>, j: nat)
    requires j <= |s| && j <= Allowed(c, n, s)
    ensures Allowed(c, n, s[..j]) == j
    decreases |s|
  {
    hide Step, CountStep;
    if j > 0 && Step(c, s[0]).stop.Running? {
      AllowedCut(Step(c, s[0]).core, CountStep(c, n, s[0]), s[1..], j - 1);
      assert s[..j][1..] == s[1..][..j - 1];
    }
  }

  /** However the rest of the stream is cut: a byte that the saved counter lets pass, and that the automaton does not
      reject by itself, does not stop the calls as the true counter does. */
  lemma HiddenOverflowShows(c: Core, n: nat, rest: seq<seq<byte>>, at: nat)
    requires Inv(c, n) && NonEmpty(rest)
    requires var R := Concat(rest);
             var k := Allowed(c, n, R);
             k < Allowed(c, n % 256, R)
             && var d := Run(c, R[..k], 0).core;
                var step := Step(d, R[k]);
                !(step.stop.Error? && step.ctl == [] && SameFields(step.core, d))
    ensures !SameRun(Feed(Saved(c, n % 256), rest, at), Call(Saved(c, n), Concat(rest), at))
  {
    hide Run, Count, Allowed, Inv, Step, Call, Feed, Concat;
    var R, s1 := Concat(rest), Saved(c, n % 256);
    var k := Allowed(c, n, R);
    SaveKeepsInv(c, n);
    RunsUpToLimit(c, n, R, at);
    RunOffset(c, R[..k], at, 0);
    var t := Take(rest, k + 1);
    AllowedCut(c, n % 256, R, k + 1);
    FeedIsRun(s1, n % 256, t, at);
    FeedBegins(s1, rest, k + 1, at);
    CallByRun(Saved(c, n), R, at, k, Run(c, R[..k], at), Count(c, n, R));
    OneMoreByte(c, R, k, at);
  }

  /** The run up to the byte behind position `k`. */
  lemma OneMoreByte(c: Core, s: seq<byte>, k: nat, at: nat)
    requires k < |s| && Run(c, s[..k], at).stop.Running? && !DeliversBody(Run(c, s[..k], at).core)
    ensures var r, r' := Run(c, s[..k], at), Run(c, s[..k + 1], at);
            var step := Step(r.core, s[k]);
            && r'.stop == step.stop && r'.core == step.core
            && (!step.stop.Running? ==> (r'.outs == r.outs <==> step.ctl == []))
  {
    hide Run, Step;
    assert s[..k + 1] == s[..k] + [s[k]];
    RunSnoc(c, s[..k], s[k], at);
    var r := Run(c, s[..k], at);
    var step, outs := Step(r.core, s[k]), StepOuts(r.core, s[k], at + k);
    if !step.stop.Running? {
      StopOuts(r.core, s[k], at + k);
      assert r.outs + outs == r.outs <==> outs == [] by { if r.outs + outs == r.outs { assert |outs| == 0; } }
    }
  }

  lemma SameRunChains(f: CallResult, g: CallResult, h: CallResult)
    requires SameRun(g, h)
    ensures SameRun(f, h) <==> SameRun(f, g)
  {
  }

  /** Any cuts, all inputs: the run differs from that of one call on the whole exactly if some cut hides an overflow of
      the header limit. */
  lemma {:induction false} CutsKeepRunIff(s: Saved, pieces: seq<seq<byte>>, at: nat)
    requires Inv(s.core, s.nread) && NonEmpty(pieces)
    ensures SameRun(Feed(s, pieces, at), Call(s, Concat(pieces), at)) <==> !CutsHideOverflow(s, pieces)
    decreases |pieces|
  {
    hide Run, Count, Allowed, Inv, Step, Call, Feed, Concat, CutHidesOverflow, SameRun;
    var p, whole := pieces[0], Call(s, Concat(pieces), at);
    ConcatCons(pieces);
    FeedCons(s, pieces, at);
    CallDead(s, Concat(pieces), at);
    if |pieces| == 1 {
      FeedOne(s, p, at);
      assert pieces == [p];
      SameResult(Feed(s, pieces, at), whole);
    } else {
      var rest, first := pieces[1..], Call(s, p, at);
      var R := Concat(rest);
      RestNonEmpty(pieces);
      CutKeepsRunIff(s, p, R, at);
      if first.stop.Running? {
        CallKeepsInv(s, p, at);
        CutsKeepRunIff(first.saved, rest, at + |p|);
        MoreCuts(s, pieces, at);
      } else {
        StoppedCall(s, p, R, at);
        StoppedAnywhere(s, p, at);
        NotHidden(s, p, R, at);
        SameResult(Feed(s, pieces, at), whole);
      }
    }
  }

  lemma StoppedAnywhere(s: Saved, p: seq<byte>, at: nat)
    requires !Call(s, p, at).stop.Running?
    ensures !Call(s, p, 0).stop.Running?
  {
    hide Run, Count, Allowed;
    var k := Allowed(s.core, s.nread, p);
    RunOffset(s.core, p[..k], at, 0);
  }

  lemma RestNonEmpty(pieces: seq<seq<byte>>)
    requires NonEmpty(pieces) && |pieces| > 1
    ensures NonEmpty(pieces[1..]) && Concat(pieces[1..]) != []
  {
    ConcatCons(pieces[1..]);
  }

  lemma SameResult(f: CallResult, g: CallResult)
    requires f.saved == g.saved && f.outs == g.outs && f.stop == g.stop && f.consumed == g.consumed
    requires g.stop.Error? ==> g.saved.core.state.Dead?
    ensures SameRun(f, g)
  {
  }

  /** The first cut either hides an overflow, which shows however the rest is cut, or it can be left out. */
  lemma MoreCuts(s: Saved, pieces: seq<seq<byte>>, at: nat)
    requires Inv(s.core, s.nread) && NonEmpty(pieces) && |pieces| > 1 && Call(s, pieces[0], at).stop.Running?
    ensures var p, rest := pieces[0], pieces[1..];
            var first, whole := Call(s, p, at), Call(s, Concat(pieces), at);
            SameRun(Feed(s, pieces, at), whole)
            <==> !CutHidesOverflow(s, p, Concat(rest))
                 && SameRun(Feed(first.saved, rest, at + |p|), Call(first.saved, Concat(rest), at + |p|))
  {
    hide Run, Count, Allowed, Inv, Step, Call, Feed, Concat;
    var p, rest, first := pieces[0], pieces[1..], Call(s, pieces[0], at);
    var R, at1 := Concat(rest), at + |p|;
    ConcatCons(pieces);
    RestNonEmpty(pieces);
    FeedCons(s, pieces, at);
    FirstCall(s, p, at);
    CallThen(s, p, R, at);
    var c, n := Run(s.core, p, at).core, Count(s.core, s.nread, p);
    RunOffset(s.core, p, at, 0);
    CallDead(Saved(c, n), R, at1);
    FollowsBoth(Feed(s, pieces, at), Call(s, p + R, at), |p|, first.outs, Feed(first.saved, rest, at1),
                Call(Saved(c, n), R, at1));
    if CutHidesOverflow(s, p, R) {
      HiddenOverflowShows(c, n, rest, at1);
    } else {
      CutKeepsRunIff(s, p, R, at);
      FeedTwo(s, p, R, at);
      FollowsBoth(Feed(s, [p, R], at), Call(s, p + R, at), |p|, first.outs, Call(first.saved, R, at1),
                  Call(Saved(c, n), R, at1));
      SameRunChains(Feed(first.saved, rest, at1), Call(first.saved, R, at1), Call(Saved(c, n), R, at1));
    }
  }

  lemma FeedTwo(s: Saved, p: seq<byte>, R: seq<byte>, at: nat)
    requires Call(s, p, at).stop.Running?
    ensures var f, first := Feed(s, [p, R], at), Call(s, p, at);
            var r := Call(first.saved, R, at + |p|);
            && f.saved == r.saved && f.outs == first.outs + r.outs && f.stop == r.stop && f.consumed == |p| + r.consumed
            && f.open == r.open
  {
    hide Call;
    FeedCons(s, [p, R], at);
    assert [p, R][1..] == [R];
    FeedOne(Call(s, p, at).saved, R, at + |p|);
  }

  // ---------------------------------------------------------------- what the callbacks are handed

  /** Any cuts, all inputs: the calls on the pieces end as one call on the whole does and hand over the same, exactly if
      no cut hides an overflow of the header limit and none goes through a slice that is open where the parser stops. */
  lemma CutsAreInvisibleIff(s: Saved, pieces: seq<seq<byte>>, at: nat)
    requires Inv(s.core, s.nread) && NonEmpty(pieces)
    ensures SameOutcome(Feed(s, pieces, at), Call(s, Concat(pieces), at), at)
            <==> !CutsHideOverflow(s, pieces) && !CutsOpenSlice(s, pieces, at)
  {
    hide Run, Inv, Call, Feed, Concat, CutsHideOverflow, CutsOpenSlice, SameOutcome, SameRun;
    CutsKeepRunIff(s, pieces, at);
    if SameRun(Feed(s, pieces, at), Call(s, Concat(pieces), at)) {
      HandedIff(s, pieces, at);
    } else if SameOutcome(Feed(s, pieces, at), Call(s, Concat(pieces), at), at) {
      HandedDecides(s, pieces, at);
    }
  }

  /** A cut taken while fewer than 256 header bytes are counted is invisible unless it goes through an open slice. */
  lemma EarlyCutIsInvisible(s: Saved, a: seq<byte>, b: seq<byte>, at: nat)
    requires Inv(s.core, s.nread) && a != [] && b != [] && Count(s.core, s.nread, a) < 256
    ensures SameOutcome(Feed(s, [a, b], at), Call(s, a + b, at), at) <==> !CutsOpenSlice(s, [a, b], at)
  {
    hide Run, Count, Inv, Call, Feed, CutsOpenSlice, SameOutcome, SameRun, CutHidesOverflow;
    assert Concat([a, b]) == a + b by { assert [a, b][1..] == [b]; ConcatOne(b); }
    EarlyCutKeepsRun(s, a, b, at);
    HandedIff(s, [a, b], at);
  }

  // ---------------------------------------------------------------- an input whose cuts matter below the limit

  const SHORT_TARGET: seq<byte> := [SLASH, 97]

  /** What the bytes of the target make observable at offset `at`. */
  function PathBytes(at: nat): seq<Out> { [Byte(Url, at), Byte(Path, at)] }

  /** The bytes of the target one by one, and a byte that no target has. */
  lemma PathSteps(d: Core, at: nat)
    requires d.state.ReqSpacesBeforeUrl?
    ensures var e := d.(state := ReqPath);
            && Step(d, SLASH) == Go(e) && StepOuts(d, SLASH, at) == PathBytes(at)
            && Step(e, 97) == Go(e) && StepOuts(e, 97, at) == PathBytes(at)
            && Step(e, 1) == Fail(e) && StepOuts(e, 1, at) == []
  {
    hide Step;
    var e := d.(state := ReqPath);
    StepCases(d, SLASH);
    StepCases(e, 97);
    StepCases(e, 1);
    assert UrlMove(d.state, SLASH) == Next(ReqPath) && UrlMove(e.state, 97) == Next(ReqPath);
    assert UrlMove(e.state, 1) == Reject;
    assert BytesAt(OpenSlices(ReqPath), at) == PathBytes(at);
  }

  /** The run over the target: both slices are marked at its first byte. */
  lemma TargetMarks(c: Core, m: seq<byte>, at: nat)
    requires Run(c, m, at).stop.Running? && Run(c, m, at).core.state.ReqSpacesBeforeUrl?
    ensures var r, d := Run(c, m + SHORT_TARGET, at), Run(c, m, at).core;
            && r.stop.Running? && r.core == d.(state := ReqPath)
            && r.outs == Run(c, m, at).outs + (PathBytes(at + |m|) + PathBytes(at + |m| + 1))
            && OpenMarks(c, m + SHORT_TARGET, at) == map[Url := at + |m|, Path := at + |m|]
  {
    hide Run, Step, StepOuts, OpenMarks, OpenSet;
    var d, at1 := Run(c, m, at).core, at + |m|;
    PathSteps(d, at1);
    PathSteps(d, at1 + 1);
    OpenSetOf(ReqPath);
    OpenSetOf(ReqSpacesBeforeUrl);
    NothingMarked(c, m, at);
    RunSnoc(c, m, SLASH, at);
    OpenMarksSnoc(c, m, SLASH, at);
    RunSnoc(c, m + [SLASH], 97, at);
    OpenMarksSnoc(c, m + [SLASH], 97, at);
    assert m + SHORT_TARGET == m + [SLASH] + [97];
    OutsAssoc(Run(c, m, at).outs, PathBytes(at1), PathBytes(at1 + 1));
  }

  lemma PathLens(at: nat)
    ensures Lens(PathBytes(at), Url) == [Byte(Url, at)] && Lens(PathBytes(at), Path) == [Byte(Path, at)]
    ensures Lens([Ctl(MessageBegin, at)], Url) == [Ctl(MessageBegin, at)] == Lens([Ctl(MessageBegin, at)], Path)
  {
    LensOne(Byte(Url, at), Url);
    LensOne(Byte(Url, at), Path);
    LensOne(Byte(Path, at), Url);
    LensOne(Byte(Path, at), Path);
    LensOne(Ctl(MessageBegin, at), Url);
    LensOne(Ctl(MessageBegin, at), Path);
    hide Lens;
    assert PathBytes(at) == [Byte(Url, at)] + [Byte(Path, at)];
    LensAppend([Byte(Url, at)], [Byte(Path, at)], Url);
    LensAppend([Byte(Url, at)], [Byte(Path, at)], Path);
  }

  /** What the two callbacks see of the observables of `GET /a`. */
  lemma ShortLens(at: nat, k: Slice)
    requires k.Url? || k.Path?
    ensures Lens([Ctl(MessageBegin, at)] + (PathBytes(at + 4) + PathBytes(at + 5)), k)
            == [Ctl(MessageBegin, at), Byte(k, at + 4), Byte(k, at + 5)]
  {
    hide Lens, PathBytes;
    PathLens(at);
    PathLens(at + 4);
    PathLens(at + 5);
    LensAppend(PathBytes(at + 4), PathBytes(at + 5), k);
    LensAppend([Ctl(MessageBegin, at)], PathBytes(at + 4) + PathBytes(at + 5), k);
  }

  /** Far below the header limit: `GET /a` and a byte that no target has, in one buffer, fire neither `on_url` nor
      `on_path`; cut before that byte, they fire both. */
  lemma OpenSliceCutMatters(s: Saved, at: nat, k: Slice)
    requires Inv(s.core, s.nread) && s.core.state.StartReq? && s.nread == 0 && (k.Url? || k.Path?)
    ensures var a, b := Name(Get) + [SP] + SHORT_TARGET, [1];
            var whole, cut := Call(s, a + b, at), Feed(s, [a, b], at);
            && whole.stop.Error? && cut.stop.Error? && whole.consumed == 6 == cut.consumed
            && Handed(whole, at, k) == [Ctl(MessageBegin, at)]
            && Handed(cut, at, k) == [Ctl(MessageBegin, at), Byte(k, at + 4), Byte(k, at + 5)]
  {
    hide Run, Step, StepOuts, OpenMarks, OpenSet, Lens, Inv, Call, Feed, Allowed, PathBytes;
    var m, b: seq<byte> := Name(Get) + [SP], [1];
    var a := m + SHORT_TARGET;
    assert m == Ascii(NameOf(Get)) + Ascii(" ") by { assert Ascii(" ") == [SP]; }
    MethodRun(s.core, Get, at);
    TargetMarks(s.core, m, at);
    ShortLens(at, k);
    var outs := [Ctl(MessageBegin, at)] + (PathBytes(at + 4) + PathBytes(at + 5));
    var d, e := Run(s.core, m, at).core, Run(s.core, a, at).core;
    PathSteps(d, at + 6);
    RunSnoc(s.core, a, 1, at);
    assert outs + [] == outs && (a + b)[..6] == a;
    ShortInputsAreAllowed(s.core, 0, a + b);
    WholeShape(s, a + b, at);
    ShortInputsAreAllowed(s.core, 0, a);
    WholeShape(s, a, at);
    var first := Call(s, a, at);
    CallContinues(s, a, at);
    FeedTwo(s, a, b, at);
    RunningCall(s, a, at);
    ShortInputsAreAllowed(e, first.saved.nread, b);
    RunOne(e, 1, at + 6);
    WholeShape(first.saved, b, at + 6);
    assert b[..0] == [];
    RunNil(e, at + 6, Run(e, [], at + 6));
    OpenMarksRange(e, [], at + 6);
    NoneMarked(OpenMarks(e, [], at + 6), k, at + 6);
  }

  lemma NoneMarked(marks: Marks, k: Slice, at: nat)
    requires k in marks ==> marks[k] == at
    ensures Pending(marks, k, at) == []
  {
  }

  /** A call within the header limit that stops. */
  lemma WholeShape(s: Saved, data: seq<byte>, at: nat)
    requires Allowed(s.core, s.nread, data) == |data|
    ensures var f, r := Call(s, data, at), Run(s.core, data, at);
            && f.stop == r.stop && f.consumed == r.consumed && f.outs == r.outs
            && (!r.stop.Running? ==> f.open == OpenMarks(s.core, data[..r.consumed], at))
  {
    hide Run, Allowed, Count, OpenMarks;
    assert data[..|data|] == data;
  }
}
