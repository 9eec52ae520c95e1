/** Cutting a stream: the guarantee on the imperative parser, and exactly when the header limit spoils it. */
module HttpSplit {
  import opened HttpChars
  import opened HttpAutomaton
  import opened HttpRun
  import opened HttpShape
  import opened HttpInvariant
  import opened HttpLog
  import opened HttpProgress
  import opened HttpCalls
  import opened HttpMarks
  import opened HttpHanded
  import opened HttpLogGrammar
  import opened HttpParserClass

  ghost function Contents(pieces: seq<array<byte>>): seq<seq<byte>>
    reads pieces
  {
    if pieces == [] then [] else [pieces[0][..]] + Contents(pieces[1..])
  }

  /** What consecutive calls hand over. */
  lemma HandedCompose(l0: seq<Event>, l1: seq<Event>, l2: seq<Event>, first: CallResult, rest: CallResult,
                      f: CallResult, at: nat)
    requires first.open == map[] && HandedOver(l0, l1, first, at)
    requires HandedOver(l1, l2, rest, at + first.consumed)
    requires f.outs == first.outs + rest.outs && f.consumed == first.consumed + rest.consumed && f.open == rest.open
    requires forall k: Slice :: |Pending(rest.open, k, at + f.consumed)| <= |Lens(rest.outs, k)|
    ensures HandedOver(l0, l2, f, at)
  {
    hide LogLens, Lens;
    forall k: Slice ensures LogLens(l2, k) == LogLens(l0, k) + Handed(f, at, k) {
      LensAppend(first.outs, rest.outs, k);
      var a, b, marked := Lens(first.outs, k), Lens(rest.outs, k), Pending(rest.open, k, at + f.consumed);
      var n := |b| - |marked|;
      assert (a + b)[..|a + b| - |marked|] == a + b[..n];
      OutsAssoc(LogLens(l0, k), a, b[..n]);
    }
  }

  /** The bytes that are marked when the calls stop are among the observables. */
  lemma {:induction false} MarkedFitAll(s: Saved, pieces: seq<seq<byte>>, at: nat, k: Slice)
    requires Inv(s.core, s.nread)
    ensures var f := Feed(s, pieces, at); |Pending(f.open, k, at + f.consumed)| <= |Lens(f.outs, k)|
    decreases |pieces|
  {
    hide Call, Inv, Lens, Feed, Pending, Run;
    if pieces == [] {
      NothingFed(s, at);
      NoPending(map[], k, at);
    } else {
      var p, first := pieces[0], Call(s, pieces[0], at);
      FeedCons(s, pieces, at);
      MarkedFit(s, p, at, k);
      if first.stop.Running? {
        CallContinues(s, p, at);
        MarkedFitAll(first.saved, pieces[1..], at + |p|, k);
        LensAppend(first.outs, Feed(first.saved, pieces[1..], at + |p|).outs, k);
      }
    }
  }

  lemma NothingFed(s: Saved, at: nat)
    ensures Feed(s, [], at) == CallResult(s, [], 0, Running, map[])
  {
  }

  /** The calls on consecutive buffers, up to the first one that stops. */
  method FeedAll(parser: HttpParser, pieces: seq<array<byte>>, base: nat) returns (total: nat, stop: Stop)
    requires parser.Valid() && forall i :: 0 <= i < |pieces| ==> pieces[i].Length > 0
    modifies parser
    ensures var r := Feed(old(parser.View()), old(Contents(pieces)), base);
            && parser.View() == r.saved && total == r.consumed && stop == r.stop
            && HandedOver(old(parser.log), parser.log, r, base)
    ensures GrowsInOrder(old(parser.View()).core, old(parser.log), parser.log, parser.View().core, stop.Running?)
    ensures !stop.AssertFailed?
    decreases |pieces|
  {
    hide Call, HandedOver, GrowsInOrder, Inv, Feed, Pending, Lens, Run;
    if pieces == [] {
      NothingFed(parser.View(), base);
      LogUnchanged(parser.View(), parser.log, base);
      GrowsByNothing(parser.View().core, parser.log);
      return 0, Running;
    }
    ghost var log0 := parser.log;
    ghost var all := Contents(pieces);
    assert all[0] == pieces[0][..] && all[1..] == Contents(pieces[1..]);
    total, stop := parser.Execute(pieces[0], base);
    FeedCons(old(parser.View()), all, base);
    if stop == Running {
      ghost var log1, first := parser.log, Call(old(parser.View()), all[0], base);
      assert Contents(pieces[1..]) == all[1..];
      var more;
      more, stop := FeedAll(parser, pieces[1..], base + pieces[0].Length);
      ghost var rest := Feed(first.saved, all[1..], base + |all[0]|);
      CallContinues(old(parser.View()), all[0], base);
      total := total + more;
      forall k: Slice ensures |Pending(rest.open, k, base + total)| <= |Lens(rest.outs, k)| {
        MarkedFitAll(first.saved, all[1..], base + |all[0]|, k);
      }
      GrowsThen(old(parser.View()).core, log0, log1, first.saved.core, parser.log, parser.View().core, stop.Running?);
      HandedCompose(log0, log1, parser.log, first, rest, Feed(old(parser.View()), all, base), base);
    }
  }

  lemma LogUnchanged(s: Saved, log: seq<Event>, at: nat)
    ensures HandedOver(log, log, CallResult(s, [], 0, Running, map[]), at)
  {
    forall k: Slice ensures Lens([], k) == [] { LensEmpty(k); }
  }

  lemma CallConsumes(s: Saved, data: seq<byte>, at: nat)
    requires Call(s, data, at).stop.Running?
    ensures Call(s, data, at).consumed == |data|
  {
    hide Run, Count, Allowed;
  }

  /** Two parsers in the same condition, one fed a stream in pieces and one fed all of it at once, end in the
      same condition with the same callbacks, each data callback having seen the same bytes, unless a cut goes through
      a slice that is open where they stop. */
  method CompareCuts(p: HttpParser, q: HttpParser, pieces: seq<array<byte>>, whole: array<byte>, base: nat)
    returns (total: nat, stop: Stop, ret: nat, stop': Stop)
    requires p != q && p.Valid() && p.View() == q.View() && p.log == q.log
    requires pieces != [] && forall i :: 0 <= i < |pieces| ==> pieces[i].Length > 0
    requires whole[..] == Concat(Contents(pieces))
    requires Allowed(p.View().core, p.nread, whole[..]) == whole.Length
    modifies p, q
    ensures total == ret && stop == stop'
    ensures stop.Running? ==> p.View() == q.View()
    ensures SameFields(p.View().core, q.View().core)
    ensures (forall k: Slice :: LogLens(p.log, k) == LogLens(q.log, k))
            <==> !CutsOpenSlice(old(p.View()), old(Contents(pieces)), base)
    ensures stop.Running? ==> !CutsOpenSlice(old(p.View()), old(Contents(pieces)), base)
  {
    hide Call, Feed, Inv, Allowed, LogLens, Lens, Concat, Handed, CutsOpenSlice;
    ghost var s, all, log0 := p.View(), Contents(pieces), p.log;
    ContentsNonEmpty(pieces);
    SplitInvariance(s, all, base);
    total, stop := FeedAll(p, pieces, base);
    WholeNonEmpty(all);
    ret, stop' := q.Execute(whole, base);
    SameLogs(log0, p.log, q.log, Feed(s, all, base), Call(s, Concat(all), base), base);
  }

  lemma SameLogs(log0: seq<Event>, p: seq<Event>, q: seq<Event>, f: CallResult, g: CallResult, at: nat)
    requires HandedOver(log0, p, f, at) && HandedOver(log0, q, g, at) && SameEnd(f, g)
    ensures (forall k: Slice :: LogLens(p, k) == LogLens(q, k)) <==> SameOutcome(f, g, at)
  {
    hide LogLens, Handed, SameEnd;
    forall k: Slice ensures LogLens(p, k) == LogLens(q, k) <==> Handed(f, at, k) == Handed(g, at, k) {
      PrefixEqual(LogLens(log0, k), Handed(f, at, k), Handed(g, at, k));
    }
    if SameOutcome(f, g, at) {
      assert forall k: Slice :: LogLens(p, k) == LogLens(q, k);
    } else {
      var k: Slice :| Handed(f, at, k) != Handed(g, at, k);
      assert LogLens(p, k) != LogLens(q, k);
    }
  }

  lemma ContentsNonEmpty(pieces: seq<array<byte>>)
    requires forall i :: 0 <= i < |pieces| ==> pieces[i].Length > 0
    ensures |Contents(pieces)| == |pieces|
    ensures forall i :: 0 <= i < |pieces| ==> Contents(pieces)[i] != []
    decreases |pieces|
  {
    if pieces != [] {
      ContentsNonEmpty(pieces[1..]);
    }
  }

  lemma WholeNonEmpty(all: seq<seq<byte>>)
    requires all != [] && all[0] != []
    ensures Concat(all) != []
  {
  }

  // ---------------------------------------------------------------- the header limit

  /** Whether a cut after `a` hides from the parser that `a + b` exceeds the header limit: the true count `n`
      at the cut reaches the limit at a byte of `b` which the saved count modulo 256 lets pass, and which the
      automaton does not reject by itself. */
  predicate CutHidesOverflow(s: Saved, a: seq<byte>, b: seq<byte>) {
    var r := Run(s.core, a, 0);
    var n := Count(s.core, s.nread, a);
    && Allowed(s.core, s.nread, a) == |a| && r.stop.Running?
    && var k := Allowed(r.core, n, b);
    && k < Allowed(r.core, n % 256, b)
    && var c := Run(r.core, b[..k], 0).core;
    && var step := Step(c, b[k]);
    && !(step.stop.Error? && step.ctl == [] && SameFields(step.core, c))
  }

  /** Where the limit strikes, the run up to there has not stopped. */
  lemma {:induction false} RunsUpToLimit(c: Core, n: nat, s: seq<byte>, at: nat)
    requires Allowed(c, n, s) < |s|
    ensures Run(c, s[..Allowed(c, n, s)], at).stop.Running?
    ensures var d := Run(c, s[..Allowed(c, n, s)], at).core; ParsingHeader(d.state) && !DeliversBody(d)
    decreases |s|
  {
    hide Step, StepOuts, CountStep;
    var k := Allowed(c, n, s);
    if ParsingHeader(c.state) && n + 1 > MAX_HEADER_SIZE {
      assert s[..0] == [];
    } else {
      RunsUpToLimit(Step(c, s[0]).core, CountStep(c, n, s[0]), s[1..], at + 1);
      assert s[..k][1..] == s[1..][..k - 1];
    }
  }

  lemma {:induction false} AllowedStuck(c: Core, n: nat, s: seq<byte>, t: seq<byte>)
    requires Allowed(c, n, s) < |s|
    ensures Allowed(c, n, s + t) == Allowed(c, n, s)
    decreases |s|
  {
    hide Step, CountStep;
    assert (s + t)[1..] == s[1..] + t;
    if !(ParsingHeader(c.state) && n + 1 > MAX_HEADER_SIZE) {
      AllowedStuck(Step(c, s[0]).core, CountStep(c, n, s[0]), s[1..], t);
    }
  }

  lemma {:induction false} AllowedStopped(c: Core, n: nat, s: seq<byte>, t: seq<byte>)
    requires Allowed(c, n, s) == |s| && !Run(c, s, 0).stop.Running?
    ensures Allowed(c, n, s + t) == |s + t|
    decreases |s|
  {
    hide Step, CountStep, StepOuts;
    assert (s + t)[1..] == s[1..] + t;
    if Step(c, s[0]).stop.Running? {
      RunOffset(Step(c, s[0]).core, s[1..], 1, 0);
      AllowedStopped(Step(c, s[0]).core, CountStep(c, n, s[0]), s[1..], t);
    }
  }

  /** A call that stops is not changed by what follows its buffer. */
  lemma StoppedCall(s: Saved, a: seq<byte>, b: seq<byte>, at: nat)
    requires !Call(s, a, at).stop.Running?
    ensures Call(s, a + b, at) == Call(s, a, at)
  {
    hide Run, Count, Allowed, OpenMarks;
    var k, m := Allowed(s.core, s.nread, a), Call(s, a, at).consumed;
    assert (a + b)[..m] == a[..m];
    if k < |a| {
      AllowedStuck(s.core, s.nread, a, b);
      assert (a + b)[..k] == a[..k];
    } else {
      assert a[..k] == a;
      RunOffset(s.core, a, at, 0);
      AllowedStopped(s.core, s.nread, a, b);
      RunAppend(s.core, a, b, at);
      assert (a + b)[..|a + b|] == a + b;
    }
  }

  /** The first of two calls. */
  lemma FirstCall(s: Saved, a: seq<byte>, at: nat)
    requires Inv(s.core, s.nread) && Call(s, a, at).stop.Running?
    ensures var r, n := Run(s.core, a, at), Count(s.core, s.nread, a);
            var first := Call(s, a, at);
            && r.stop.Running? && first.saved == Saved(r.core, n % 256) && first.outs == r.outs && first.consumed == |a|
            && Allowed(s.core, s.nread, a) == |a| && Inv(r.core, n)
  {
    hide Run, Count, Allowed, Inv, Call;
    RunningCall(s, a, at);
    RunKeepsInv(s.core, s.nread, a, at);
    SaveKeepsInv(Run(s.core, a, at).core, Count(s.core, s.nread, a));
  }

  /** What the outcome of the whole owes the outcome of its second part. */
  predicate Follows(whole: CallResult, skipped: nat, outs: seq<Out>, rest: CallResult) {
    && whole.stop == rest.stop && whole.consumed == skipped + rest.consumed && whole.outs == outs + rest.outs
    && SameFields(whole.saved.core, rest.saved.core)
    && (whole.stop.Running? ==> whole.saved == rest.saved)
    && (whole.stop.Error? ==> whole.saved.core.state.Dead?)
  }

  /** A call on `a + b` whose first part does not stop. */
  lemma CallThen(s: Saved, a: seq<byte>, b: seq<byte>, at: nat)
    requires Inv(s.core, s.nread) && Call(s, a, at).stop.Running?
    ensures var r, n := Run(s.core, a, at), Count(s.core, s.nread, a);
            Follows(Call(s, a + b, at), |a|, r.outs, Call(Saved(r.core, n), b, at + |a|))
  {
    hide Run, Count, Allowed, Inv, Call;
    FirstCall(s, a, at);
    var r, n := Run(s.core, a, at), Count(s.core, s.nread, a);
    RunOffset(s.core, a, at, 0);
    AllowedAppend(s.core, s.nread, a, b);
    CountAppend(s.core, s.nread, a, b);
    var k := Allowed(r.core, n, b);
    assert (a + b)[..|a| + k] == a + b[..k];
    RunAppend(s.core, a, b[..k], at);
    CallByRun(s, a + b, at, |a| + k, Then(r, Run(r.core, b[..k], at + |a|)), Count(r.core, n, b));
    CallByRun(Saved(r.core, n), b, at + |a|, k, Run(r.core, b[..k], at + |a|), Count(r.core, n, b));
    ThenParts(r, Run(r.core, b[..k], at + |a|));
  }

  /** A call in terms of its run. */
  lemma CallByRun(s: Saved, data: seq<byte>, at: nat, k: nat, r: RunResult, n: nat)
    requires k == Allowed(s.core, s.nread, data) && r == Run(s.core, data[..k], at)
    requires n == Count(s.core, s.nread, data)
    ensures var f := Call(s, data, at);
            if !r.stop.Running? then
              f.stop == r.stop && f.consumed == r.consumed && f.outs == r.outs && SameFields(f.saved.core, r.core)
              && (f.stop.Error? ==> f.saved.core.state.Dead?)
            else if k < |data| then
              f.stop.Error? && f.consumed == k && f.outs == r.outs && SameFields(f.saved.core, r.core)
              && f.saved.core.state.Dead?
            else
              f == CallResult(Saved(r.core.(index := r.core.index % 256), n % 256), r.outs, |data|, Running, map[])
  {
    hide Run, Count, Allowed, Inv;
  }

  /** The second call with the true count and with the saved one, when the limit strikes at the same byte. */
  lemma SameLimit(c: Core, n: nat, b: seq<byte>, at: nat)
    requires Inv(c, n) && Allowed(c, n, b) == Allowed(c, n % 256, b)
    ensures SameRun(Call(Saved(c, n % 256), b, at), Call(Saved(c, n), b, at))
  {
    hide Run, Count, Allowed, Inv;
    CountModulo(c, n, n % 256, b);
  }

  /** The same when the saved count lets the byte pass that the true count stops at. */
  lemma LaterLimit(c: Core, n: nat, b: seq<byte>, at: nat)
    requires Inv(c, n) && Allowed(c, n, b) < Allowed(c, n % 256, b)
    ensures var k := Allowed(c, n, b);
            var d := Run(c, b[..k], at).core;
            var step := Step(d, b[k]);
            SameRun(Call(Saved(c, n % 256), b, at), Call(Saved(c, n), b, at))
            <==> step.stop.Error? && step.ctl == [] && SameFields(step.core, d)
  {
    hide Run, Count, Allowed, Inv, Step;
    var k, k' := Allowed(c, n, b), Allowed(c, n % 256, b);
    RunsUpToLimit(c, n, b, at);
    var r := Run(c, b[..k], at);
    assert b[..k + 1] == b[..k] + [b[k]];
    RunSnoc(c, b[..k], b[k], at);
    assert b[..k'] == b[..k + 1] + b[k + 1..k'];
    RunAppend(c, b[..k + 1], b[k + 1..k'], at);
    var step, outs := Step(r.core, b[k]), StepOuts(r.core, b[k], at + k);
    if step.stop.Running? {
      ThenParts(Run(c, b[..k + 1], at), Run(step.core, b[k + 1..k'], at + k + 1));
    } else {
      assert outs == CtlAt(step.ctl, at + k) by { StopOuts(r.core, b[k], at + k); }
      assert r.outs + outs == r.outs <==> outs == [] by { if r.outs + outs == r.outs { assert |outs| == 0; } }
      assert r.outs + [] == r.outs;
    }
  }

  lemma StopOuts(c: Core, ch: byte, at: nat)
    requires !Step(c, ch).stop.Running? && !DeliversBody(c)
    ensures StepOuts(c, ch, at) == CtlAt(Step(c, ch).ctl, at)
  {
    hide Step;
  }

  /** One cut, all inputs: the run differs from that of the uncut call exactly if the cut hides an overflow of the
      header limit. */
  lemma CutKeepsRunIff(s: Saved, a: seq<byte>, b: seq<byte>, at: nat)
    requires Inv(s.core, s.nread) && a != [] && b != []
    ensures SameRun(Feed(s, [a, b], at), Call(s, a + b, at)) <==> !CutHidesOverflow(s, a, b)
  {
    hide Run, Count, Allowed, Inv, Step, Call;
    var first := Call(s, a, at);
    assert [a, b][1..] == [b];
    if first.stop.Running? {
      FirstCall(s, a, at);
      CallThen(s, a, b, at);
      var c, n := Run(s.core, a, at).core, Count(s.core, s.nread, a);
      RunOffset(s.core, a, at, 0);
      var second := Call(first.saved, b, at + |a|);
      FeedOne(first.saved, b, at + |a|);
      AllowedMonotone(c, n, n % 256, b);
      CallDead(Saved(c, n), b, at + |a|);
      FollowsBoth(Feed(s, [a, b], at), Call(s, a + b, at), |a|, first.outs, second, Call(Saved(c, n), b, at + |a|));
      if Allowed(c, n, b) == Allowed(c, n % 256, b) {
        SameLimit(c, n, b, at + |a|);
      } else {
        LaterLimit(c, n, b, at + |a|);
        RunOffset(c, b[..Allowed(c, n, b)], at + |a|, 0);
        CallDead(Saved(c, n % 256), b, at + |a|);
      }
    } else {
      StoppedCall(s, a, b, at);
      CallDead(s, a, at);
      NotHidden(s, a, b, at);
    }
  }

  lemma FeedOne(s: Saved, b: seq<byte>, at: nat)
    ensures Feed(s, [b], at) == Call(s, b, at)
  {
    hide Call;
    FeedCons(s, [b], at);
    assert [b][1..] == [];
    if Call(s, b, at).stop.Running? {
      RunningCall(s, b, at);
      assert Call(s, b, at).outs + [] == Call(s, b, at).outs;
    }
  }

  /** Two outcomes agree if what follows the same first part does. */
  lemma FollowsBoth(f: CallResult, g: CallResult, skipped: nat, outs: seq<Out>, f': CallResult, g': CallResult)
    requires f.stop == f'.stop && f.consumed == skipped + f'.consumed && f.outs == outs + f'.outs && f.saved == f'.saved
    requires Follows(g, skipped, outs, g')
    requires g'.stop.Error? ==> g'.saved.core.state.Dead?
    ensures SameRun(f, g) <==> SameRun(f', g')
  {
    PrefixEqual(outs, f'.outs, g'.outs);
  }

  lemma PrefixEqual(a: seq<Out>, b: seq<Out>, c: seq<Out>)
    ensures a + b == a + c <==> b == c
  {
    if a + b == a + c {
      assert b == (a + b)[|a|..] && c == (a + c)[|a|..];
    }
  }

  lemma CallDead(s: Saved, a: seq<byte>, at: nat)
    ensures Call(s, a, at).stop.Error? ==> Call(s, a, at).saved.core.state.Dead?
  {
    hide Run, Count, Allowed;
  }

  lemma NotHidden(s: Saved, a: seq<byte>, b: seq<byte>, at: nat)
    requires !Call(s, a, at).stop.Running?
    ensures !CutHidesOverflow(s, a, b)
  {
    hide Run, Count, Allowed, Step;
    assert a[..|a|] == a;
    RunOffset(s.core, a, at, 0);
  }

  /** A cut taken while fewer than 256 header bytes are counted hides nothing, whatever follows. */
  lemma EarlyCutKeepsRun(s: Saved, a: seq<byte>, b: seq<byte>, at: nat)
    requires Inv(s.core, s.nread) && a != [] && b != [] && Count(s.core, s.nread, a) < 256
    ensures SameRun(Feed(s, [a, b], at), Call(s, a + b, at))
  {
    hide Run, Count, Allowed, Inv, Step, Call, Feed;
    CutKeepsRunIff(s, a, b, at);
  }

  // ---------------------------------------------------------------- an input whose cuts matter

  function Returns(k: nat): (s: seq<byte>)
    ensures |s| == k
  {
    seq(k, i => CR)
  }

  /** Line breaks before a request are skipped but counted. */
  lemma {:induction false} SkipReturns(c: Core, n: nat, k: nat, at: nat)
    requires c.state.StartReq?
    ensures Run(c, Returns(k), at) == RunResult(c, [], k, Running)
    ensures Count(c, n, Returns(k)) == n + k
    ensures n + k <= MAX_HEADER_SIZE ==> Allowed(c, n, Returns(k)) == k
    ensures n <= MAX_HEADER_SIZE < n + k ==> Allowed(c, n, Returns(k)) == MAX_HEADER_SIZE - n
    decreases k
  {
    hide Step;
    if k > 0 {
      StepCases(c, CR);
      assert Returns(k)[0] == CR && Returns(k)[1..] == Returns(k - 1);
      assert Step(c, CR) == Go(c) && StepOuts(c, CR, at) == [];
      SkipReturns(c, n + 1, k - 1, at + 1);
    }
  }

  /** A fresh request parser rejects 81921 carriage returns in one buffer, and takes them in two. */
  lemma CutsCanMatter(s: Saved)
    requires Inv(s.core, s.nread) && s.core.state.StartReq? && s.nread == 0
    ensures var whole := Call(s, Returns(81920) + [13], 0);
            whole.stop.Error? && whole.consumed == 81920
    ensures Feed(s, [Returns(81920), [13]], 0).stop.Running?
  {
    hide Run, Count, Allowed, Inv;
    assert MAX_HEADER_SIZE == 81920;
    var a, k := Returns(81920), 81920;
    assert a + [CR] == Returns(k + 1) && (a + [CR])[..k] == a && a[..k] == a;
    SkipReturns(s.core, 0, k, 0);
    SkipReturns(s.core, 0, k + 1, 0);
    assert Inv(s.core, 0);
    SaveKeepsInv(s.core, 0);
    assert [CR] == Returns(1) && [CR][..1] == [CR];
    SkipReturns(s.core, 0, 1, k);
    assert [a, [CR]][1..] == [[CR]];
    FeedOne(Saved(s.core, 0), [CR], k);
  }
}
