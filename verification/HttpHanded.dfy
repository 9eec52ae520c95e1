/** What the callbacks are handed when the stream comes in pieces: a call that stops drops the slices that are open, so
    a cut inside such a slice saves the bytes before it. */
module HttpHanded {
  import opened HttpChars
  import opened HttpAutomaton
  import opened HttpRun
  import opened HttpInvariant
  import opened HttpLog
  import opened HttpMarks
  import opened HttpCalls

  predicate NonEmpty(pieces: seq<seq<byte>>) {
    pieces != [] && forall i :: 0 <= i < |pieces| ==> pieces[i] != []
  }

  /** Where the piece starts that holds position `i` of the stream. */
  function PieceStart(pieces: seq<seq<byte>>, i: nat): (p: nat)
    ensures p <= i
  {
    if pieces == [] || i < |pieces[0]| then 0 else |pieces[0]| + PieceStart(pieces[1..], i - |pieces[0]|)
  }

  /** The call on the whole stops inside a slice, and the piece it stops in starts behind the start of that slice. */
  predicate CutsOpenSlice(s: Saved, pieces: seq<seq<byte>>, at: nat) {
    var whole := Call(s, Concat(pieces), at);
    exists k :: k in whole.open && whole.open[k] < at + PieceStart(pieces, whole.consumed)
  }

  // ---------------------------------------------------------------- one call

  /** What a run that has read `s` up to position `m` has made observable: with what the byte there fires if that byte
      was still looked at, which the header limit prevents. */
  predicate StopsAt(outs: seq<Out>, c: Core, s: seq<byte>, at: nat, m: nat)
    requires m < |s|
  {
    var r := Run(c, s[..m], at);
    && r.stop.Running?
    && (outs == r.outs
        || (!Step(r.core, s[m]).stop.Running? && outs == r.outs + StepOuts(r.core, s[m], at + m)))
  }

  /** What a call or a sequence of calls on `s` amounts to, from the fields `core` on; `p` is where its last call
      starts. */
  predicate Shape(f: CallResult, core: Core, s: seq<byte>, at: nat, p: nat) {
    var m := f.consumed;
    && p <= m <= |s| && Run(core, s[..p], at).stop.Running? && Run(core, s[..m], at).stop.Running?
    && if f.stop.Running? then m == |s| && f.outs == Run(core, s, at).outs && f.open == map[]
       else m < |s| && StopsAt(f.outs, core, s, at, m)
            && f.open == OpenMarks(Run(core, s[..p], at).core, s[p..m], at + p)
  }

  lemma CallShape(s: Saved, data: seq<byte>, at: nat)
    requires Inv(s.core, s.nread)
    ensures Shape(Call(s, data, at), s.core, data, at, 0)
  {
    hide Run, Count, Inv, OpenMarks, Allowed, Step, StepOuts;
    var k := Allowed(s.core, s.nread, data);
    var r, m := Run(s.core, data[..k], at), Call(s, data, at).consumed;
    assert data[..0] == [] && data[0..m] == data[..m];
    RunNil(s.core, at, r);
    if !r.stop.Running? {
      RunStopsWithin(s.core, data[..k], at);
      assert data[..k][..m] == data[..m] && data[..k][..m + 1] == data[..m] + [data[m]];
      RunSnoc(s.core, data[..m], data[m], at);
    } else if k == |data| {
      assert data[..k] == data;
    }
  }

  /** The marked bytes of a call are among its observables. */
  lemma MarkedFit(s: Saved, data: seq<byte>, at: nat, k: Slice)
    requires Inv(s.core, s.nread)
    ensures var f := Call(s, data, at); |Pending(f.open, k, at + f.consumed)| <= |Lens(f.outs, k)|
  {
    hide Run, Step, Inv, OpenMarks, Call, Lens, OpenSet;
    CallShape(s, data, at);
    var f := Call(s, data, at);
    var m := f.consumed;
    if !f.stop.Running? {
      assert data[0..m] == data[..m] && data[..0] == [];
      RunNil(s.core, at, Run(s.core, [], at));
      PendingFits(s.core, data[..m], at, k);
      LensAppend(Run(s.core, data[..m], at).outs, StepOuts(Run(s.core, data[..m], at).core, data[m], at + m), k);
    }
  }

  // ---------------------------------------------------------------- a sequence of calls

  /** A run put behind the run over the first piece. */
  lemma ShapeThen(first: CallResult, core: Core, p: seq<byte>, s: seq<byte>, at: nat, rest: CallResult, start: nat,
                  f: CallResult)
    requires Run(core, p, at).stop.Running? && first.outs == Run(core, p, at).outs
    requires Shape(rest, Run(core, p, at).core, s, at + |p|, start)
    requires f.stop == rest.stop && f.consumed == |p| + rest.consumed && f.outs == first.outs + rest.outs
    requires f.open == rest.open
    ensures Shape(f, core, p + s, at, |p| + start)
  {
    hide Run, OpenMarks, Step, StepOuts;
    var m, d, at1 := rest.consumed, Run(core, p, at).core, at + |p|;
    assert (p + s)[..|p| + start] == p + s[..start] && (p + s)[..|p| + m] == p + s[..m];
    assert (p + s)[|p| + start..|p| + m] == s[start..m];
    RunAppend(core, p, s[..start], at);
    RunAppend(core, p, s[..m], at);
    RunAppend(core, p, s, at);
    ThenParts(Run(core, p, at), Run(d, s[..start], at1));
    ThenParts(Run(core, p, at), Run(d, s[..m], at1));
    ThenParts(Run(core, p, at), Run(d, s, at1));
    if !f.stop.Running? {
      var r := Run(d, s[..m], at1);
      OutsAssoc(first.outs, r.outs, StepOuts(r.core, s[m], at1 + m));
    }
  }

  /** What follows the buffer of a call that stops does not matter. */
  lemma ShapeWithin(f: CallResult, core: Core, s: seq<byte>, more: seq<byte>, at: nat, p: nat)
    requires Shape(f, core, s, at, p) && !f.stop.Running?
    ensures Shape(f, core, s + more, at, p)
  {
    hide Run, OpenMarks, Step, StepOuts;
    var m := f.consumed;
    assert (s + more)[..p] == s[..p] && (s + more)[..m] == s[..m] && (s + more)[p..m] == s[p..m];
  }

  lemma FeedCons(s: Saved, pieces: seq<seq<byte>>, at: nat)
    requires pieces != []
    ensures var r, f := Call(s, pieces[0], at), Feed(s, pieces, at);
            if !r.stop.Running? then f == r
            else
              var rest := Feed(r.saved, pieces[1..], at + |pieces[0]|);
              f == CallResult(rest.saved, r.outs + rest.outs, |pieces[0]| + rest.consumed, rest.stop, rest.open)
  {
    hide Call;
  }

  /** The start of the last call: 0 if no call stops. */
  function LastStart(pieces: seq<seq<byte>>, f: CallResult): nat {
    if f.stop.Running? then 0 else PieceStart(pieces, f.consumed)
  }

  lemma ShapeOfRun(f: CallResult, core: Core, s: seq<byte>, at: nat, p: nat)
    requires Shape(f, core, s, at, p) && f.stop.Running?
    ensures Shape(f, core, s, at, 0)
  {
    hide Run;
    assert s[..0] == [];
    RunNil(core, at, Run(core, [], at));
  }

  lemma {:induction false} FeedShape(s: Saved, pieces: seq<seq<byte>>, at: nat)
    requires Inv(s.core, s.nread) && forall i :: 0 <= i < |pieces| ==> pieces[i] != []
    ensures var f := Feed(s, pieces, at); Shape(f, s.core, Concat(pieces), at, LastStart(pieces, f))
    decreases |pieces|
  {
    hide Run, Call, Inv, Shape;
    if pieces == [] {
      EmptyShape(s, at);
    } else {
      var p, first, f := pieces[0], Call(s, pieces[0], at), Feed(s, pieces, at);
      CallShape(s, p, at);
      if first.stop.Running? {
        CallContinues(s, p, at);
        FeedShape(first.saved, pieces[1..], at + |p|);
        var rest := Feed(first.saved, pieces[1..], at + |p|);
        ShapeThen(first, s.core, p, Concat(pieces[1..]), at, rest, LastStart(pieces[1..], rest), f);
        if f.stop.Running? { ShapeOfRun(f, s.core, Concat(pieces), at, |p| + LastStart(pieces[1..], rest)); }
      } else {
        ShapeWithin(first, s.core, p, Concat(pieces[1..]), at, 0);
        StopsInside(first, s.core, p, at, 0);
      }
    }
  }

  lemma EmptyShape(s: Saved, at: nat)
    ensures Shape(CallResult(s, [], 0, Running, map[]), s.core, [], at, 0)
  {
    RunNil(s.core, at, Run(s.core, [], at));
  }

  lemma StopsInside(f: CallResult, core: Core, s: seq<byte>, at: nat, p: nat)
    requires Shape(f, core, s, at, p) && !f.stop.Running?
    ensures f.consumed < |s|
  {
  }

  /** A call that can go on has read its buffer and left a valid parser. */
  lemma CallContinues(s: Saved, p: seq<byte>, at: nat)
    requires Inv(s.core, s.nread) && Call(s, p, at).stop.Running?
    ensures var first, r := Call(s, p, at), Run(s.core, p, at);
            && r.stop.Running? && first.outs == r.outs && first.consumed == |p| && first.open == map[]
            && first.saved.core == r.core && Inv(first.saved.core, first.saved.nread)
  {
    hide Run, Count, Allowed, Inv, Call;
    RunningCall(s, p, at);
    RunKeepsInv(s.core, s.nread, p, at);
    SaveKeepsInv(Run(s.core, p, at).core, Count(s.core, s.nread, p));
  }

  lemma RunningCall(s: Saved, p: seq<byte>, at: nat)
    requires Call(s, p, at).stop.Running?
    ensures var r := Run(s.core, p, at);
            && r.stop.Running? && Allowed(s.core, s.nread, p) == |p|
            && Call(s, p, at)
               == CallResult(Saved(r.core.(index := r.core.index % 256), Count(s.core, s.nread, p) % 256),
                                            r.outs, |p|, Running, map[])
  {
    hide Run, Count, Allowed, Inv, OpenMarks, Abandon;
    assert p[..|p|] == p;
  }

  // ---------------------------------------------------------------- what the callbacks are handed

  /** The marks where the pieces stop: a slice that a cut goes through is marked from that cut on. */
  lemma MarksOfFeed(s: Saved, pieces: seq<seq<byte>>, at: nat)
    requires Inv(s.core, s.nread) && forall i :: 0 <= i < |pieces| ==> pieces[i] != []
    requires SameEnd(Feed(s, pieces, at), Call(s, Concat(pieces), at))
    ensures var f, g := Feed(s, pieces, at), Call(s, Concat(pieces), at);
            var start := at + PieceStart(pieces, g.consumed);
            && f.open.Keys == g.open.Keys
            && (forall k :: k in g.open ==> f.open[k] == (if g.open[k] < start then start else g.open[k]))
            && start <= at + g.consumed && forall k :: k in g.open ==> g.open[k] <= at + g.consumed
  {
    hide Run, Call, Feed, Inv, OpenMarks, Concat, SameFields, StopsAt, OpenSet;
    var S := Concat(pieces);
    var f, g := Feed(s, pieces, at), Call(s, S, at);
    FeedShape(s, pieces, at);
    CallShape(s, S, at);
    if !g.stop.Running? {
      var m, p := g.consumed, PieceStart(pieces, g.consumed);
      assert S[..p] + S[p..m] == S[..m] && S[0..m] == S[..m] && S[..0] == [];
      RunNil(s.core, at, Run(s.core, [], at));
      MarksBehindCut(s.core, S[..p], S[p..m], at);
      OpenMarksRange(s.core, S[..m], at);
    }
  }

  /** What is handed over decides what has been observable, given where the calls end. */
  lemma HandedDecides(s: Saved, pieces: seq<seq<byte>>, at: nat)
    requires Inv(s.core, s.nread) && forall i :: 0 <= i < |pieces| ==> pieces[i] != []
    requires SameOutcome(Feed(s, pieces, at), Call(s, Concat(pieces), at), at)
    ensures SameRun(Feed(s, pieces, at), Call(s, Concat(pieces), at))
  {
    hide Run, Call, Feed, Inv, OpenMarks, Concat, SameFields, Lens, Handed;
    var S := Concat(pieces);
    var f, g := Feed(s, pieces, at), Call(s, S, at);
    FeedShape(s, pieces, at);
    CallShape(s, S, at);
    assert Handed(f, at, Body) == Handed(g, at, Body);
    MarksOfFeed(s, pieces, at);
    if !g.stop.Running? {
      BodyIsHanded(f, at, s.core, S, at, LastStart(pieces, f));
      BodyIsHanded(g, at, s.core, S, at, 0);
      StopLens(f.outs, s.core, S, at, g.consumed);
      StopLens(g.outs, s.core, S, at, g.consumed);
    }
  }

  /** Body bytes are never only marked. */
  lemma BodyIsHanded(f: CallResult, at: nat, core: Core, s: seq<byte>, at': nat, p: nat)
    requires Shape(f, core, s, at', p) && !f.stop.Running?
    ensures Handed(f, at, Body) == Lens(f.outs, Body)
  {
    hide Run, Lens, OpenSet, StopsAt, OpenMarks;
    var m := f.consumed;
    assert s[..p] + s[p..m] == s[..m];
    RunAppend(core, s[..p], s[p..m], at');
    var d := Run(core, s[..p], at').core;
    OpenMarksRange(d, s[p..m], at' + p);
    NoBodyMark(Run(d, s[p..m], at' + p).core.state);
  }

  /** The body callback's view tells whether the byte at the stop has fired something. */
  lemma StopLens(outs: seq<Out>, c: Core, s: seq<byte>, at: nat, m: nat)
    requires m < |s| && StopsAt(outs, c, s, at, m)
    ensures var r := Run(c, s[..m], at);
            var last := StepOuts(r.core, s[m], at + m);
            || (outs == r.outs && Lens(outs, Body) == Lens(r.outs, Body))
            || (outs == r.outs + last && Lens(outs, Body) == Lens(r.outs, Body) + last)
  {
    hide Run, Step, Lens, StepOuts;
    var r := Run(c, s[..m], at);
    if outs != r.outs {
      LensAppend(r.outs, StepOuts(r.core, s[m], at + m), Body);
      LastLens(r.core, s[m], at + m);
    }
  }

  lemma LastLens(c: Core, ch: byte, at: nat)
    requires !Step(c, ch).stop.Running?
    ensures Lens(StepOuts(c, ch, at), Body) == StepOuts(c, ch, at)
  {
    hide Step, Lens;
    var body := if DeliversBody(c) then [Byte(Body, at)] else [];
    var ctl := CtlAt(Step(c, ch).ctl, at);
    assert StepOuts(c, ch, at) == body + ctl;
    LensAppend(body, ctl, Body);
    SignalsLens(Step(c, ch).ctl, at, Body);
    LensOne(Byte(Body, at), Body);
    LensEmpty(Body);
  }

  /** Cuts that leave the run alone leave the callbacks alone exactly if they do not go through a slice that is open
      where the parser stops. */
  lemma HandedIff(s: Saved, pieces: seq<seq<byte>>, at: nat)
    requires Inv(s.core, s.nread) && forall i :: 0 <= i < |pieces| ==> pieces[i] != []
    requires SameRun(Feed(s, pieces, at), Call(s, Concat(pieces), at))
    ensures SameOutcome(Feed(s, pieces, at), Call(s, Concat(pieces), at), at) <==> !CutsOpenSlice(s, pieces, at)
  {
    hide Run, Call, Feed, Inv, OpenMarks, Concat, SameFields, Lens, Handed;
    var f, g := Feed(s, pieces, at), Call(s, Concat(pieces), at);
    MarksOfFeed(s, pieces, at);
    forall k: Slice
      ensures Handed(f, at, k) == Handed(g, at, k)
              <==> !(k in g.open && g.open[k] < at + PieceStart(pieces, g.consumed))
    {
      MarkedFit(s, Concat(pieces), at, k);
      HandedByMark(f, g, at, k);
    }
  }

  lemma HandedByMark(f: CallResult, g: CallResult, at: nat, k: Slice)
    requires f.outs == g.outs && f.consumed == g.consumed && f.open.Keys == g.open.Keys
    requires k in g.open ==> g.open[k] <= f.open[k] <= at + g.consumed
    requires |Pending(g.open, k, at + g.consumed)| <= |Lens(g.outs, k)|
    ensures Handed(f, at, k) == Handed(g, at, k) <==> !(k in g.open && g.open[k] < f.open[k])
  {
    hide Lens, Range;
    if k in g.open {
    }
  }

  /** Cutting a stream into any nonempty pieces, below the header limit: the calls end as one call on the whole does,
      with the same observables on the way, and the callbacks are handed the same unless a cut goes through a slice
      that is open where the parser stops. */
  lemma SplitInvariance(s: Saved, pieces: seq<seq<byte>>, at: nat)
    requires Inv(s.core, s.nread) && NonEmpty(pieces)
    requires Allowed(s.core, s.nread, Concat(pieces)) == |Concat(pieces)|
    ensures SameRun(Feed(s, pieces, at), Call(s, Concat(pieces), at))
    ensures SameOutcome(Feed(s, pieces, at), Call(s, Concat(pieces), at), at) <==> !CutsOpenSlice(s, pieces, at)
    ensures Call(s, Concat(pieces), at).stop.Running? ==> !CutsOpenSlice(s, pieces, at)
  {
    hide Run, Count, Allowed, Feed, Inv, Handed, Concat, OpenMarks;
    FeedIsRun(s, s.nread, pieces, at);
    CallIsRun(s, Concat(pieces), at);
    var r := Run(s.core, Concat(pieces), at);
    if r.stop.Running? {
      RunKeepsInv(s.core, s.nread, Concat(pieces), at);
      SaveKeepsInv(r.core, Count(s.core, s.nread, Concat(pieces)));
    }
    HandedIff(s, pieces, at);
  }
}
