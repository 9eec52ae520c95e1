/** Calls of `http_parser_execute` as functions of the saved parser and the buffer, and the guarantee they are
    for: the stream may be cut anywhere. */
module HttpCalls {
  import opened HttpChars
  import opened HttpAutomaton
  import opened HttpRun
  import opened HttpInvariant
  import opened HttpLog
  import opened HttpMarks

  /** The parser between two calls. */
  datatype Saved = Saved(core: Core, nread: nat)

  /** `outs` is what the run makes observable; `open` are the slices that are marked, but not handed over, when the
      call stops. */
  datatype CallResult = CallResult(saved: Saved, outs: seq<Out>, consumed: nat, stop: Stop, open: Marks)

  /** What the callback for `k` is handed, byte by byte and between the control callbacks: all of the observables but
      the bytes that are only marked. `at` is the offset at which the call starts. */
  function Handed(f: CallResult, at: nat, k: Slice): seq<Out> {
    var all, marked := Lens(f.outs, k), Pending(f.open, k, at + f.consumed);
    if |marked| <= |all| then all[..|all| - |marked|] else []
  }

  /** What a call that stops leaves behind: the fields changed in place, without the loop's local copies. */
  function Abandon(before: Core, after: Core, why: Stop): Core {
    after.(state := if why.Error? then Dead else before.state,
           headerState := before.headerState, index := before.index)
  }

  /** One call on a buffer whose first byte has stream offset `at`. Both casts of the save are written out. */
  function Call(s: Saved, data: seq<byte>, at: nat): CallResult {
    var k := Allowed(s.core, s.nread, data);
    var r := Run(s.core, data[..k], at);
    if !r.stop.Running? then
      CallResult(Saved(Abandon(s.core, r.core, r.stop), s.nread), r.outs, r.consumed, r.stop,
                 OpenMarks(s.core, data[..r.consumed], at))
    else if k < |data| then
      CallResult(Saved(Abandon(s.core, r.core, Error), s.nread), r.outs, k, Error, OpenMarks(s.core, data[..k], at))
    else
      CallResult(Saved(r.core.(index := r.core.index % 256), Count(s.core, s.nread, data) % 256),
                 r.outs, |data|, Running, map[])
  }

  /** The calls on consecutive pieces of a stream, up to the first one that stops. */
  function Feed(s: Saved, pieces: seq<seq<byte>>, at: nat): CallResult
    decreases |pieces|
  {
    if pieces == [] then CallResult(s, [], 0, Running, map[])
    else
      var r := Call(s, pieces[0], at);
      if !r.stop.Running? then r
      else
        var rest := Feed(r.saved, pieces[1..], at + |pieces[0]|);
        CallResult(rest.saved, r.outs + rest.outs, |pieces[0]| + rest.consumed, rest.stop, rest.open)
  }

  function Concat(pieces: seq<seq<byte>>): seq<byte> {
    if pieces == [] then [] else pieces[0] + Concat(pieces[1..])
  }

  /** The fields a caller can still read after a parser has stopped. */
  predicate SameFields(c: Core, d: Core) {
    && c.kind == d.kind && c.flags == d.flags && c.contentLength == d.contentLength
    && c.httpMajor == d.httpMajor && c.httpMinor == d.httpMinor && c.statusCode == d.statusCode
    && c.meth == d.meth && c.upgrade == d.upgrade
  }

  /** The same stop at the same total offset; the same parser if it can go on, and the same readable fields if it
      stopped. */
  predicate SameEnd(f: CallResult, g: CallResult) {
    && f.stop == g.stop && f.consumed == g.consumed
    && (f.stop.Running? ==> f.saved == g.saved)
    && SameFields(f.saved.core, g.saved.core)
    && (f.stop.Error? ==> f.saved.core.state.Dead? && g.saved.core.state.Dead?)
  }

  /** The same end, and the same observables on the way, whether handed over or only marked. */
  predicate SameRun(f: CallResult, g: CallResult) { SameEnd(f, g) && f.outs == g.outs }

  /** The same end, and the same callbacks: each data callback is handed the same bytes between the same control
      callbacks. */
  ghost predicate SameOutcome(f: CallResult, g: CallResult, at: nat) {
    SameEnd(f, g) && forall k: Slice :: Handed(f, at, k) == Handed(g, at, k)
  }

  // ---------------------------------------------------------------- invariant over runs

  lemma {:induction false} RunKeepsInv(c: Core, n: nat, s: seq<byte>, at: nat)
    requires Inv(c, n)
    ensures var r := Run(c, s, at);
            !r.stop.AssertFailed? && (r.stop.Running? ==> Inv(r.core, Count(c, n, s)))
    decreases |s|
  {
    hide *;
    if s == [] {
      RunNil(c, at, Run(c, s, at));
      CountNil(c, n);
    } else {
      StepKeepsInv(c, n, s[0]);
      RunCons(c, s, at);
      CountCons(c, n, s);
      if Step(c, s[0]).stop.Running? {
        var d := Step(c, s[0]).core;
        RunKeepsInv(d, CountStep(c, n, s[0]), s[1..], at + 1);
        ThenParts(RunResult(d, StepOuts(c, s[0], at), 1, Running), Run(d, s[1..], at + 1));
      }
    }
  }

  lemma CountNil(c: Core, n: nat)
    ensures Count(c, n, []) == n
  {
  }

  lemma CountCons(c: Core, n: nat, s: seq<byte>)
    requires s != []
    ensures Count(c, n, s) == Count(Step(c, s[0]).core, CountStep(c, n, s[0]), s[1..])
  {
  }

  /** The truncated save keeps the invariant: the casts lose nothing that an assertion depends on. */
  lemma SaveKeepsInv(c: Core, n: nat)
    requires Inv(c, n)
    ensures c.index % 256 == c.index && Inv(c, n % 256)
  {
    hide BodyInv, HeaderInv, VersionInv;
  }

  /** No assertion of the parser fails on any sequence of calls, and the parser it leaves is again valid. */
  lemma {:induction false} NoAssertionFails(s: Saved, pieces: seq<seq<byte>>, at: nat)
    requires Inv(s.core, s.nread)
    ensures var r := Feed(s, pieces, at);
            !r.stop.AssertFailed? && (r.stop.Running? ==> Inv(r.saved.core, r.saved.nread))
    decreases |pieces|
  {
    hide Run, Count, Allowed, Inv;
    if pieces != [] {
      var k := Allowed(s.core, s.nread, pieces[0]);
      RunKeepsInv(s.core, s.nread, pieces[0][..k], at);
      var r := Call(s, pieces[0], at);
      if r.stop.Running? {
        assert pieces[0][..k] == pieces[0];
        SaveKeepsInv(Run(s.core, pieces[0], at).core, Count(s.core, s.nread, pieces[0]));
        NoAssertionFails(r.saved, pieces[1..], at + |pieces[0]|);
      }
    }
  }

  // ---------------------------------------------------------------- split invariance

  /** The saved counter is the true one modulo 256, whatever was lost before. */
  lemma {:induction false} CountModulo(c: Core, n: nat, n': nat, s: seq<byte>)
    requires n' <= n && n' % 256 == n % 256
    ensures Count(c, n', s) <= Count(c, n, s) && Count(c, n', s) % 256 == Count(c, n, s) % 256
    decreases |s|
  {
    hide *;
    if s == [] {
      CountNil(c, n);
      CountNil(c, n');
    } else {
      CountCons(c, n, s);
      CountCons(c, n', s);
      CountStepModulo(c, n, n', s[0]);
      CountModulo(Step(c, s[0]).core, CountStep(c, n, s[0]), CountStep(c, n', s[0]), s[1..]);
    }
  }

  lemma CountStepModulo(c: Core, n: nat, n': nat, ch: byte)
    requires n' <= n && n' % 256 == n % 256
    ensures CountStep(c, n', ch) <= CountStep(c, n, ch) && CountStep(c, n', ch) % 256 == CountStep(c, n, ch) % 256
  {
    hide Step;
  }

  /** A call that the limit leaves alone is a run. */
  lemma CallIsRun(s: Saved, data: seq<byte>, at: nat)
    requires Allowed(s.core, s.nread, data) == |data|
    ensures var r, f := Run(s.core, data, at), Call(s, data, at);
            && f.stop == r.stop && f.consumed == r.consumed && f.outs == r.outs
            && SameFields(f.saved.core, r.core)
            && (r.stop.Error? ==> f.saved.core.state.Dead?)
            && (r.stop.Running? ==> f.saved == Saved(r.core.(index := r.core.index % 256),
                                                     Count(s.core, s.nread, data) % 256))
  {
    hide Run, Count, Allowed;
    assert data[..|data|] == data;
  }

  /** Feeding pieces with a counter that is behind the true count `n` by a multiple of 256 gives the run over
      their concatenation. */
  lemma {:induction false} FeedIsRun(s: Saved, n: nat, pieces: seq<seq<byte>>, at: nat)
    requires Inv(s.core, n)
    requires s.nread <= n && s.nread % 256 == n % 256
    requires s.nread < 256 || pieces != []
    requires forall i :: 0 <= i < |pieces| ==> pieces[i] != []
    requires Allowed(s.core, n, Concat(pieces)) == |Concat(pieces)|
    ensures var r, f := Run(s.core, Concat(pieces), at), Feed(s, pieces, at);
            && f.stop == r.stop && f.consumed == r.consumed && f.outs == r.outs
            && SameFields(f.saved.core, r.core)
            && (r.stop.Error? ==> f.saved.core.state.Dead?)
            && (r.stop.Running? ==> f.saved == Saved(r.core, Count(s.core, n, Concat(pieces)) % 256))
    decreases |pieces|
  {
    hide Run, Count, Allowed, Call, Inv;
    if pieces == [] {
      RunNil(s.core, at, Run(s.core, [], at));
      CountNil(s.core, n);
    } else {
      var p, rest := pieces[0], Concat(pieces[1..]);
      AllowedPrefix(s.core, n, p, rest);
      AllowedMonotone(s.core, n, s.nread, p);
      CallIsRun(s, p, at);
      RunAppend(s.core, p, rest, at);
      var r1 := Run(s.core, p, at);
      if r1.stop.Running? {
        RunOffset(s.core, p, at, 0);
        RunKeepsInv(s.core, n, p, at);
        var n1 := Count(s.core, n, p);
        SaveKeepsInv(r1.core, n1);
        CountModulo(s.core, n, s.nread, p);
        AllowedAppend(s.core, n, p, rest);
        CountAppend(s.core, n, p, rest);
        FeedIsRun(Saved(r1.core, n1 % 256), n1, pieces[1..], at + |p|);
        ThenParts(r1, Run(r1.core, rest, at + |p|));
      }
    }
  }
}
