/** Runs of the automaton over byte strings: the trace of callbacks they fire and where they stop. */
module HttpRun {
  import opened HttpChars
  import opened HttpAutomaton

  /** The callbacks that carry data. */
  datatype Slice = Url | Path | Query | Fragment | HeaderName | HeaderText | Body

  /** One observable: a control callback, or one byte of a data callback, at a stream offset. */
  datatype Out = Ctl(event: Control, at: nat) | Byte(slice: Slice, at: nat)

  datatype RunResult = RunResult(core: Core, outs: seq<Out>, consumed: nat, stop: Stop)

  predicate InUrl(s: State) {
    s.ReqPath? || s.ReqSchema? || s.ReqSchemaSlash? || s.ReqSchemaSlashSlash? || s.ReqPort? || s.ReqQueryStart?
    || s.ReqQuery? || s.ReqHost? || s.ReqFragmentStart? || s.ReqFragment?
  }

  /** The slice that is open in a state besides the url. */
  function InnerSlice(s: State): seq<Slice> {
    match s
    case ReqPath => [Path]
    case ReqQuery => [Query]
    case ReqFragment => [Fragment]
    case HeaderField => [HeaderName]
    case HeaderValue => [HeaderText]
    case _ => []
  }

  /** The slices a byte belongs to, given the state it leads to. */
  function OpenSlices(s: State): seq<Slice> {
    (if InUrl(s) then [Url] else []) + InnerSlice(s)
  }

  function BytesAt(slices: seq<Slice>, at: nat): seq<Out> {
    seq(|slices|, i requires 0 <= i < |slices| => Byte(slices[i], at))
  }

  function CtlAt(events: seq<Control>, at: nat): seq<Out> {
    seq(|events|, i requires 0 <= i < |events| => Ctl(events[i], at))
  }

  /** What one byte at offset `at` makes observable. */
  function StepOuts(c: Core, ch: byte, at: nat): seq<Out> {
    var r := Step(c, ch);
    (if DeliversBody(c) then [Byte(Body, at)] else [])
    + CtlAt(r.ctl, at)
    + (if r.stop.Running? then BytesAt(OpenSlices(r.core.state), at) else [])
  }

  /** The run over `s`, whose first byte has stream offset `at`. `consumed` is the index of the byte that
      stopped the run, or the length of `s`. */
  function Run(c: Core, s: seq<byte>, at: nat): (r: RunResult)
    ensures r.consumed <= |s|
    ensures r.stop.Running? ==> r.consumed == |s|
    ensures !r.stop.Running? ==> r.consumed < |s|
    decreases |s|
  {
    if s == [] then RunResult(c, [], 0, Running)
    else
      var r := Step(c, s[0]);
      var outs := StepOuts(c, s[0], at);
      if !r.stop.Running? then RunResult(r.core, outs, 0, r.stop)
      else
        var rest := Run(r.core, s[1..], at + 1);
        RunResult(rest.core, outs + rest.outs, 1 + rest.consumed, rest.stop)
  }

  /** Two runs one after the other. */
  function Then(r1: RunResult, r2: RunResult): RunResult {
    RunResult(r2.core, r1.outs + r2.outs, r1.consumed + r2.consumed, r2.stop)
  }

  /** The first step of a run. */
  lemma RunCons(c: Core, s: seq<byte>, at: nat)
    requires s != []
    ensures var r := Step(c, s[0]);
            Run(c, s, at)
            == if r.stop.Running? then Then(RunResult(r.core, StepOuts(c, s[0], at), 1, Running),
                                            Run(r.core, s[1..], at + 1))
               else RunResult(r.core, StepOuts(c, s[0], at), 0, r.stop)
  {
  }

  lemma RunNil(c: Core, at: nat, r: RunResult)
    ensures Run(c, [], at) == RunResult(c, [], 0, Running)
    ensures Then(Run(c, [], at), r) == r
  {
    assert [] + r.outs == r.outs;
  }

  lemma {:induction false} RunAppend(c: Core, s: seq<byte>, t: seq<byte>, at: nat)
    ensures var r1 := Run(c, s, at);
            Run(c, s + t, at) == if r1.stop.Running? then Then(r1, Run(r1.core, t, at + |s|)) else r1
    decreases |s|
  {
    hide *;
    if s == [] {
      assert s + t == t;
      RunNil(c, at, Run(c, t, at));
    } else {
      assert (s + t)[0] == s[0] && (s + t)[1..] == s[1..] + t;
      RunCons(c, s, at);
      RunCons(c, s + t, at);
      var d := Step(c, s[0]).core;
      if Step(c, s[0]).stop.Running? {
        RunAppend(d, s[1..], t, at + 1);
        var b := Run(d, s[1..], at + 1);
        assert at + |s| == at + 1 + |s[1..]|;
        ThenAssoc(RunResult(d, StepOuts(c, s[0], at), 1, Running), b, Run(b.core, t, at + |s|));
        assert Run(c, s, at) == Then(RunResult(d, StepOuts(c, s[0], at), 1, Running), b);
        ThenParts(RunResult(d, StepOuts(c, s[0], at), 1, Running), b);
      }
    }
  }

  lemma ThenParts(a: RunResult, b: RunResult)
    ensures Then(a, b).core == b.core && Then(a, b).stop == b.stop
    ensures Then(a, b).consumed == a.consumed + b.consumed && Then(a, b).outs == a.outs + b.outs
  {
  }

  lemma ThenAssoc(a: RunResult, b: RunResult, c: RunResult)
    ensures Then(a, Then(b, c)) == Then(Then(a, b), c)
  {
    OutsAssoc(a.outs, b.outs, c.outs);
  }

  lemma OutsAssoc(a: seq<Out>, b: seq<Out>, c: seq<Out>)
    ensures a + (b + c) == (a + b) + c
  {
  }

  lemma RunOne(c: Core, ch: byte, at: nat)
    ensures var r := Step(c, ch);
            Run(c, [ch], at)
            == RunResult(r.core, StepOuts(c, ch, at), if r.stop.Running? then 1 else 0, r.stop)
  {
    var r := Step(c, ch);
    if r.stop.Running? {
      assert Run(r.core, [], at + 1) == RunResult(r.core, [], 0, Running);
      assert [ch][1..] == [];
      assert StepOuts(c, ch, at) + [] == StepOuts(c, ch, at);
    }
  }

  /** Two known runs in a row. */
  lemma RunJoin(c: Core, s: seq<byte>, t: seq<byte>, at: nat, r1: RunResult, r2: RunResult)
    requires Run(c, s, at) == r1 && r1.stop.Running? && Run(r1.core, t, at + |s|) == r2
    ensures Run(c, s + t, at) == RunResult(r2.core, r1.outs + r2.outs, r1.consumed + r2.consumed, r2.stop)
  {
    hide Run;
    RunAppend(c, s, t, at);
  }

  /** One more byte at the end of a run that has not stopped. */
  lemma RunSnoc(c: Core, s: seq<byte>, ch: byte, at: nat)
    requires Run(c, s, at).stop.Running?
    ensures var r1 := Run(c, s, at);
            var r := Step(r1.core, ch);
            Run(c, s + [ch], at)
            == RunResult(r.core, r1.outs + StepOuts(r1.core, ch, at + |s|),
                         if r.stop.Running? then |s| + 1 else |s|, r.stop)
  {
    RunAppend(c, s, [ch], at);
    RunOne(Run(c, s, at).core, ch, at + |s|);
  }

  /** One byte that is refused stops the run, whatever follows. */
  lemma RefusedByte(c: Core, a: seq<byte>, x: byte, rest: seq<byte>, at: nat)
    requires Run(c, a, at).stop.Running? && Step(Run(c, a, at).core, x).stop.Error?
    ensures Run(c, a + [x] + rest, at).stop.Error?
  {
    hide Run, Step;
    RunSnoc(c, a, x, at);
    RunAppend(c, a + [x], rest, at);
  }

  lemma StaysRefused(c: Core, a: seq<byte>, rest: seq<byte>, at: nat)
    requires Run(c, a, at).stop.Error?
    ensures Run(c, a + rest, at).stop.Error?
  {
    hide Run;
    RunAppend(c, a, rest, at);
  }

  /** A run that stops does not look past the byte that stops it. */
  lemma {:induction false} RunStopsWithin(c: Core, s: seq<byte>, at: nat)
    requires !Run(c, s, at).stop.Running?
    ensures var r := Run(c, s, at);
            Run(c, s[..r.consumed], at).stop.Running? && Run(c, s[..r.consumed + 1], at) == r
    decreases |s|
  {
    hide *;
    if s == [] {
      RunNil(c, at, Run(c, s, at));
    } else {
      RunCons(c, s, at);
      var r := Run(c, s, at);
      var head, d := s[..r.consumed], Step(c, s[0]).core;
      if Step(c, s[0]).stop.Running? {
        var rest := Run(d, s[1..], at + 1);
        ThenParts(RunResult(d, StepOuts(c, s[0], at), 1, Running), rest);
        RunStopsWithin(d, s[1..], at + 1);
        assert head[1..] == s[1..][..rest.consumed];
        assert s[..r.consumed + 1][1..] == s[1..][..rest.consumed + 1];
        RunCons(c, head, at);
        ThenParts(RunResult(d, StepOuts(c, s[0], at), 1, Running), Run(d, head[1..], at + 1));
        RunCons(c, s[..r.consumed + 1], at);
      } else {
        assert head == [];
        RunNil(c, at, r);
        RunCons(c, s[..1], at);
      }
    }
  }

  // ---------------------------------------------------------------- the header counter

  /** `nread` after one byte. */
  function CountStep(c: Core, n: nat, ch: byte): nat {
    if Step(c, ch).reset then 0 else if ParsingHeader(c.state) then n + 1 else n
  }

  /** `nread` after a run that does not stop. */
  function Count(c: Core, n: nat, s: seq<byte>): nat
    decreases |s|
  {
    if s == [] then n else Count(Step(c, s[0]).core, CountStep(c, n, s[0]), s[1..])
  }

  const MAX_HEADER_SIZE: nat := 80 * 1024

  /** The number of bytes the loop takes before the header limit stops it (all of them if it never does). */
  function Allowed(c: Core, n: nat, s: seq<byte>): (k: nat)
    ensures k <= |s|
    decreases |s|
  {
    if s == [] then 0
    else if ParsingHeader(c.state) && n + 1 > MAX_HEADER_SIZE then 0
    else if !Step(c, s[0]).stop.Running? then |s|
    else 1 + Allowed(Step(c, s[0]).core, CountStep(c, n, s[0]), s[1..])
  }

  lemma {:induction false} CountAppend(c: Core, n: nat, s: seq<byte>, t: seq<byte>)
    requires Run(c, s, 0).stop.Running?
    ensures Count(c, n, s + t) == Count(Run(c, s, 0).core, Count(c, n, s), t)
    decreases |s|
  {
    if s == [] {
      assert s + t == t;
    } else {
      assert (s + t)[1..] == s[1..] + t;
      RunOffset(Step(c, s[0]).core, s[1..], 1, 0);
      CountAppend(Step(c, s[0]).core, CountStep(c, n, s[0]), s[1..], t);
    }
  }

  /** Apart from the offsets in the trace, a run does not depend on where it starts. */
  lemma {:induction false} RunOffset(c: Core, s: seq<byte>, at: nat, at': nat)
    ensures var r, r' := Run(c, s, at), Run(c, s, at');
            r.core == r'.core && r.consumed == r'.consumed && r.stop == r'.stop
    decreases |s|
  {
    if s != [] && Step(c, s[0]).stop.Running? {
      RunOffset(Step(c, s[0]).core, s[1..], at + 1, at' + 1);
    }
  }

  lemma {:induction false} AllowedAppend(c: Core, n: nat, s: seq<byte>, t: seq<byte>)
    requires Allowed(c, n, s) == |s| && Run(c, s, 0).stop.Running?
    ensures Allowed(c, n, s + t) == |s| + Allowed(Run(c, s, 0).core, Count(c, n, s), t)
    decreases |s|
  {
    if s == [] {
      assert s + t == t;
    } else {
      assert (s + t)[1..] == s[1..] + t;
      RunOffset(Step(c, s[0]).core, s[1..], 1, 0);
      AllowedAppend(Step(c, s[0]).core, CountStep(c, n, s[0]), s[1..], t);
    }
  }

  /** A run that the limit leaves alone is also left alone on every prefix. */
  lemma {:induction false} AllowedPrefix(c: Core, n: nat, s: seq<byte>, t: seq<byte>)
    requires Allowed(c, n, s + t) == |s + t|
    ensures Allowed(c, n, s) == |s|
    decreases |s|
  {
    if s != [] {
      assert (s + t)[1..] == s[1..] + t;
      if Step(c, s[0]).stop.Running? {
        AllowedPrefix(Step(c, s[0]).core, CountStep(c, n, s[0]), s[1..], t);
      }
    }
  }

  /** A smaller counter never runs into the limit earlier. */
  lemma {:induction false} AllowedMonotone(c: Core, n: nat, n': nat, s: seq<byte>)
    requires n' <= n
    ensures Allowed(c, n, s) <= Allowed(c, n', s)
    decreases |s|
  {
    if s != [] && Step(c, s[0]).stop.Running? {
      AllowedMonotone(Step(c, s[0]).core, CountStep(c, n, s[0]), CountStep(c, n', s[0]), s[1..]);
    }
  }

  /** Enough room for every byte is enough room for the header bytes among them. */
  lemma {:induction false} ShortInputsAreAllowed(c: Core, n: nat, s: seq<byte>)
    requires n + |s| <= MAX_HEADER_SIZE
    ensures Allowed(c, n, s) == |s|
    decreases |s|
  {
    if s != [] && Step(c, s[0]).stop.Running? {
      ShortInputsAreAllowed(Step(c, s[0]).core, CountStep(c, n, s[0]), s[1..]);
    }
  }

  // ---------------------------------------------------------------- projections

  /** The trace as one data callback sees it: the control callbacks and the bytes of slice `k`, in order. */
  function Lens(outs: seq<Out>, k: Slice): seq<Out> {
    if outs == [] then []
    else (if outs[0].Ctl? || outs[0].slice == k then [outs[0]] else []) + Lens(outs[1..], k)
  }

  lemma {:induction false} LensAppend(a: seq<Out>, b: seq<Out>, k: Slice)
    ensures Lens(a + b, k) == Lens(a, k) + Lens(b, k)
  {
    if a == [] {
      assert a + b == b;
    } else {
      assert (a + b)[0] == a[0] && (a + b)[1..] == a[1..] + b;
      LensAppend(a[1..], b, k);
      var first := if a[0].Ctl? || a[0].slice == k then [a[0]] else [];
      assert Lens(a, k) == first + Lens(a[1..], k);
      assert Lens(a + b, k) == first + (Lens(a[1..], k) + Lens(b, k));
      OutsAssoc(first, Lens(a[1..], k), Lens(b, k));
    }
  }

  /** The bytes `from .. to` of slice `k`. */
  function Range(k: Slice, from: nat, to: nat): (r: seq<Out>)
    requires from <= to
    ensures |r| == to - from
  {
    seq(to - from, i requires 0 <= i < to - from => Byte(k, from + i))
  }

  lemma {:induction false} LensRange(k: Slice, from: nat, to: nat, j: Slice)
    requires from <= to
    ensures Lens(Range(k, from, to), j) == (if j == k then Range(k, from, to) else [])
    decreases (to - from)
  {
    if from < to {
      assert Range(k, from, to)[1..] == Range(k, from + 1, to);
      LensRange(k, from + 1, to, j);
      assert Range(k, from, to) == [Byte(k, from)] + Range(k, from + 1, to);
    }
  }

  lemma RangeOne(k: Slice, from: nat)
    ensures Range(k, from, from + 1) == [Byte(k, from)] && Range(k, from, from) == []
  {
  }

  lemma RangeSnoc(k: Slice, from: nat, to: nat)
    requires from <= to
    ensures Range(k, from, to + 1) == Range(k, from, to) + [Byte(k, to)]
  {
  }

  lemma CtlNone(at: nat)
    ensures CtlAt([], at) == [] && BytesAt([], at) == []
  {
  }

  lemma NothingAdds()
    ensures forall o: seq<Out> :: [] + o == o == o + []
  {
  }

  lemma NoOuts(o: seq<Out>)
    ensures o + [] == o && [] + o == o
  {
  }

  lemma LensEmpty(k: Slice)
    ensures Lens([], k) == []
  {
  }

  lemma LensOne(o: Out, k: Slice)
    ensures Lens([o], k) == if o.Ctl? || o.slice == k then [o] else []
  {
    assert [o][1..] == [] && Lens([], k) == [];
  }
}
