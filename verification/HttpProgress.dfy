/** The loop invariant of `http_parser_execute` and the steps that keep it. */
module HttpProgress {
  import opened HttpChars
  import opened HttpAutomaton
  import opened HttpRun
  import opened HttpShape
  import opened HttpInvariant
  import opened HttpBody
  import opened HttpLog
  import opened HttpMarks
  import opened HttpCalls

  /** After `i` bytes of `s` the loop has fields `c`, counter `n` and marks `marks`, and has turned the log
      `log0` into `log`: all as in the run of the automaton, with the open slices still to be handed over. */
  ghost predicate Progress(s0: Saved, s: seq<byte>, i: nat, base: nat, c: Core, n: nat, marks: Marks,
                           log0: seq<Event>, log: seq<Event>)
  {
    i <= |s|
    && var r := Run(s0.core, s[..i], base);
    && r.stop.Running? && r.core == c && n == Count(s0.core, s0.nread, s[..i])
    && Allowed(s0.core, s0.nread, s[..i]) == i
    && Inv(c, n)
    && marks == OpenMarks(s0.core, s[..i], base) && marks.Keys == OpenSet(c.state)
    && (forall k :: k in marks ==> marks[k] <= base + i)
    && (forall k: Slice :: LogLens(log, k) + Pending(marks, k, base + i) == LogLens(log0, k) + Lens(r.outs, k))
  }

  lemma StartsWell(s0: Saved, s: seq<byte>, base: nat, marks: Marks, log: seq<Event>)
    requires Inv(s0.core, s0.nread)
    requires marks.Keys == OpenSet(s0.core.state) && forall k :: k in marks ==> marks[k] == base
    ensures Progress(s0, s, 0, base, s0.core, s0.nread, marks, log, log)
  {
    hide Run, Count, Allowed, Inv, OpenSet, LogLens, Lens;
    assert s[..0] == [];
    assert marks == OpenMarks(s0.core, [], base);
    RunNil(s0.core, base, Run(s0.core, [], base));
    CountNil(s0.core, s0.nread);
    AllowedNil(s0.core, s0.nread);
    forall k: Slice
      ensures LogLens(log, k) + Pending(marks, k, base) == LogLens(log, k) + Lens([], k)
    {
      LensEmpty(k);
    }
  }

  lemma AllowedNil(c: Core, n: nat)
    ensures Allowed(c, n, []) == 0
  {
  }

  lemma AllowedOne(c: Core, n: nat, ch: byte)
    ensures Allowed(c, n, [ch]) == if ParsingHeader(c.state) && n + 1 > MAX_HEADER_SIZE then 0 else 1
  {
    if Step(c, ch).stop.Running? {
      AllowedNil(Step(c, ch).core, CountStep(c, n, ch));
    }
  }

  lemma CountOne(c: Core, n: nat, ch: byte)
    ensures Count(c, n, [ch]) == CountStep(c, n, ch)
  {
    CountNil(Step(c, ch).core, CountStep(c, n, ch));
  }

  /** The run over `j` more bytes, put behind the run so far. */
  lemma Extend(s0: Saved, s: seq<byte>, i: nat, j: nat, base: nat, c: Core, n: nat)
    requires i + j <= |s|
    requires var r := Run(s0.core, s[..i], base); r.stop.Running? && r.core == c
    requires n == Count(s0.core, s0.nread, s[..i]) && Allowed(s0.core, s0.nread, s[..i]) == i
    ensures var more := s[i..i + j];
            && Run(s0.core, s[..i + j], base) == Then(Run(s0.core, s[..i], base), Run(c, more, base + i))
            && Count(s0.core, s0.nread, s[..i + j]) == Count(c, n, more)
            && Allowed(s0.core, s0.nread, s[..i + j]) == i + Allowed(c, n, more)
  {
    hide Run, Count, Allowed;
    assert s[..i + j] == s[..i] + s[i..i + j];
    RunAppend(s0.core, s[..i], s[i..i + j], base);
    RunOffset(s0.core, s[..i], base, 0);
    CountAppend(s0.core, s0.nread, s[..i], s[i..i + j]);
    AllowedAppend(s0.core, s0.nread, s[..i], s[i..i + j]);
  }

  /** One byte outside the bodies. */
  lemma ByteKeepsProgress(s0: Saved, s: seq<byte>, i: nat, base: nat, c: Core, n: nat, marks: Marks,
                          log0: seq<Event>, log: seq<Event>)
    requires Progress(s0, s, i, base, c, n, marks, log0, log)
    requires i < |s| && !DeliversBody(c) && (ParsingHeader(c.state) ==> n + 1 <= MAX_HEADER_SIZE)
    requires Step(c, s[i]).stop.Running?
    ensures var r := Step(c, s[i]);
            Progress(s0, s, i + 1, base, r.core, CountStep(c, n, s[i]), MarksAfter(marks, r.core.state, base + i),
                     log0, log + Emitted(c, s[i], r, marks, base + i))
  {
    hide Run, Count, Allowed, Inv, OpenSet, LogLens, Lens, Step, StepOuts, Emitted, CountStep, DeliversBody, Pending,
         OpenMarks;
    var r := Step(c, s[i]);
    assert s[i..i + 1] == [s[i]] && s[..i + 1] == s[..i] + [s[i]];
    OpenMarksSnoc(s0.core, s[..i], s[i], base);
    Extend(s0, s, i, 1, base, c, n);
    RunOne(c, s[i], base + i);
    AllowedOne(c, n, s[i]);
    CountOne(c, n, s[i]);
    StepKeepsInv(c, n, s[i]);
    var marks' := MarksAfter(marks, r.core.state, base + i);
    forall k: Slice
      ensures LogLens(log + Emitted(c, s[i], r, marks, base + i), k) + Pending(marks', k, base + i + 1)
              == LogLens(log0, k) + Lens(Run(s0.core, s[..i], base).outs + StepOuts(c, s[i], base + i), k)
    {
      StepAccounting(c, s[i], marks, base + i, k);
      LogLensAppend(log, Emitted(c, s[i], r, marks, base + i), k);
      LensAppend(Run(s0.core, s[..i], base).outs, StepOuts(c, s[i], base + i), k);
      Regroup(LogLens(log, k), LogLens(Emitted(c, s[i], r, marks, base + i), k), Pending(marks', k, base + i + 1),
              Pending(marks, k, base + i), Lens(StepOuts(c, s[i], base + i), k));
      OutsAssoc(LogLens(log0, k), Lens(Run(s0.core, s[..i], base).outs, k), Lens(StepOuts(c, s[i], base + i), k));
    }
  }

  lemma Regroup(log: seq<Out>, e: seq<Out>, p': seq<Out>, p: seq<Out>, o: seq<Out>)
    requires e + p' == p + o
    ensures (log + e) + p' == (log + p) + o
  {
    OutsAssoc(log, e, p');
    OutsAssoc(log, p, o);
  }

  /** A jump over `m` body bytes. */
  lemma BulkKeepsProgress(s0: Saved, s: seq<byte>, i: nat, m: nat, base: nat, c: Core, n: nat, marks: Marks,
                          log0: seq<Event>, log: seq<Event>, d: Core, ctl: seq<Control>)
    requires Progress(s0, s, i, base, c, n, marks, log0, log)
    requires m > 0 && i + m <= |s| && OpenSet(c.state) == {} == OpenSet(d.state)
    requires Run(c, s[i..i + m], base + i) == BulkResult(c, base + i, m, d, ctl)
    requires Count(c, n, s[i..i + m]) == n && Allowed(c, n, s[i..i + m]) == m
    ensures Progress(s0, s, i + m, base, d, n, marks, log0,
                     log + [Data(Body, base + i, base + i + m)] + Signals(ctl, base + i + m - 1))
  {
    hide Run, Count, Allowed, Inv, OpenSet, LogLens, Lens, Step, StepOuts, OpenMarks;
    Extend(s0, s, i, m, base, c, n);
    RunKeepsInv(c, n, s[i..i + m], base + i);
    assert marks == map[];
    NothingMarked(s0.core, s[..i + m], base);
    var outs := Range(Body, base + i, base + i + m) + CtlAt(ctl, base + i + m - 1);
    var log1 := log + [Data(Body, base + i, base + i + m)];
    forall k: Slice
      ensures LogLens(log1 + Signals(ctl, base + i + m - 1), k) + Pending(marks, k, base + i + m)
              == LogLens(log0, k) + Lens(Run(s0.core, s[..i], base).outs + outs, k)
    {
      assert Pending(marks, k, base + i) == [] == Pending(marks, k, base + i + m);
      LogLensAppend(log, [Data(Body, base + i, base + i + m)], k);
      LogLensOne(Data(Body, base + i, base + i + m), k);
      LogLensAppend(log1, Signals(ctl, base + i + m - 1), k);
      SignalsLens(ctl, base + i + m - 1, k);
      LensRange(Body, base + i, base + i + m, k);
      LensAppend(Range(Body, base + i, base + i + m), CtlAt(ctl, base + i + m - 1), k);
      LensAppend(Run(s0.core, s[..i], base).outs, outs, k);
      OutsAssoc(LogLens(log, k), EventLens(Data(Body, base + i, base + i + m), k), CtlAt(ctl, base + i + m - 1));
      OutsAssoc(LogLens(log0, k), Lens(Run(s0.core, s[..i], base).outs, k), Lens(outs, k));
    }
  }

  /** The log has grown by what the call hands over. */
  ghost predicate HandedOver(log0: seq<Event>, log: seq<Event>, f: CallResult, at: nat) {
    forall k: Slice :: LogLens(log, k) == LogLens(log0, k) + Handed(f, at, k)
  }

  /** The header limit ends the loop. */
  lemma LimitStops(s0: Saved, s: seq<byte>, i: nat, base: nat, c: Core, n: nat, marks: Marks,
                   log0: seq<Event>, log: seq<Event>)
    requires Progress(s0, s, i, base, c, n, marks, log0, log)
    requires i < |s| && ParsingHeader(c.state) && n + 1 > MAX_HEADER_SIZE
    ensures var r := Call(s0, s, base);
            && r == CallResult(Saved(Abandon(s0.core, c, Error), s0.nread), r.outs, i, Error, marks)
            && HandedOver(log0, log, r, base)
  {
    hide Run, Count, Inv, OpenSet, LogLens, Lens, Step, StepOuts, Handed, OpenMarks;
    Extend(s0, s, i, |s| - i, base, c, n);
    assert s[..i + (|s| - i)] == s;
    assert Allowed(c, n, s[i..i + (|s| - i)]) == 0;
    var r := Call(s0, s, base);
    forall k: Slice ensures LogLens(log, k) == LogLens(log0, k) + Handed(r, base, k) {
      PendingFits(s0.core, s[..i], base, k);
      MarkedIsDropped(r, base, k, LogLens(log0, k), LogLens(log, k));
    }
  }

  /** What is handed over and what is only marked make up the observables. */
  lemma MarkedIsDropped(f: CallResult, at: nat, k: Slice, log0: seq<Out>, log: seq<Out>)
    requires |Pending(f.open, k, at + f.consumed)| <= |Lens(f.outs, k)|
    requires log + Pending(f.open, k, at + f.consumed) == log0 + Lens(f.outs, k)
    ensures log == log0 + Handed(f, at, k)
  {
    hide Lens, Pending;
    var all, marked := Lens(f.outs, k), Pending(f.open, k, at + f.consumed);
    var n := |all| - |marked|;
    assert all == all[..n] + all[n..];
    assert log0 + all == (log0 + all[..n]) + all[n..];
    assert log == (log + marked)[..|log|] == (log0 + all)[..|log|];
  }

  /** A byte outside the bodies ends the loop. */
  lemma ByteStops(s0: Saved, s: seq<byte>, i: nat, base: nat, c: Core, n: nat, marks: Marks,
                  log0: seq<Event>, log: seq<Event>)
    requires Progress(s0, s, i, base, c, n, marks, log0, log)
    requires i < |s| && !DeliversBody(c) && (ParsingHeader(c.state) ==> n + 1 <= MAX_HEADER_SIZE)
    requires !Step(c, s[i]).stop.Running?
    ensures var step, r := Step(c, s[i]), Call(s0, s, base);
            && r == CallResult(Saved(Abandon(s0.core, step.core, step.stop), s0.nread), r.outs, i, step.stop, marks)
            && HandedOver(log0, log + Emitted(c, s[i], step, marks, base + i), r, base)
  {
    hide Run, Count, Inv, OpenSet, LogLens, Lens, Step, StepOuts, Emitted, Pending, Allowed, Handed, OpenMarks;
    var more := s[i..i + (|s| - i)];
    Extend(s0, s, i, |s| - i, base, c, n);
    assert s[..i + (|s| - i)] == s && s[..|s|] == s;
    assert more[0] == s[i];
    AllowedStop(c, n, more);
    RunCons(c, more, base + i);
    var step, outs, last := Step(c, s[i]), Run(s0.core, s[..i], base).outs, StepOuts(c, s[i], base + i);
    var e, r := Emitted(c, s[i], step, marks, base + i), Call(s0, s, base);
    forall k: Slice ensures LogLens(log + e, k) == LogLens(log0, k) + Handed(r, base, k) {
      StepAccounting(c, s[i], marks, base + i, k);
      LogLensAppend(log, e, k);
      LensAppend(outs, last, k);
      PendingFits(s0.core, s[..i], base, k);
      OutsAssoc(LogLens(log0, k), Lens(outs, k), Lens(last, k));
      if k in marks {
        StopIsSilent(c, s[i], base + i, k);
        assert LogLens(log, k) + [] == LogLens(log, k);
        assert Lens(outs, k) + [] == Lens(outs, k);
      } else {
        NoPending(marks, k, base + i);
        assert LogLens(log, k) + [] == LogLens(log, k);
      }
      assert LogLens(log, k) + Lens(last, k) + Pending(marks, k, base + i) == LogLens(log0, k) + Lens(outs + last, k);
      MarkedIsDropped(r, base, k, LogLens(log0, k), LogLens(log + e, k));
    }
  }

  lemma NoPending(marks: Marks, k: Slice, at: nat)
    requires k !in marks
    ensures Pending(marks, k, at) == []
  {
  }

  /** A byte that stops the parser inside a slice fires no callback. */
  lemma StopIsSilent(c: Core, ch: byte, at: nat, k: Slice)
    requires OpenSet(c.state) != {} && !Step(c, ch).stop.Running? && !DeliversBody(c)
    ensures Lens(StepOuts(c, ch, at), k) == []
  {
    hide Step, OpenSet, Lens;
    if Step(c, ch).ctl != [] {
      SignalsBetweenSlices(c, ch);
    }
    OutsLens(c, ch, at, k);
  }

  lemma AllowedStop(c: Core, n: nat, s: seq<byte>)
    requires s != [] && (ParsingHeader(c.state) ==> n + 1 <= MAX_HEADER_SIZE)
    requires !Step(c, s[0]).stop.Running?
    ensures Allowed(c, n, s) == |s|
  {
  }

  /** The end of the buffer: the open slices are handed over and the fields saved. */
  lemma EndOfBuffer(s0: Saved, s: seq<byte>, base: nat, c: Core, n: nat, marks: Marks,
                    log0: seq<Event>, log: seq<Event>, log1: seq<Event>)
    requires Progress(s0, s, |s|, base, c, n, marks, log0, log)
    requires log1 == log + Flush(marks, base + |s|)
    ensures var r := Call(s0, s, base);
            && r == CallResult(Saved(c.(index := c.index % 256), n % 256), r.outs, |s|, Running, map[])
            && HandedOver(log0, log1, r, base)
  {
    hide Run, Count, Allowed, Inv, OpenSet, LogLens, Lens, Flush, OpenMarks;
    assert s[..|s|] == s;
    forall k: Slice
      ensures LogLens(log1, k) == LogLens(log0, k) + Handed(Call(s0, s, base), base, k)
    {
      LogLensAppend(log, Flush(marks, base + |s|), k);
      NoBodyMark(c.state);
      FlushLens(marks, base + |s|, k);
    }
  }

  lemma FlushLens(marks: Marks, at: nat, k: Slice)
    requires Body !in marks && (k in marks ==> marks[k] <= at)
    ensures LogLens(Flush(marks, at), k) == Pending(marks, k, at)
  {
    hide LogLens, Range, CloseOne;
    var h, t := CloseOne(marks, {}, HeaderName, at), CloseOne(marks, {}, HeaderText, at);
    var f, q := CloseOne(marks, {}, Fragment, at), CloseOne(marks, {}, Query, at);
    var p, u := CloseOne(marks, {}, Path, at), CloseOne(marks, {}, Url, at);
    LogLensAppend(h, t, k);
    LogLensAppend(h + t, f, k);
    LogLensAppend(h + t + f, q, k);
    LogLensAppend(h + t + f + q, p, k);
    LogLensAppend(h + t + f + q + p, u, k);
    CloseOneLens(marks, {}, HeaderName, at, k);
    CloseOneLens(marks, {}, HeaderText, at, k);
    CloseOneLens(marks, {}, Fragment, at, k);
    CloseOneLens(marks, {}, Query, at, k);
    CloseOneLens(marks, {}, Path, at, k);
    CloseOneLens(marks, {}, Url, at, k);
  }

  /** What the loop body may rely on. */
  lemma InLoop(s0: Saved, s: seq<byte>, i: nat, base: nat, c: Core, n: nat, marks: Marks,
               log0: seq<Event>, log: seq<Event>)
    requires Progress(s0, s, i, base, c, n, marks, log0, log)
    ensures Inv(c, n) && CoreInv(c) && marks.Keys == OpenSet(c.state) && i <= |s|
    ensures c.state.BodyIdentity? || c.state.ChunkData? ==> c.contentLength > 0 && OpenSet(c.state) == {}
    ensures c.state.ChunkData? ==> c.flags.chunked
    ensures CountIsZero(c.state) ==> n == 0
    ensures !(c.state.BodyIdentity? || c.state.ChunkData?) ==> !DeliversBody(c)
  {
    hide Run, Count, Allowed, LogLens, Lens;
  }

  lemma IdentityProgress(s0: Saved, s: seq<byte>, i: nat, m: nat, base: nat, c: Core, n: nat, marks: Marks,
                         log0: seq<Event>, log: seq<Event>)
    requires Progress(s0, s, i, base, c, n, marks, log0, log)
    requires c.state.BodyIdentity? && 0 < m <= c.contentLength && i + m <= |s|
    ensures Progress(s0, s, i + m, base, SkipIdentity(c, m), n, marks, log0,
                     log + [Data(Body, base + i, base + i + m)] + Signals(SkipIdentityEvents(c, m), base + i + m - 1))
  {
    hide Progress, Run, Count, Allowed, OpenSet, NewMessage;
    IdentityBulk(c, s[i..i + m], base + i);
    IdentityUncounted(c, n, s[i..i + m]);
    NoOpenSlices(c.state);
    NewMessageState(c.(contentLength := 0));
    NoSlices(NewMessage(c.(contentLength := 0)).state);
    BulkKeepsProgress(s0, s, i, m, base, c, n, marks, log0, log, SkipIdentity(c, m), SkipIdentityEvents(c, m));
  }

  lemma ChunkProgress(s0: Saved, s: seq<byte>, i: nat, m: nat, base: nat, c: Core, n: nat, marks: Marks,
                      log0: seq<Event>, log: seq<Event>)
    requires Progress(s0, s, i, base, c, n, marks, log0, log)
    requires c.state.ChunkData? && c.flags.chunked && 0 < m <= c.contentLength < I64 && i + m <= |s|
    ensures Progress(s0, s, i + m, base, SkipChunkData(c, m), n, marks, log0,
                     log + [Data(Body, base + i, base + i + m)])
  {
    hide Progress, Run, Count, Allowed, OpenSet;
    ChunkDataBulk(c, s[i..i + m], base + i);
    ChunkDataUncounted(c, n, s[i..i + m]);
    NoOpenSlices(c.state);
    NoOpenSlices(SkipChunkData(c, m).state);
    BulkKeepsProgress(s0, s, i, m, base, c, n, marks, log0, log, SkipChunkData(c, m), []);
    var log1 := log + [Data(Body, base + i, base + i + m)];
    assert log1 + Signals([], base + i + m - 1) == log1;
  }

  /** A chunk size that is negative as a signed number. */
  lemma ChunkOverrun(s0: Saved, s: seq<byte>, i: nat, base: nat, c: Core, n: nat, marks: Marks,
                     log0: seq<Event>, log: seq<Event>)
    requires Progress(s0, s, i, base, c, n, marks, log0, log)
    requires c.state.ChunkData? && c.flags.chunked && c.contentLength >= I64 && i < |s|
    ensures var r := Call(s0, s, base);
            && r == CallResult(Saved(Abandon(s0.core, c, OutOfBounds), s0.nread), r.outs, i, OutOfBounds, marks)
            && HandedOver(log0, log, r, base)
  {
    hide Progress, Call, HandedOver, Step;
    StepCases(c, s[i]);
    assert Step(c, s[i]) == Halt(c, OutOfBounds);
    ByteStops(s0, s, i, base, c, n, marks, log0, log);
    InLoop(s0, s, i, base, c, n, marks, log0, log);
    KeepMarks(marks, c.state, base + i);
    assert log + Emitted(c, s[i], Step(c, s[i]), marks, base + i) == log;
  }
}
