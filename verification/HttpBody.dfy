/** The two bulk paths over body bytes, as runs of the byte-at-a-time automaton. */
module HttpBody {
  import opened HttpChars
  import opened HttpAutomaton
  import opened HttpRun

  /** The parser after `m` body bytes in one step: the identity body. */
  function SkipIdentity(c: Core, m: nat): Core
    requires m <= c.contentLength
  {
    var d := c.(contentLength := c.contentLength - m);
    if d.contentLength == 0 then NewMessage(d) else d
  }

  function SkipIdentityEvents(c: Core, m: nat): seq<Control> {
    if m == c.contentLength then [MessageComplete] else []
  }

  /** The same for chunk data. */
  function SkipChunkData(c: Core, m: nat): Core
    requires m <= c.contentLength
  {
    c.(contentLength := c.contentLength - m, state := if m == c.contentLength then ChunkDataAlmostDone else c.state)
  }

  /** A bulk step over the bytes `s`: one `on_body` range, and the fields as after the last byte. */
  function BulkResult(c: Core, at: nat, m: nat, d: Core, ctl: seq<Control>): RunResult
    requires m > 0
  {
    RunResult(d, Range(Body, at, at + m) + CtlAt(ctl, at + m - 1), m, Running)
  }

  lemma IdentityStep(c: Core, ch: byte, at: nat)
    requires c.state.BodyIdentity? && c.contentLength > 0
    ensures var r := Step(c, ch);
            && r == StepResult(SkipIdentity(c, 1), SkipIdentityEvents(c, 1), Running, false)
            && StepOuts(c, ch, at) == [Byte(Body, at)] + CtlAt(SkipIdentityEvents(c, 1), at)
  {
    assert OpenSlices(SkipIdentity(c, 1).state) == [];
    assert [Byte(Body, at)] + CtlAt(SkipIdentityEvents(c, 1), at) + BytesAt([], at)
        == [Byte(Body, at)] + CtlAt(SkipIdentityEvents(c, 1), at);
  }

  lemma ChunkDataStep(c: Core, ch: byte, at: nat)
    requires c.state.ChunkData? && 0 < c.contentLength < I64 && c.flags.chunked
    ensures Step(c, ch) == StepResult(SkipChunkData(c, 1), [], Running, false)
    ensures StepOuts(c, ch, at) == [Byte(Body, at)]
  {
    assert OpenSlices(SkipChunkData(c, 1).state) == [];
    assert [Byte(Body, at)] + CtlAt([], at) + BytesAt([], at) == [Byte(Body, at)];
  }

  lemma RangeCons(k: Slice, from: nat, to: nat)
    requires from < to
    ensures Range(k, from, to) == [Byte(k, from)] + Range(k, from + 1, to)
  {
  }

  /** Jumping over body bytes is stepping over them one by one. */
  lemma {:induction false} IdentityBulk(c: Core, s: seq<byte>, at: nat)
    requires c.state.BodyIdentity? && 0 < |s| <= c.contentLength
    ensures Run(c, s, at) == BulkResult(c, at, |s|, SkipIdentity(c, |s|), SkipIdentityEvents(c, |s|))
    decreases |s|
  {
    hide Run, Step, StepOuts, Range, CtlAt, NewMessage;
    IdentityStep(c, s[0], at);
    RunCons(c, s, at);
    if |s| == 1 {
      RunNil(SkipIdentity(c, 1), at + 1, Run(SkipIdentity(c, 1), s[1..], at + 1));
      RangeOne(Body, at);
      assert s[1..] == [];
      assert StepOuts(c, s[0], at) + [] == StepOuts(c, s[0], at);
    } else {
      var d := SkipIdentity(c, 1);
      IdentityBulk(d, s[1..], at + 1);
      RangeCons(Body, at, at + |s|);
      BulkJoin(at, |s|, SkipIdentityEvents(c, |s|));
      CtlNone(at);
      NothingAdds();
    }
  }

  lemma BulkJoin(at: nat, m: nat, ctl: seq<Control>)
    requires m > 1
    ensures [Byte(Body, at)] + (Range(Body, at + 1, at + m) + CtlAt(ctl, at + m - 1))
            == Range(Body, at, at + m) + CtlAt(ctl, at + m - 1)
  {
    RangeCons(Body, at, at + m);
  }

  lemma {:induction false} ChunkDataBulk(c: Core, s: seq<byte>, at: nat)
    requires c.state.ChunkData? && 0 < |s| <= c.contentLength < I64 && c.flags.chunked
    ensures Run(c, s, at) == BulkResult(c, at, |s|, SkipChunkData(c, |s|), [])
    decreases |s|
  {
    hide Run, Step, StepOuts, Range, CtlAt;
    ChunkDataStep(c, s[0], at);
    RunCons(c, s, at);
    CtlNone(at + |s| - 1);
    NothingAdds();
    if |s| == 1 {
      RunNil(SkipChunkData(c, 1), at + 1, Run(SkipChunkData(c, 1), s[1..], at + 1));
      RangeOne(Body, at);
      assert s[1..] == [];
    } else {
      ChunkDataBulk(SkipChunkData(c, 1), s[1..], at + 1);
      BulkJoin(at, |s|, []);
    }
  }

  /** Body bytes do not count against the header limit. */
  lemma {:induction false} IdentityUncounted(c: Core, n: nat, s: seq<byte>)
    requires c.state.BodyIdentity? && |s| <= c.contentLength
    ensures Count(c, n, s) == n && Allowed(c, n, s) == |s|
    decreases |s|
  {
    hide Step, StepOuts;
    if s != [] {
      IdentityStep(c, s[0], 0);
      if |s| > 1 {
        IdentityUncounted(SkipIdentity(c, 1), n, s[1..]);
      }
    }
  }

  lemma {:induction false} ChunkDataUncounted(c: Core, n: nat, s: seq<byte>)
    requires c.state.ChunkData? && |s| <= c.contentLength < I64 && c.flags.chunked
    ensures Count(c, n, s) == n && Allowed(c, n, s) == |s|
    decreases |s|
  {
    hide Step, StepOuts;
    if s != [] {
      ChunkDataStep(c, s[0], 0);
      if |s| > 1 {
        ChunkDataUncounted(SkipChunkData(c, 1), n, s[1..]);
      }
    }
  }
}
