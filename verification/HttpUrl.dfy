/** Request targets: how a target is cut into path, query string and fragment. */
module HttpUrl {
  import opened HttpChars
  import opened HttpAutomaton
  import opened HttpShape
  import opened HttpRun
  import opened HttpLog

  // ---------------------------------------------------------------- specification

  predicate IsMark(ch: byte) { ch == QUESTION || ch == HASH }

  /** The first byte of `t` that is one of the two marks, or the length of `t`. */
  function FirstMark(t: seq<byte>): (k: nat)
    ensures k <= |t| && (k < |t| ==> IsMark(t[k]))
    ensures forall i :: 0 <= i < k ==> !IsMark(t[i])
  {
    if t == [] then 0
    else
      var k := FirstMark(t[..|t| - 1]);
      if k < |t| - 1 || IsMark(t[|t| - 1]) then k else |t|
  }

  function FirstHash(t: seq<byte>): (k: nat)
    ensures k <= |t| && (k < |t| ==> t[k] == HASH)
    ensures forall i :: 0 <= i < k ==> t[i] != HASH
  {
    if t == [] then 0
    else
      var k := FirstHash(t[..|t| - 1]);
      if k < |t| - 1 || t[|t| - 1] == HASH then k else |t|
  }

  /** The first byte from `from` on that is not `ch`, or the length of `t`. */
  function Skip(t: seq<byte>, from: nat, ch: byte): (k: nat)
    requires from <= |t|
    ensures from <= k <= |t| && (k < |t| ==> t[k] != ch)
    ensures forall i :: from <= i < k ==> t[i] == ch
    decreases |t|
  {
    if |t| == from then from
    else
      var k := Skip(t[..|t| - 1], from, ch);
      if k < |t| - 1 || t[|t| - 1] != ch then k else |t|
  }

  /** The slice of the target `t` that callback `k` is to see, as offsets into `t`: the whole target, its
      longest prefix without marks, the text between the first `?` (and those next to it) and the first `#`, and
      the text behind the first `#` (and those next to it). */
  function SliceOf(t: seq<byte>, k: Slice): (nat, nat) {
    var p, h := FirstMark(t), FirstHash(t);
    match k
    case Url => (0, |t|)
    case Path => (0, p)
    case Query => if p < h then (Skip(t[..h], p, QUESTION), h) else (h, h)
    case Fragment => (Skip(t, h, HASH), |t|)
    case _ => (0, 0)
  }

  /** The bytes of a target: all that can be seen in ASCII. */
  predicate IsTargetByte(ch: byte) { 33 <= ch <= 126 }

  predicate IsTarget(t: seq<byte>) {
    t != [] && (t[0] == SLASH || t[0] == STAR) && forall i :: 0 <= i < |t| ==> IsTargetByte(t[i])
  }

  // ---------------------------------------------------------------- the state inside a target

  function TargetState(t: seq<byte>): State {
    var p, h := FirstMark(t), FirstHash(t);
    if p == |t| then ReqPath
    else if h == |t| then (if Skip(t, p, QUESTION) == |t| then ReqQueryStart else ReqQuery)
    else if Skip(t, h, HASH) == |t| then ReqFragmentStart
    else ReqFragment
  }

  lemma MarkBeforeHash(t: seq<byte>)
    ensures FirstMark(t) <= FirstHash(t)
    ensures FirstMark(t) < FirstHash(t) ==> t[FirstMark(t)] == QUESTION
  {
    if FirstHash(t) < |t| { assert IsMark(t[FirstHash(t)]); }
  }

  /** How one more byte moves the marks. */
  lemma MarksSnoc(t: seq<byte>, ch: byte)
    ensures FirstMark(t + [ch]) == (if FirstMark(t) < |t| || IsMark(ch) then FirstMark(t) else |t| + 1)
    ensures FirstHash(t + [ch]) == (if FirstHash(t) < |t| || ch == HASH then FirstHash(t) else |t| + 1)
  {
    assert (t + [ch])[..|t|] == t;
  }

  lemma SkipSnoc(t: seq<byte>, ch: byte, from: nat, x: byte)
    requires from <= |t|
    ensures Skip(t + [ch], from, x) == (if Skip(t, from, x) < |t| || ch != x then Skip(t, from, x) else |t| + 1)
  {
    assert (t + [ch])[..|t|] == t;
  }

  lemma SkipNone(t: seq<byte>, x: byte)
    ensures Skip(t, |t|, x) == |t|
  {
  }

  /** One more byte of the target moves the state as the automaton does. */
  lemma TargetStateSnoc(t: seq<byte>, ch: byte)
    requires t != [] && IsTargetByte(ch)
    ensures UrlMove(TargetState(t), ch) == Next(TargetState(t + [ch]))
  {
    hide FirstMark, FirstHash, Skip;
    MarkBeforeHash(t);
    MarksSnoc(t, ch);
    SkipSnoc(t, ch, FirstMark(t), QUESTION);
    SkipSnoc(t, ch, FirstHash(t), HASH);
    SkipNone(t, QUESTION);
    SkipNone(t, HASH);
  }

  /** A byte that no target may hold is an error. */
  lemma TargetRejects(t: seq<byte>, ch: byte)
    requires t != [] && !IsTargetByte(ch) && ch != SP && ch != CR && ch != LF
    ensures UrlMove(TargetState(t), ch) == Reject
  {
    hide FirstMark, FirstHash, Skip;
  }

  /** The new byte at the end of slice `(a, b)` of a target of length `n`, or no change. */
  predicate Grows(s: (nat, nat), s': (nat, nat), n: nat, open: bool) {
    if open then s'.1 == n + 1 && ((s'.0 == s.0 && s.1 == n && s.0 <= n) || (s.0 == s.1 && s'.0 == n))
    else s' == s || (s.0 == s.1 && s'.0 == s'.1)
  }

  lemma PathGrows(t: seq<byte>, ch: byte)
    requires t != [] && IsTargetByte(ch)
    ensures Grows(SliceOf(t, Url), SliceOf(t + [ch], Url), |t|, true)
    ensures Grows(SliceOf(t, Path), SliceOf(t + [ch], Path), |t|, TargetState(t + [ch]).ReqPath?)
  {
    hide FirstMark, FirstHash, Skip;
    MarksSnoc(t, ch);
  }

  lemma QueryGrows(t: seq<byte>, ch: byte)
    requires t != [] && IsTargetByte(ch)
    ensures Grows(SliceOf(t, Query), SliceOf(t + [ch], Query), |t|, TargetState(t + [ch]).ReqQuery?)
  {
    hide FirstMark, FirstHash, Skip;
    var u, h, p := t + [ch], FirstHash(t), FirstMark(t);
    MarkBeforeHash(t);
    MarkBeforeHash(u);
    MarksSnoc(t, ch);
    assert t[..|t|] == t && u[..|t|] == t && u[..|u|] == u && u[..h] == t[..h];
    SkipSnoc(t, ch, p, QUESTION);
    SkipNone(t, QUESTION);
  }

  lemma FragmentGrows(t: seq<byte>, ch: byte)
    requires t != [] && IsTargetByte(ch)
    ensures Grows(SliceOf(t, Fragment), SliceOf(t + [ch], Fragment), |t|, TargetState(t + [ch]).ReqFragment?)
  {
    hide FirstMark, FirstHash, Skip;
    var u := t + [ch];
    MarkBeforeHash(t);
    MarkBeforeHash(u);
    MarksSnoc(t, ch);
    SkipSnoc(t, ch, FirstHash(t), HASH);
    SkipNone(u, HASH);
    SkipNone(t, HASH);
  }

  lemma SliceGrows(t: seq<byte>, ch: byte, k: Slice)
    requires t != [] && IsTargetByte(ch)
    ensures Grows(SliceOf(t, k), SliceOf(t + [ch], k), |t|, IsOpen(TargetState(t + [ch]), k))
  {
    hide SliceOf, TargetState;
    InTarget(t + [ch]);
    match k {
      case Url => PathGrows(t, ch);
      case Path => PathGrows(t, ch);
      case Query => QueryGrows(t, ch);
      case Fragment => FragmentGrows(t, ch);
      case _ => OtherSlice(t, ch, k);
    }
  }

  lemma InTarget(t: seq<byte>)
    ensures var s := TargetState(t);
            s.ReqPath? || s.ReqQueryStart? || s.ReqQuery? || s.ReqFragmentStart? || s.ReqFragment?
  {
  }

  lemma OtherSlice(t: seq<byte>, ch: byte, k: Slice)
    requires k.HeaderName? || k.HeaderText? || k.Body?
    ensures SliceOf(t, k) == (0, 0) == SliceOf(t + [ch], k)
  {
  }

  // ---------------------------------------------------------------- runs

  /** The slice of the target at stream offset `at`. */
  function SliceOuts(t: seq<byte>, k: Slice, at: nat): seq<Out>
    requires SliceOf(t, k).0 <= SliceOf(t, k).1
  {
    Range(k, at + SliceOf(t, k).0, at + SliceOf(t, k).1)
  }

  lemma SliceOrdered(t: seq<byte>, k: Slice)
    ensures SliceOf(t, k).0 <= SliceOf(t, k).1 <= |t|
  {
    MarkBeforeHash(t);
    assert t[..|t|] == t;
  }

  lemma GrowsOuts(s: (nat, nat), s': (nat, nat), n: nat, open: bool, k: Slice, at: nat)
    requires s.0 <= s.1 && s'.0 <= s'.1 && Grows(s, s', n, open)
    ensures Range(k, at + s'.0, at + s'.1)
            == Range(k, at + s.0, at + s.1) + (if open then [Byte(k, at + n)] else [])
  {
  }

  /** One byte inside a target. */
  lemma TargetStep(c: Core, t: seq<byte>, ch: byte, at: nat, k: Slice)
    requires t != [] && c.state == TargetState(t)
    ensures IsTargetByte(ch) ==>
              && Step(c, ch) == To(c, TargetState(t + [ch]))
              && Lens(StepOuts(c, ch, at), k) == (if IsOpen(TargetState(t + [ch]), k) then [Byte(k, at)] else [])
    ensures !IsTargetByte(ch) && ch != SP && ch != CR && ch != LF ==> Step(c, ch).stop.Error?
  {
    hide Step, TargetState, UrlMove, IsTargetByte, Lens, CtlAt;
    InTarget(t);
    StepCases(c, ch);
    if IsTargetByte(ch) {
      TargetStateSnoc(t, ch);
      InTarget(t + [ch]);
      OutsLens(c, ch, at, k);
      assert CtlAt([], at) == [] by { CtlNone(at); }
    } else if ch != SP && ch != CR && ch != LF {
      TargetRejects(t, ch);
    }
  }

  /** A target is taken byte by byte, and every callback sees its slice of it; what is not a target is an error. */
  lemma {:induction false} TargetRun(c: Core, t: seq<byte>, at: nat, k: Slice)
    requires c.state.ReqSpacesBeforeUrl? && t != [] && (t[0] == SLASH || t[0] == STAR)
    requires SP !in t && CR !in t && LF !in t
    ensures var r := Run(c, t, at);
            if IsTarget(t) then
              r.stop.Running? && r.core == c.(state := TargetState(t))
              && SliceOf(t, k).0 <= SliceOf(t, k).1 && Lens(r.outs, k) == SliceOuts(t, k, at)
            else r.stop.Error?
    decreases |t|
  {
    hide Run, Step, StepOuts, Lens, SliceOf, TargetState, Range, IsTargetByte;
    SliceOrdered(t, k);
    if |t| == 1 {
      assert t == [t[0]];
      RunOne(c, t[0], at);
      FirstTargetStep(c, t[0], at, k);
    } else {
      var u, ch := t[..|t| - 1], t[|t| - 1];
      assert t == u + [ch] && u[0] == t[0];
      SliceOrdered(u, k);
      TargetRun(c, u, at, k);
      RunAppend(c, u, [ch], at);
      if IsTarget(u) {
        RunSnoc(c, u, ch, at);
        TargetStep(Run(c, u, at).core, u, ch, at + |u|, k);
        if IsTargetByte(ch) {
          SliceGrows(u, ch, k);
          GrowsOuts(SliceOf(u, k), SliceOf(t, k), |u|, IsOpen(TargetState(t), k), k, at);
          LensAppend(Run(c, u, at).outs, StepOuts(Run(c, u, at).core, ch, at + |u|), k);
        }
      }
    }
  }

  lemma FirstTargetStep(c: Core, ch: byte, at: nat, k: Slice)
    requires c.state.ReqSpacesBeforeUrl? && (ch == SLASH || ch == STAR)
    ensures Step(c, ch) == To(c, ReqPath) && TargetState([ch]).ReqPath? && IsTargetByte(ch)
    ensures SliceOf([ch], k).0 <= SliceOf([ch], k).1 && Lens(StepOuts(c, ch, at), k) == SliceOuts([ch], k, at)
  {
    hide Step, Lens, CtlAt;
    StepCases(c, ch);
    OutsLens(c, ch, at, k);
    CtlNone(at);
    SliceOrdered([ch], k);
    assert [ch][..0] == [];
    FirstSlices(ch);
    var (a, b) := SliceOf([ch], k);
    assert Range(k, at, at + 1) == [Byte(k, at)];
    assert a == b ==> Range(k, at + a, at + b) == [];
  }

  lemma FirstSlices(ch: byte)
    requires ch == SLASH || ch == STAR
    ensures FirstMark([ch]) == 1 == FirstHash([ch]) && Skip([ch], 1, HASH) == 1
  {
    assert [ch][..0] == [];
  }

  /** The byte behind a target hands the open slices over and adds nothing to them. */
  lemma TargetEnd(c: Core, t: seq<byte>, ch: byte, at: nat, k: Slice)
    requires t != [] && c.state == TargetState(t) && (ch == SP || ch == CR || ch == LF)
    ensures var r := Step(c, ch);
            && r.stop.Running? && Lens(StepOuts(c, ch, at), k) == []
            && r.core == (if ch == SP then c.(state := ReqHttpStart)
                          else c.(httpMajor := 0, httpMinor := 9,
                                  state := if ch == CR then ReqLineAlmostDone else HeaderFieldStart))
  {
    hide Step, Lens, CtlAt, TargetState, OpenSet, UrlMove;
    InTarget(t);
    StepCases(c, ch);
    EndOfTarget(c.state, ch);
    OutsLens(c, ch, at, k);
    CtlNone(at);
  }

  lemma EndOfTarget(s: State, ch: byte)
    requires (s.ReqPath? || s.ReqQueryStart? || s.ReqQuery? || s.ReqFragmentStart? || s.ReqFragment?)
    requires ch == SP || ch == CR || ch == LF
    ensures UrlMove(s, ch) == EndTarget(ch)
    ensures OpenSet(ReqHttpStart) == {} == OpenSet(ReqLineAlmostDone) && OpenSet(HeaderFieldStart) == {}
  {
    assert !IsUrlChar(ch);
  }

  /** URL slicing: for every accepted target that starts with its path, the four url callbacks see exactly the
      four slices of it. */
  lemma UrlSlicing(c: Core, t: seq<byte>, end: byte, at: nat, k: Slice)
    requires c.state.ReqSpacesBeforeUrl? && IsTarget(t) && (end == SP || end == CR || end == LF)
    ensures var r := Run(c, t + [end], at);
            && r.stop.Running?
            && r.core == (if end == SP then c.(state := ReqHttpStart)
                          else c.(httpMajor := 0, httpMinor := 9,
                                  state := if end == CR then ReqLineAlmostDone else HeaderFieldStart))
            && SliceOf(t, k).0 <= SliceOf(t, k).1 && Lens(r.outs, k) == SliceOuts(t, k, at)
  {
    hide Run, Step, StepOuts, Lens, SliceOf, TargetState, Range;
    TargetHoldsNoEnd(t);
    hide IsTarget;
    TargetRun(c, t, at, k);
    var r := Run(c, t, at);
    RunSnoc(c, t, end, at);
    TargetEnd(r.core, t, end, at + |t|, k);
    LensAppend(r.outs, StepOuts(r.core, end, at + |t|), k);
    assert Lens(r.outs, k) + [] == Lens(r.outs, k);
  }

  lemma TargetHoldsNoEnd(t: seq<byte>)
    requires IsTarget(t)
    ensures t != [] && (t[0] == SLASH || t[0] == STAR) && SP !in t && CR !in t && LF !in t
  {
    assert forall i :: 0 <= i < |t| ==> IsTargetByte(t[i]) ==> t[i] != SP && t[i] != CR && t[i] != LF;
  }

  /** Which targets are accepted, by the values of their bytes: behind `/` or `*`, everything that can be seen. */
  lemma TargetIff(c: Core, t: seq<byte>, at: nat)
    requires c.state.ReqSpacesBeforeUrl? && t != [] && (t[0] == 47 || t[0] == 42)
    requires 32 !in t && 13 !in t && 10 !in t
    ensures Run(c, t, at).stop.Running? <==> forall i :: 0 <= i < |t| ==> 33 <= t[i] <= 126
  {
    hide Run;
    TargetRun(c, t, at, Url);
  }
}
