/** What each part of the switch may change: frames of the step function, state group by state group. */
module HttpShape {
  import opened HttpChars
  import opened HttpAutomaton

  /** No callback, no counter reset, and the only way to stop is the error label. */
  predicate Quiet(r: StepResult) {
    r.ctl == [] && !r.reset && (r.stop.Running? || r.stop.Error?)
  }

  lemma UrlTarget(s: State, ch: byte)
    requires IsUrlState(s)
    ensures var m := UrlMove(s, ch);
            m.Next? ==> IsUrlState(m.state) || m.state.ReqHttpStart? || m.state.ReqLineAlmostDone?
                        || m.state.HeaderFieldStart?
  {
  }

  lemma UrlFrame(c: Core, ch: byte)
    requires IsUrlState(c.state)
    ensures var r := StepUrl(c, ch);
            Quiet(r)
            && r.core == c.(state := r.core.state, httpMajor := r.core.httpMajor, httpMinor := r.core.httpMinor)
  {
    hide UrlMove;
  }

  lemma LiteralTarget(s: State, ch: byte)
    requires IsLiteralState(s)
    ensures var m := LiteralMove(s, ch);
            m.Next? ==> IsLiteralState(m.state) || m.state.ResFirstMajor? || m.state.ReqFirstMajor?
                        || m.state.HeaderFieldStart?
  {
  }

  lemma NumberTarget(c: Core, ch: byte)
    requires IsNumberState(c.state)
    ensures var s := StepNumber(c, ch).core.state;
            IsNumberState(s) || s.ResStatus? || s.ResLineAlmostDone? || s.ReqLineAlmostDone? || s.HeaderFieldStart?
  {
  }

  lemma NumberFrame(c: Core, ch: byte)
    requires IsNumberState(c.state)
    ensures var r := StepNumber(c, ch);
            Quiet(r) && r.core == c.(state := r.core.state, httpMajor := r.core.httpMajor,
                                     httpMinor := r.core.httpMinor, statusCode := r.core.statusCode)
  {
  }

  /** Only the state, the index and the method differ. */
  lemma MethodFrame(c: Core, ch: byte)
    requires c.state.ReqMethod?
    ensures var r := StepMethod(c, ch);
            && r.ctl == [] && !r.reset && !r.stop.AssertFailed? && !r.stop.Upgraded?
            && r.core == c.(state := r.core.state, index := r.core.index, meth := r.core.meth)
            && (r.core.state.ReqMethod? || r.core.state.ReqSpacesBeforeUrl?)
  {
  }

  lemma MethodIndex(c: Core, ch: byte)
    requires c.state.ReqMethod? && c.index <= |MethodString(c.meth)| + 1
    ensures var r := StepMethod(c, ch); r.stop.Running? ==> r.core.index <= |MethodString(r.core.meth)| + 1 <= 12
  {
  }

  /** The first byte of a message. */
  lemma AssignMethodFrame(c: Core, ch: byte)
    ensures var r := AssignMethod(c, ch);
            && Quiet(r) && r.core.index == 1
            && r.core.state == (if r.stop.Running? then ReqMethod else c.state)
            && r.core == c.(index := 1, meth := r.core.meth, state := r.core.state)
  {
    hide FirstMethod;
  }

  /** Which part of the switch handles which state. */
  lemma StepCases(c: Core, ch: byte)
    ensures c.state.Dead? ==> Step(c, ch) == Fail(c)
    ensures IsStartState(c.state) ==> Step(c, ch) == StepStart(c, ch)
    ensures IsLiteralState(c.state) ==> Step(c, ch) == Apply(c, LiteralMove(c.state, ch))
    ensures IsNumberState(c.state) ==> Step(c, ch) == StepNumber(c, ch)
    ensures c.state.ReqMethod? ==> Step(c, ch) == StepMethod(c, ch)
    ensures IsUrlState(c.state) ==> Step(c, ch) == StepUrl(c, ch)
    ensures IsHeaderState(c.state) ==> Step(c, ch) == StepHeader(c, ch)
    ensures IsChunkState(c.state) ==> Step(c, ch) == StepChunk(c, ch)
    ensures c.state.BodyIdentity? ==> Step(c, ch) == StepIdentity(c)
    ensures c.state.BodyIdentityEof? ==> Step(c, ch) == Go(c)
  {
    hide StepStart, LiteralMove, StepNumber, StepMethod, StepUrl, StepHeader, StepChunk, StepIdentity, Apply;
  }

  /** Every state belongs to a part of the switch: the default arm of the C code is dead. */
  lemma StateGroups(s: State)
    ensures s.Dead? || IsStartState(s) || IsLiteralState(s) || IsNumberState(s) || s.ReqMethod? || IsUrlState(s)
            || IsHeaderState(s) || IsChunkState(s) || s.BodyIdentity? || s.BodyIdentityEof?
  {
  }

  /** The first byte of a message, or a line break before it. */
  lemma StartFrame(c: Core, ch: byte)
    requires IsStartState(c.state)
    ensures var r := StepStart(c, ch);
            && !r.reset && (r.stop.Running? || r.stop.Error?) && |r.ctl| <= 1
               && (r.ctl == [] || r.ctl == [MessageBegin])
            && (r.core.state.ReqMethod? || r.core.state.ResOrRespH? || r.core.state.ResH? || r.core.state.ResHT?
                || r.core.state == c.state)
  {
    hide AssignMethod;
    AssignMethodFrame(FreshMessage(c), ch);
    AssignMethodFrame(FreshMessage(c).(kind := Request), ch);
  }
}
