/** `http_parser` and `http_parser_execute` in the form of the C code: fields and loop variables changed in
    place, marks that are set and handed over, jumps over body bytes, and the truncating save at the end. */
module HttpParserClass {
  import opened HttpChars
  import opened HttpAutomaton
  import opened HttpShape
  import opened HttpRun
  import opened HttpInvariant
  import opened HttpBody
  import opened HttpLog
  import opened HttpCalls
  import opened HttpProgress
  import opened HttpLogGrammar

  /** The loop's local copies of parser fields, `nread` apart. */
  datatype Locals = Locals(state: State, headerState: HeaderState, index: nat)

  /** A character of a C string, with the NUL at its end. */
  function CharAt(s: seq<byte>, i: nat): byte
    requires i <= |s|
  {
    if i < |s| then s[i] else 0
  }

  class HttpParser {
    var kind: ParserType
    var flags: Flags
    var state: State
    var headerState: HeaderState
    var index: nat
    var nread: nat
    var contentLength: nat
    var httpMajor: nat
    var httpMinor: nat
    var statusCode: nat
    var meth: Method
    var upgrade: bool
    /** The callbacks made so far; every callback returns 0. */
    var log: seq<Event>

    ghost function Fields(l: Locals): Core
      reads this
    {
      Core(kind, flags, l.state, l.headerState, l.index, contentLength,
           httpMajor, httpMinor, statusCode, meth, upgrade)
    }

    ghost function View(): Saved
      reads this
    {
      Saved(Fields(Locals(state, headerState, index)), nread)
    }

    ghost predicate Valid()
      reads this
    {
      Inv(View().core, View().nread)
    }

    /** `http_parser_init`: the other fields keep whatever the memory held. */
    method Init(t: ParserType)
      requires index < 256 && contentLength < U64
      requires httpMajor < 65536 && httpMinor < 65536 && statusCode < 65536
      modifies this
      ensures Valid() && log == old(log)
      ensures View() == Saved(old(View()).core.(
                                kind := t, flags := NO_FLAGS, meth := Delete, upgrade := false,
                                state := match t
                                         case Request => StartReq
                                         case Response => StartRes
                                         case Both => StartReqOrRes),
                              0)
    {
      kind := t;
      state := if t == Request then StartReq else if t == Response then StartRes else StartReqOrRes;
      nread := 0;
      upgrade := false;
      flags := NO_FLAGS;
      meth := Delete;
    }

    /** `http_should_keep_alive` */
    method ShouldKeepAlive(ghost l: Locals) returns (b: bool)
      ensures b == KeepAlive(Fields(l))
    {
      if httpMajor > 0 && httpMinor > 0 {
        if flags.close { b := false; } else { b := true; }
      } else {
        if flags.keepAlive { b := true; } else { b := false; }
      }
    }

    /** `NEW_MESSAGE` */
    method NextMessage(l: Locals) returns (l': Locals)
      ensures Fields(l') == NewMessage(Fields(l))
    {
      var alive := ShouldKeepAlive(l);
      l' := l.(state := if !alive then Dead else if kind == Request then StartReq else StartRes);
    }

    /** `CALLBACK` */
    method Callback(k: Slice, marks: Marks, at: nat) returns (marks': Marks)
      modifies this`log
      ensures log == old(log) + CloseOne(marks, {}, k, at)
      ensures marks' == marks - {k}
    {
      if k in marks {
        log := log + [Data(k, marks[k], at)];
      }
      marks' := marks - {k};
    }

    /** `CALLBACK2` */
    method Fire(e: Control, at: nat)
      modifies this`log
      ensures log == old(log) + [Signal(e, at)]
    {
      log := log + [Signal(e, at)];
    }

    // -------------------------------------------------------------- first byte and method

    /** The label `start_req_method_assign`. */
    method AssignMethodByte(ch: byte, l: Locals) returns (l': Locals, stop: Stop)
      modifies this`meth
      ensures var r := AssignMethod(old(Fields(l)), ch); Fields(l') == r.core && stop == r.stop
    {
      meth := Delete;
      l', stop := l.(index := 1), Running;
      match ch {
        case 67 => meth := Connect;
        case 68 => meth := Delete;
        case 71 => meth := Get;
        case 72 => meth := Head;
        case 76 => meth := Lock;
        case 77 => meth := Mkcol;
        case 78 => meth := Notify;
        case 79 => meth := Options;
        case 80 => meth := Post;
        case 82 => meth := Report;
        case 83 => meth := Subscribe;
        case 84 => meth := Trace;
        case 85 => meth := Unlock;
        case _ =>
          stop := Error;
          return;
      }
      l' := l'.(state := ReqMethod);
    }

    method OnStart(ch: byte, l: Locals, at: nat) returns (l': Locals, stop: Stop)
      requires IsStartState(l.state)
      modifies this`kind, this`flags, this`contentLength, this`meth, this`log
      ensures var r := StepStart(old(Fields(l)), ch);
              Fields(l') == r.core && stop == r.stop && log == old(log) + Signals(r.ctl, at)
    {
      l', stop := l, Running;
      match l.state {
        case StartReqOrRes =>
          if ch == CR || ch == LF { return; }
          flags := NO_FLAGS;
          contentLength := U64 - 1;
          Fire(MessageBegin, at);
          if ch == 72 {
            l' := l.(state := ResOrRespH);
          } else {
            kind := Request;
            l', stop := AssignMethodByte(ch, l);
          }
        case ResOrRespH =>
          if ch == 84 {
            kind := Response;
            l' := l.(state := ResHT);
          } else {
            if ch != 69 { stop := Error; return; }
            kind := Request;
            meth := Head;
            l' := l.(index := 2, state := ReqMethod);
          }
        case StartRes =>
          flags := NO_FLAGS;
          contentLength := U64 - 1;
          Fire(MessageBegin, at);
          if ch == 72 {
            l' := l.(state := ResH);
          } else if ch != CR && ch != LF {
            stop := Error;
          }
        case StartReq =>
          if ch == CR || ch == LF { return; }
          flags := NO_FLAGS;
          contentLength := U64 - 1;
          Fire(MessageBegin, at);
          if ch < 65 || 90 < ch { stop := Error; return; }
          l', stop := AssignMethodByte(ch, l);
      }
    }

    method OnMethod(ch: byte, l: Locals) returns (l': Locals, stop: Stop)
      requires l.state.ReqMethod?
      modifies this`meth
      ensures var r := StepMethod(old(Fields(l)), ch); Fields(l') == r.core && stop == r.stop
    {
      l', stop := l, Running;
      if ch == 0 { stop := Error; return; }
      var matcher := MethodString(meth);
      if l.index > |matcher| { stop := OutOfBounds; return; }
      if ch == SP && CharAt(matcher, l.index) == 0 {
        MethodStringHasNoNul(meth);
        l' := l'.(state := ReqSpacesBeforeUrl);
      } else if ch == CharAt(matcher, l.index) {
      } else if meth == Connect {
        if l.index == 1 && ch == 72 { meth := Checkout; } else if l.index == 2 && ch == 80 { meth := Copy; }
      } else if meth == Mkcol {
        if l.index == 1 && ch == 79 { meth := Move; }
        else if l.index == 1 && ch == 69 { meth := Merge; }
        else if l.index == 1 && ch == DASH { meth := Msearch; }
        else if l.index == 2 && ch == 65 { meth := Mkactivity; }
      } else if l.index == 1 && meth == Post && ch == 82 {
        meth := Propfind;
      } else if l.index == 1 && meth == Post && ch == 85 {
        meth := Put;
      } else if l.index == 2 && meth == Unlock && ch == 83 {
        meth := Unsubscribe;
      } else if l.index == 4 && meth == Propfind && ch == 80 {
        meth := Proppatch;
      } else {
        stop := Error;
        return;
      }
      l' := l'.(index := l'.index + 1);
    }

    // -------------------------------------------------------------- versions and the status line

    method OnLiteral(ch: byte, l: Locals) returns (l': Locals, stop: Stop)
      requires IsLiteralState(l.state)
      ensures var r := Apply(Fields(l), LiteralMove(l.state, ch)); Fields(l') == r.core && stop == r.stop
    {
      l', stop := l, Running;
      match l.state {
        case ResH => if ch != 84 { stop := Error; return; } l' := l.(state := ResHT);
        case ResHT => if ch != 84 { stop := Error; return; } l' := l.(state := ResHTT);
        case ResHTT => if ch != 80 { stop := Error; return; } l' := l.(state := ResHTTP);
        case ResHTTP => if ch != SLASH { stop := Error; return; } l' := l.(state := ResFirstMajor);
        case ResStatus =>
          if ch == CR { l' := l.(state := ResLineAlmostDone); return; }
          if ch == LF { l' := l.(state := HeaderFieldStart); return; }
        case ResLineAlmostDone => if ch != LF { stop := Error; return; } l' := l.(state := HeaderFieldStart);
        case ReqHttpStart =>
          match ch {
            case 72 => l' := l.(state := ReqHttpH);
            case 32 =>
            case _ => stop := Error;
          }
        case ReqHttpH => if ch != 84 { stop := Error; return; } l' := l.(state := ReqHttpHT);
        case ReqHttpHT => if ch != 84 { stop := Error; return; } l' := l.(state := ReqHttpHTT);
        case ReqHttpHTT => if ch != 80 { stop := Error; return; } l' := l.(state := ReqHttpHTTP);
        case ReqHttpHTTP => if ch != SLASH { stop := Error; return; } l' := l.(state := ReqFirstMajor);
        case ReqLineAlmostDone => if ch != LF { stop := Error; return; } l' := l.(state := HeaderFieldStart);
      }
    }

    /** Response and request numbers share this code; `toDot` and the ends of the number differ. */
    method OnMajor(ch: byte, l: Locals) returns (l': Locals, stop: Stop)
      requires l.state.ResMajor? || l.state.ReqMajor?
      modifies this`httpMajor
      ensures var r := StepNumber(old(Fields(l)), ch); Fields(l') == r.core && stop == r.stop
    {
      l', stop := l, Running;
      if ch == DOT {
        l' := l.(state := if l.state.ResMajor? then ResFirstMinor else ReqFirstMinor);
        return;
      }
      if ch < 48 || ch > 57 { stop := Error; return; }
      httpMajor := httpMajor * 10;
      httpMajor := httpMajor + (ch - 48);
      if httpMajor > 999 { stop := Error; }
    }

    method OnMinor(ch: byte, l: Locals) returns (l': Locals, stop: Stop)
      requires l.state.ResMinor? || l.state.ReqMinor?
      modifies this`httpMinor
      ensures var r := StepNumber(old(Fields(l)), ch); Fields(l') == r.core && stop == r.stop
    {
      l', stop := l, Running;
      if l.state.ResMinor? {
        if ch == SP { l' := l.(state := ResFirstStatus); return; }
      } else {
        if ch == CR { l' := l.(state := ReqLineAlmostDone); return; }
        if ch == LF { l' := l.(state := HeaderFieldStart); return; }
      }
      if ch < 48 || ch > 57 { stop := Error; return; }
      httpMinor := httpMinor * 10;
      httpMinor := httpMinor + (ch - 48);
      if httpMinor > 999 { stop := Error; }
    }

    method OnStatusCode(ch: byte, l: Locals) returns (l': Locals, stop: Stop)
      requires l.state.ResStatusCode?
      modifies this`statusCode
      ensures var r := StepNumber(old(Fields(l)), ch); Fields(l') == r.core && stop == r.stop
    {
      l', stop := l, Running;
      if ch < 48 || ch > 57 {
        match ch {
          case 32 => l' := l.(state := ResStatus);
          case 13 => l' := l.(state := ResLineAlmostDone);
          case 10 => l' := l.(state := HeaderFieldStart);
          case _ => stop := Error;
        }
        return;
      }
      statusCode := statusCode * 10;
      statusCode := statusCode + (ch - 48);
      if statusCode > 999 { stop := Error; }
    }

    method OnNumber(ch: byte, l: Locals) returns (l': Locals, stop: Stop)
      requires IsNumberState(l.state)
      modifies this`httpMajor, this`httpMinor, this`statusCode
      ensures var r := StepNumber(old(Fields(l)), ch); Fields(l') == r.core && stop == r.stop
    {
      l', stop := l, Running;
      match l.state {
        case ResFirstMajor =>
          if ch < 49 || ch > 57 { stop := Error; return; }
          httpMajor := ch - 48;
          l' := l.(state := ResMajor);
        case ReqFirstMajor =>
          if ch < 49 || ch > 57 { stop := Error; return; }
          httpMajor := ch - 48;
          l' := l.(state := ReqMajor);
        case ResFirstMinor =>
          if ch < 48 || ch > 57 { stop := Error; return; }
          httpMinor := ch - 48;
          l' := l.(state := ResMinor);
        case ReqFirstMinor =>
          if ch < 48 || ch > 57 { stop := Error; return; }
          httpMinor := ch - 48;
          l' := l.(state := ReqMinor);
        case ResFirstStatus =>
          if ch < 48 || ch > 57 {
            if ch != SP { stop := Error; }
            return;
          }
          statusCode := ch - 48;
          l' := l.(state := ResStatusCode);
        case ResMajor => l', stop := OnMajor(ch, l);
        case ReqMajor => l', stop := OnMajor(ch, l);
        case ResMinor => l', stop := OnMinor(ch, l);
        case ReqMinor => l', stop := OnMinor(ch, l);
        case ResStatusCode => l', stop := OnStatusCode(ch, l);
      }
    }

    // -------------------------------------------------------------- the request target

    method OnSpaces(ch: byte, l: Locals, marks: Marks, at: nat) returns (l': Locals, marks': Marks, stop: Stop)
      requires l.state.ReqSpacesBeforeUrl? && marks.Keys == OpenSet(l.state)
      ensures var r := StepUrl(old(Fields(l)), ch);
              && Fields(l') == r.core && stop == r.stop
              && log == old(log) + Closing(marks, if stop.Running? then OpenSet(l'.state) else marks.Keys, at)
              && (stop.Running? ==> marks' == MarksAfter(marks, l'.state, at))
    {
      hide OpenSet, MarksAfter, Closing;
      OpenSetOf(l.state);
      KeepMarks(marks, l.state, at);
      l', marks', stop := l, marks, Running;
      if ch == SP { return; }
      if ch == SLASH || ch == STAR {
        marks' := marks'[Url := at];
        marks' := marks'[Path := at];
        l' := l.(state := ReqPath);
        OpenTwo(marks, at);
        return;
      }
      if !(97 <= Lower(ch) <= 122) { stop := Error; return; }
      marks' := marks'[Url := at];
      l' := l.(state := ReqSchema);
      OpenSetOf(ReqSchema);
      OpenOne(marks, ReqSchema, Url, at);
    }

    method OnSchema(ch: byte, l: Locals, marks: Marks, at: nat) returns (l': Locals, marks': Marks, stop: Stop)
      requires l.state.ReqSchema? || l.state.ReqSchemaSlash? || l.state.ReqSchemaSlashSlash?
      requires marks.Keys == OpenSet(l.state)
      ensures var r := StepUrl(old(Fields(l)), ch);
              && Fields(l') == r.core && stop == r.stop
              && log == old(log) + Closing(marks, if stop.Running? then OpenSet(l'.state) else marks.Keys, at)
              && (stop.Running? ==> marks' == MarksAfter(marks, l'.state, at))
    {
      hide OpenSet, MarksAfter, Closing;
      OpenSetOf(l.state);
      KeepMarks(marks, l.state, at);
      l', marks', stop := l, marks, Running;
      match l.state {
        case ReqSchema =>
          if 97 <= Lower(ch) <= 122 { return; }
          if ch == COLON { l' := l.(state := ReqSchemaSlash); }
          else if ch == DOT { l' := l.(state := ReqHost); }
          else if 48 <= ch <= 57 { l' := l.(state := ReqHost); }
          else { stop := Error; return; }
        case ReqSchemaSlash => if ch != SLASH { stop := Error; return; } l' := l.(state := ReqSchemaSlashSlash);
        case _ => if ch != SLASH { stop := Error; return; } l' := l.(state := ReqHost);
      }
      OpenSetOf(l'.state);
      KeepMarks(marks, l'.state, at);
    }

    method OnHost(ch: byte, l: Locals, marks: Marks, at: nat) returns (l': Locals, marks': Marks, stop: Stop)
      requires l.state.ReqHost? || l.state.ReqPort?
      requires marks.Keys == OpenSet(l.state)
      modifies this`log
      ensures var r := StepUrl(old(Fields(l)), ch);
              && Fields(l') == r.core && stop == r.stop
              && log == old(log) + Closing(marks, if stop.Running? then OpenSet(l'.state) else marks.Keys, at)
              && (stop.Running? ==> marks' == MarksAfter(marks, l'.state, at))
    {
      hide OpenSet, MarksAfter, Closing;
      OpenSetOf(l.state);
      KeepMarks(marks, l.state, at);
      l', marks', stop := l, marks, Running;
      if l.state.ReqHost? {
        if 97 <= Lower(ch) <= 122 { return; }
        if (48 <= ch <= 57) || ch == DOT || ch == DASH { return; }
      } else {
        if 48 <= ch <= 57 { return; }
      }
      if l.state.ReqHost? && ch == COLON {
        l' := l.(state := ReqPort);
        OpenSetOf(ReqPort);
        KeepMarks(marks, ReqPort, at);
      } else if ch == SLASH {
        marks' := marks'[Path := at];
        l' := l.(state := ReqPath);
        OpenSetOf(ReqPath);
        OpenOne(marks, ReqPath, Path, at);
      } else if ch == SP {
        marks' := Callback(Url, marks', at);
        l' := l.(state := ReqHttpStart);
        OpenSetOf(ReqHttpStart);
        CloseAll(marks, ReqHttpStart, Path, at);
      } else {
        stop := Error;
      }
    }

    /** The bytes that end a target in the path, query string or fragment; `k` is the slice that ends with it. */
    method OnTargetEnd(ch: byte, l: Locals, k: Slice, marks: Marks, at: nat)
      returns (l': Locals, marks': Marks, stop: Stop)
      requires marks.Keys == OpenSet(l.state) && Url in marks
      requires marks.Keys <= {Url, k} && !k.Body? && !k.Url?
      modifies this`log, this`httpMajor, this`httpMinor
      ensures var c := old(Fields(l));
              var m := EndTarget(ch);
              var r := Apply(if ch == CR || ch == LF then c.(httpMajor := 0, httpMinor := 9) else c, m);
              && Fields(l') == r.core && stop == r.stop
              && log == old(log) + Closing(marks, if stop.Running? then OpenSet(l'.state) else marks.Keys, at)
              && (stop.Running? ==> marks' == MarksAfter(marks, l'.state, at))
    {
      hide OpenSet, MarksAfter, Closing;
      KeepMarks(marks, l.state, at);
      l', marks', stop := l, marks, Running;
      if ch != SP && ch != CR && ch != LF { stop := Error; return; }
      marks' := Callback(Url, marks', at);
      marks' := Callback(k, marks', at);
      if ch == SP {
        l' := l.(state := ReqHttpStart);
      } else {
        httpMajor := 0;
        httpMinor := 9;
        l' := l.(state := if ch == CR then ReqLineAlmostDone else HeaderFieldStart);
      }
      OpenSetOf(l'.state);
      CloseAll(marks, l'.state, k, at);
    }

    method OnPath(ch: byte, l: Locals, marks: Marks, at: nat) returns (l': Locals, marks': Marks, stop: Stop)
      requires l.state.ReqPath? && marks.Keys == OpenSet(l.state)
      modifies this`log, this`httpMajor, this`httpMinor
      ensures var r := StepUrl(old(Fields(l)), ch);
              && Fields(l') == r.core && stop == r.stop
              && log == old(log) + Closing(marks, if stop.Running? then OpenSet(l'.state) else marks.Keys, at)
              && (stop.Running? ==> marks' == MarksAfter(marks, l'.state, at))
    {
      hide OpenSet, MarksAfter, Closing;
      OpenSetOf(l.state);
      KeepMarks(marks, l.state, at);
      l', marks', stop := l, marks, Running;
      if IsUrlChar(ch) { return; }
      if ch == QUESTION || ch == HASH {
        marks' := Callback(Path, marks', at);
        l' := l.(state := if ch == QUESTION then ReqQueryStart else ReqFragmentStart);
        OpenSetOf(l'.state);
        CloseInner(marks, l'.state, Path, at);
      } else {
        l', marks', stop := OnTargetEnd(ch, l, Path, marks, at);
      }
    }

    method OnQuery(ch: byte, l: Locals, marks: Marks, at: nat) returns (l': Locals, marks': Marks, stop: Stop)
      requires l.state.ReqQueryStart? || l.state.ReqQuery?
      requires marks.Keys == OpenSet(l.state)
      modifies this`log, this`httpMajor, this`httpMinor
      ensures var r := StepUrl(old(Fields(l)), ch);
              && Fields(l') == r.core && stop == r.stop
              && log == old(log) + Closing(marks, if stop.Running? then OpenSet(l'.state) else marks.Keys, at)
              && (stop.Running? ==> marks' == MarksAfter(marks, l'.state, at))
    {
      hide OpenSet, MarksAfter, Closing;
      OpenSetOf(l.state);
      KeepMarks(marks, l.state, at);
      l', marks', stop := l, marks, Running;
      if l.state.ReqQueryStart? {
        if IsUrlChar(ch) {
          marks' := marks'[Query := at];
          l' := l.(state := ReqQuery);
          OpenSetOf(ReqQuery);
          OpenOne(marks, ReqQuery, Query, at);
        } else if ch == QUESTION {
        } else if ch == HASH {
          l' := l.(state := ReqFragmentStart);
          OpenSetOf(ReqFragmentStart);
          KeepMarks(marks, ReqFragmentStart, at);
        } else {
          l', marks', stop := OnTargetEnd(ch, l, Path, marks, at);
        }
      } else {
        if IsUrlChar(ch) || ch == QUESTION { return; }
        if ch == HASH {
          marks' := Callback(Query, marks', at);
          l' := l.(state := ReqFragmentStart);
          OpenSetOf(ReqFragmentStart);
          CloseInner(marks, ReqFragmentStart, Query, at);
        } else {
          l', marks', stop := OnTargetEnd(ch, l, Query, marks, at);
        }
      }
    }

    method OnFragment(ch: byte, l: Locals, marks: Marks, at: nat) returns (l': Locals, marks': Marks, stop: Stop)
      requires l.state.ReqFragmentStart? || l.state.ReqFragment?
      requires marks.Keys == OpenSet(l.state)
      modifies this`log, this`httpMajor, this`httpMinor
      ensures var r := StepUrl(old(Fields(l)), ch);
              && Fields(l') == r.core && stop == r.stop
              && log == old(log) + Closing(marks, if stop.Running? then OpenSet(l'.state) else marks.Keys, at)
              && (stop.Running? ==> marks' == MarksAfter(marks, l'.state, at))
    {
      hide OpenSet, MarksAfter, Closing;
      OpenSetOf(l.state);
      KeepMarks(marks, l.state, at);
      l', marks', stop := l, marks, Running;
      if l.state.ReqFragmentStart? {
        if IsUrlChar(ch) || ch == QUESTION {
          marks' := marks'[Fragment := at];
          l' := l.(state := ReqFragment);
          OpenSetOf(ReqFragment);
          OpenOne(marks, ReqFragment, Fragment, at);
        } else if ch == HASH {
        } else {
          l', marks', stop := OnTargetEnd(ch, l, Path, marks, at);
        }
      } else {
        if IsUrlChar(ch) || ch == QUESTION || ch == HASH { return; }
        l', marks', stop := OnTargetEnd(ch, l, Fragment, marks, at);
      }
    }

    method OnUrl(ch: byte, l: Locals, marks: Marks, at: nat) returns (l': Locals, marks': Marks, stop: Stop)
      requires IsUrlState(l.state) && marks.Keys == OpenSet(l.state)
      modifies this`log, this`httpMajor, this`httpMinor
      ensures var r := StepUrl(old(Fields(l)), ch);
              && Fields(l') == r.core && stop == r.stop
              && log == old(log) + Closing(marks, if stop.Running? then OpenSet(l'.state) else marks.Keys, at)
              && (stop.Running? ==> marks' == MarksAfter(marks, l'.state, at))
    {
      hide OpenSet, MarksAfter, Closing, StepUrl;
      match l.state {
        case ReqSpacesBeforeUrl => l', marks', stop := OnSpaces(ch, l, marks, at);
        case ReqPath => l', marks', stop := OnPath(ch, l, marks, at);
        case ReqQueryStart => l', marks', stop := OnQuery(ch, l, marks, at);
        case ReqQuery => l', marks', stop := OnQuery(ch, l, marks, at);
        case ReqFragmentStart => l', marks', stop := OnFragment(ch, l, marks, at);
        case ReqFragment => l', marks', stop := OnFragment(ch, l, marks, at);
        case ReqHost => l', marks', stop := OnHost(ch, l, marks, at);
        case ReqPort => l', marks', stop := OnHost(ch, l, marks, at);
        case _ => l', marks', stop := OnSchema(ch, l, marks, at);
      }
    }

    // -------------------------------------------------------------- header lines

    /** The switch over `header_state` for a name byte; `c` is its token. */
    method MatchName(ch: byte, c: byte, l: Locals) returns (l': Locals)
      requires c == Token(ch) && c != 0
      requires IsNameState(l.headerState) && MatchBound(l.headerState, l.index)
      ensures var n := StepName(l.headerState, l.index, c); l' == l.(headerState := n.0, index := n.1)
    {
      var hs, ix := l.headerState, l.index;
      match hs {
        case General =>
        case MatchC =>
          ix := ix + 1;
          hs := if c == 111 then MatchCO else General;
        case MatchCO =>
          ix := ix + 1;
          hs := if c == 110 then MatchCON else General;
        case MatchCON =>
          ix := ix + 1;
          match c {
            case 110 => hs := MatchingConnection;
            case 116 => hs := MatchingContentLength;
            case _ => hs := General;
          }
        case MatchingConnection => hs, ix := MatchNext(WORD_CONNECTION, c, ix, hs, IsConnection);
        case MatchingProxyConnection => hs, ix := MatchNext(WORD_PROXY_CONNECTION, c, ix, hs, IsConnection);
        case MatchingContentLength => hs, ix := MatchNext(WORD_CONTENT_LENGTH, c, ix, hs, IsContentLength);
        case MatchingTransferEncoding => hs, ix := MatchNext(WORD_TRANSFER_ENCODING, c, ix, hs, IsTransferEncoding);
        case MatchingUpgrade => hs, ix := MatchNext(WORD_UPGRADE, c, ix, hs, IsUpgrade);
        case _ => if ch != SP { hs := General; }
      }
      l' := l.(headerState := hs, index := ix);
    }

    /** The body that every `h_matching_*` case repeats. */
    method MatchNext(word: seq<byte>, c: byte, index: nat, same: HeaderState, found: HeaderState)
      returns (hs: HeaderState, ix: nat)
      requires index < |word| - 1 && c != 0
      ensures hs == MatchWord(word, index, c, same, found) && ix == index + 1
    {
      hs, ix := same, index + 1;
      if ix > |word| || c != CharAt(word, ix) {
        hs := General;
      } else if ix == |word| - 1 {
        hs := found;
      }
    }

    method OnHeaderField(ch: byte, l: Locals, marks: Marks, at: nat) returns (l': Locals, marks': Marks, stop: Stop)
      requires l.state.HeaderField? && marks.Keys == OpenSet(l.state)
      requires IsNameState(l.headerState) && MatchBound(l.headerState, l.index)
      modifies this`log
      ensures var r := StepHeaderField(old(Fields(l)), ch);
              && Fields(l') == r.core && stop == r.stop
              && log == old(log) + Closing(marks, if stop.Running? then OpenSet(l'.state) else marks.Keys, at)
              && (stop.Running? ==> marks' == MarksAfter(marks, l'.state, at))
    {
      hide OpenSet, MarksAfter, Closing, StepName;
      OpenSetOf(l.state);
      KeepMarks(marks, l.state, at);
      l', marks', stop := l, marks, Running;
      var c := Token(ch);
      if c != 0 {
        l' := MatchName(ch, c, l);
        return;
      }
      if ch == COLON {
        marks' := Callback(HeaderName, marks', at);
        l' := l.(state := HeaderValueStart);
      } else if ch == CR {
        l' := l.(state := HeaderAlmostDone);
        marks' := Callback(HeaderName, marks', at);
      } else if ch == LF {
        marks' := Callback(HeaderName, marks', at);
        l' := l.(state := HeaderFieldStart);
      } else {
        stop := Error;
        return;
      }
      OpenSetOf(l'.state);
      CloseAll(marks, l'.state, HeaderName, at);
      assert marks - {Url} == marks;
    }

    method OnHeaderValueStart(ch: byte, l: Locals, marks: Marks, at: nat)
      returns (l': Locals, marks': Marks, stop: Stop)
      requires l.state.HeaderValueStart? && marks == map[]
      modifies this`log, this`flags, this`contentLength
      ensures var r := StepHeaderValueStart(old(Fields(l)), ch);
              && Fields(l') == r.core && stop == r.stop
              && log == old(log) + (if ch == CR || ch == LF then [Data(HeaderText, at, at)] else [])
              && (stop.Running? ==> marks' == MarksAfter(marks, l'.state, at))
    {
      hide OpenSet, MarksAfter, Closing;
      OpenSetOf(HeaderValueStart);
      OpenSetOf(HeaderValue);
      OpenSetOf(HeaderAlmostDone);
      OpenSetOf(HeaderFieldStart);
      KeepMarks(marks, HeaderValueStart, at);
      OpenOne(marks, HeaderValue, HeaderText, at);
      KeepMarks(marks, HeaderAlmostDone, at);
      KeepMarks(marks, HeaderFieldStart, at);
      l', marks', stop := l, marks, Running;
      if ch == SP { return; }
      marks' := marks'[HeaderText := at];
      l' := l.(state := HeaderValue, index := 0);
      var c := Lower(ch);
      if ch == CR {
        marks' := Callback(HeaderText, marks', at);
        assert marks' == map[];
        l' := l'.(headerState := General, state := HeaderAlmostDone);
        return;
      }
      if ch == LF {
        marks' := Callback(HeaderText, marks', at);
        assert marks' == map[];
        l' := l'.(state := HeaderFieldStart);
        return;
      }
      match l.headerState {
        case IsUpgrade =>
          flags := flags.(upgrade := true);
          l' := l'.(headerState := General);
        case IsTransferEncoding =>
          l' := l'.(headerState := if 99 == c then MatchingChunked else General);
        case IsContentLength =>
          if ch < 48 || ch > 57 { stop := Error; return; }
          contentLength := ch - 48;
        case IsConnection =>
          if c == 107 {
            l' := l'.(headerState := MatchingKeepAlive);
          } else if c == 99 {
            l' := l'.(headerState := MatchingClose);
          } else {
            l' := l'.(headerState := General);
          }
        case _ => l' := l'.(headerState := General);
      }
    }

    /** The label `header_almost_done`, reached with its line feed. */
    method EndLine(l: Locals) returns (l': Locals)
      modifies this`flags
      ensures Fields(l') == old(Fields(l)).(flags := LineFlags(old(flags), l.headerState), state := HeaderFieldStart)
    {
      l' := l.(state := HeaderFieldStart);
      match l.headerState {
        case ValueKeepAlive => flags := flags.(keepAlive := true);
        case ValueClose => flags := flags.(close := true);
        case ValueChunked => flags := flags.(chunked := true);
        case _ =>
      }
    }

    /** The switch over `header_state` for a value byte outside a content length. */
    method MatchValue(ch: byte, c: byte, l: Locals) returns (l': Locals)
      requires IsValueState(l.headerState) && MatchBound(l.headerState, l.index) && !l.headerState.IsContentLength?
      requires c == Lower(ch) && ch != CR && c != 0
      ensures var v := StepValue(l.headerState, l.index, c, ch); l' == l.(headerState := v.0, index := v.1)
    {
      var hs, ix := l.headerState, l.index;
      match hs {
        case General =>
        case MatchingChunked => hs, ix := MatchNext(WORD_CHUNKED, c, ix, hs, ValueChunked);
        case MatchingKeepAlive => hs, ix := MatchNext(WORD_KEEP_ALIVE, c, ix, hs, ValueKeepAlive);
        case MatchingClose => hs, ix := MatchNext(WORD_CLOSE, c, ix, hs, ValueClose);
        case _ => if ch != SP { hs := General; }
      }
      l' := l.(headerState := hs, index := ix);
    }

    method OnHeaderValue(ch: byte, l: Locals, marks: Marks, at: nat) returns (l': Locals, marks': Marks, stop: Stop)
      requires l.state.HeaderValue? && marks.Keys == OpenSet(l.state)
      requires IsValueState(l.headerState) && MatchBound(l.headerState, l.index)
      modifies this`log, this`flags, this`contentLength
      ensures var r := StepHeaderValue(old(Fields(l)), ch);
              && Fields(l') == r.core && stop == r.stop
              && log == old(log) + Closing(marks, if stop.Running? then OpenSet(l'.state) else marks.Keys, at)
              && (stop.Running? ==> marks' == MarksAfter(marks, l'.state, at))
    {
      hide OpenSet, MarksAfter, Closing, StepValue;
      OpenSetOf(l.state);
      KeepMarks(marks, l.state, at);
      l', marks', stop := l, marks, Running;
      if ch == CR || ch == LF {
        OpenSetOf(HeaderAlmostDone);
        OpenSetOf(HeaderFieldStart);
        CloseAll(marks, if ch == CR then HeaderAlmostDone else HeaderFieldStart, HeaderText, at);
        assert marks - {Url} == marks;
        marks' := Callback(HeaderText, marks', at);
        if ch == CR {
          l' := l.(state := HeaderAlmostDone);
        } else {
          l' := EndLine(l);
        }
      } else if l.headerState.IsContentLength? {
        if ch == SP { return; }
        if ch < 48 || ch > 57 { stop := Error; return; }
        contentLength := contentLength * 10 % U64;
        contentLength := (contentLength + (ch - 48)) % U64;
        TwoWraps(old(contentLength) * 10, ch - 48);
      } else {
        // The assertion of the C code: these sub-states never meet a value byte.
        assert !l.headerState.IsConnection? && !l.headerState.IsTransferEncoding?;
        l' := MatchValue(ch, Lower(ch), l);
      }
    }

    /** The label `headers_almost_done`, reached with its line feed; `n` is the local `nread`. */
    method FinishHeaders(l: Locals, n: nat, at: nat) returns (l': Locals, n': nat, stop: Stop)
      modifies this`log, this`upgrade
      ensures var r := EndHeaders(old(Fields(l)));
              && Fields(l') == r.core && stop == r.stop && log == old(log) + Signals(r.ctl, at)
              && n' == (if r.reset then 0 else n)
    {
      l', n', stop := l, n, Running;
      if flags.trailing {
        Fire(MessageComplete, at);
        l' := NextMessage(l);
        return;
      }
      n' := 0;
      if flags.upgrade || meth == Connect {
        upgrade := true;
      }
      Fire(HeadersComplete, at);
      if upgrade {
        Fire(MessageComplete, at);
        stop := Upgraded;
        return;
      }
      if flags.skipBody {
        Fire(MessageComplete, at);
        l' := NextMessage(l);
      } else if flags.chunked {
        l' := l.(state := ChunkSizeStart);
      } else {
        if contentLength == 0 {
          Fire(MessageComplete, at);
          l' := NextMessage(l);
        } else {
          // `content_length > 0`: the third arm of the C code is dead, the field being unsigned.
          l' := l.(state := BodyIdentity);
        }
      }
    }

    /** The switch on the first byte of a name; `c` is its token. */
    method StartName(c: byte, l: Locals) returns (l': Locals)
      ensures l' == l.(index := 0, state := HeaderField, headerState := FirstNameState(c))
    {
      l' := l.(index := 0, state := HeaderField);
      match c {
        case 99 => l' := l'.(headerState := MatchC);
        case 112 => l' := l'.(headerState := MatchingProxyConnection);
        case 116 => l' := l'.(headerState := MatchingTransferEncoding);
        case 117 => l' := l'.(headerState := MatchingUpgrade);
        case _ => l' := l'.(headerState := General);
      }
    }

    method OnHeader(ch: byte, l: Locals, n: nat, marks: Marks, at: nat)
      returns (l': Locals, n': nat, marks': Marks, stop: Stop)
      requires IsHeaderState(l.state) && marks.Keys == OpenSet(l.state)
      requires HeaderInv(Fields(l))
      modifies this`log, this`flags, this`contentLength, this`upgrade
      ensures var c := old(Fields(l));
              var r := StepHeader(c, ch);
              && Fields(l') == r.core && stop == r.stop
              && log == old(log) + Emitted(c, ch, r, marks, at)
              && (stop.Running? ==> marks' == MarksAfter(marks, l'.state, at))
              && n' == (if r.reset then 0 else n)
    {
      hide OpenSet, MarksAfter, Closing, StepHeaderField, StepHeaderValueStart, StepHeaderValue, EndHeaders, MatchBound;
      OpenSetOf(l.state);
      KeepMarks(marks, l.state, at);
      l', n', marks', stop := l, n, marks, Running;
      match l.state {
        case HeaderFieldStart =>
          if ch == CR {
            l' := l.(state := HeadersAlmostDone);
            OpenSetOf(HeadersAlmostDone);
            KeepMarks(marks, HeadersAlmostDone, at);
          } else if ch == LF {
            l' := l.(state := HeadersAlmostDone);
            l', n', stop := FinishHeaders(l', n, at);
            FinishedMarks(old(Fields(l)).(state := HeadersAlmostDone), marks, at);
          } else {
            var c := Token(ch);
            if c == 0 { stop := Error; return; }
            marks' := marks'[HeaderName := at];
            l' := StartName(c, l);
            OpenSetOf(HeaderField);
            OpenOne(marks, HeaderField, HeaderName, at);
          }
        case HeaderField =>
          l', marks', stop := OnHeaderField(ch, l, marks, at);
          NoSignals(old(Fields(l)), ch);
        case HeaderValueStart =>
          assert marks == map[];
          l', marks', stop := OnHeaderValueStart(ch, l, marks, at);
          NoSignals(old(Fields(l)), ch);
          OpenFromValueStart(old(Fields(l)), ch, marks, at);
        case HeaderValue =>
          l', marks', stop := OnHeaderValue(ch, l, marks, at);
          NoSignals(old(Fields(l)), ch);
        case HeaderAlmostDone =>
          if ch != LF { stop := Error; return; }
          l' := EndLine(l);
          OpenSetOf(HeaderFieldStart);
          KeepMarks(marks, HeaderFieldStart, at);
        case HeadersAlmostDone =>
          if ch != LF { stop := Error; return; }
          l', n', stop := FinishHeaders(l, n, at);
          FinishedMarks(old(Fields(l)), marks, at);
      }
    }

    // -------------------------------------------------------------- chunks

    /** `s_chunk_size_start` and `s_chunk_size`; `n` is the local `nread`, already counting this byte. */
    method OnChunkSize(ch: byte, l: Locals, n: nat) returns (l': Locals, stop: Stop)
      requires (l.state.ChunkSizeStart? || l.state.ChunkSize?) && flags.chunked
      requires l.state.ChunkSizeStart? ==> n == 1
      modifies this`contentLength
      ensures var r := StepChunk(old(Fields(l)), ch); Fields(l') == r.core && stop == r.stop && !r.reset
    {
      l', stop := l, Running;
      assert flags.chunked;
      if l.state.ChunkSizeStart? {
        assert n == 1;
        var c := Unhex(ch);
        if c == -1 { stop := Error; return; }
        contentLength := c;
        l' := l.(state := ChunkSize);
      } else {
        if ch == CR { l' := l.(state := ChunkSizeAlmostDone); return; }
        var c := Unhex(ch);
        if c == -1 {
          if ch == SEMICOLON || ch == SP { l' := l.(state := ChunkParameters); return; }
          stop := Error;
          return;
        }
        contentLength := contentLength * 16 % U64;
        contentLength := (contentLength + c) % U64;
        TwoWraps(old(contentLength) * 16, c);
      }
    }

    /** The chunk states except the data. */
    method OnChunk(ch: byte, l: Locals, n: nat) returns (l': Locals, n': nat, stop: Stop)
      requires IsChunkState(l.state) && !l.state.ChunkData? && flags.chunked
      requires l.state.ChunkSizeStart? ==> n == 1
      modifies this`flags, this`contentLength
      ensures var r := StepChunk(old(Fields(l)), ch);
              && Fields(l') == r.core && stop == r.stop
              && n' == (if r.reset then 0 else n)
    {
      hide Unhex;
      l', n', stop := l, n, Running;
      if l.state.ChunkSizeStart? || l.state.ChunkSize? {
        l', stop := OnChunkSize(ch, l, n);
        return;
      }
      assert flags.chunked;
      match l.state {
        case ChunkParameters =>
          if ch == CR { l' := l.(state := ChunkSizeAlmostDone); }
        case ChunkSizeAlmostDone =>
          if ch != LF { stop := Error; return; }
          n' := 0;
          if contentLength == 0 {
            flags := flags.(trailing := true);
            l' := l.(state := HeaderFieldStart);
          } else {
            l' := l.(state := ChunkData);
          }
        case ChunkDataAlmostDone =>
          if ch != CR { stop := Error; return; }
          l' := l.(state := ChunkDataDone);
        case _ =>
          if ch != LF { stop := Error; return; }
          l' := l.(state := ChunkSizeStart);
      }
    }

    // -------------------------------------------------------------- the loop

    /** The states before the request target and after it, up to the first header line. */
    method OnLine(ch: byte, l: Locals, at: nat) returns (l': Locals, stop: Stop)
      requires IsStartState(l.state) || IsLiteralState(l.state) || IsNumberState(l.state) || l.state.ReqMethod?
      modifies this`kind, this`flags, this`contentLength, this`meth, this`log,
               this`httpMajor, this`httpMinor, this`statusCode
      ensures var r := Step(old(Fields(l)), ch);
              Fields(l') == r.core && stop == r.stop && log == old(log) + Signals(r.ctl, at)
    {
      hide Step, StepStart, LiteralMove, StepNumber, StepMethod, Apply, IsLiteralState, IsNumberState, IsStartState;
      ghost var c := Fields(l);
      StepCases(c, ch);
      if IsStartState(l.state) {
        l', stop := OnStart(ch, l, at);
      } else {
        QuietLine(c, ch);
        NoEvents(at);
        if IsLiteralState(l.state) {
          l', stop := OnLiteral(ch, l);
        } else if IsNumberState(l.state) {
          l', stop := OnNumber(ch, l);
        } else {
          l', stop := OnMethod(ch, l);
        }
      }
    }

    /** The switch, outside the states that hand over body bytes; `n` already counts this byte. */
    method OnByte(ch: byte, l: Locals, n: nat, marks: Marks, at: nat)
      returns (l': Locals, n': nat, marks': Marks, stop: Stop)
      requires CoreInv(Fields(l)) && marks.Keys == OpenSet(l.state)
      requires !l.state.ChunkData? && !l.state.BodyIdentity?
      requires l.state.ChunkSizeStart? ==> n == 1
      modifies this`kind, this`flags, this`contentLength, this`meth, this`log,
               this`httpMajor, this`httpMinor, this`statusCode, this`upgrade
      ensures var c := old(Fields(l));
              var r := Step(c, ch);
              && Fields(l') == r.core && stop == r.stop
              && log == old(log) + Emitted(c, ch, r, marks, at)
              && (stop.Running? ==> marks' == MarksAfter(marks, l'.state, at))
              && n' == (if r.reset then 0 else n)
    {
      hide OpenSet, MarksAfter, Closing, StepUrl, StepHeader, StepChunk, HeaderInv, VersionInv, MethodString, Step;
      ghost var c := Fields(l);
      StepCases(c, ch);
      StateGroups(c.state);
      HasHeaderInv(c);
      l', n', marks', stop := l, n, marks, Running;
      if IsUrlState(l.state) {
        l', marks', stop := OnUrl(ch, l, marks, at);
        UrlEmitted(c, ch, marks, at);
      } else if IsHeaderState(l.state) {
        l', n', marks', stop := OnHeader(ch, l, n, marks, at);
      } else {
        PlainEmitted(c, ch, marks, at);
        NoEvents(at);
        if l.state.Dead? {
          stop := Error;
        } else if IsChunkState(l.state) {
          l', n', stop := OnChunk(ch, l, n);
          ChunkQuiet(c, ch);
        } else {
          NoEof(c);
          l', stop := OnLine(ch, l, at);
        }
      }
    }

    /** `s_body_identity` with `room` bytes left in the buffer: one callback and a jump over `m` bytes. */
    method OnIdentity(l: Locals, room: nat, at: nat) returns (l': Locals, m: nat)
      requires l.state.BodyIdentity? && contentLength > 0 && room > 0
      modifies this`contentLength, this`log
      ensures 0 < m <= room && m <= old(contentLength)
      ensures var c := old(Fields(l));
              && Fields(l') == SkipIdentity(c, m)
              && log == old(log) + [Data(Body, at, at + m)] + Signals(SkipIdentityEvents(c, m), at + m - 1)
    {
      l' := l;
      m := if room < contentLength then room else contentLength;
      log := log + [Data(Body, at, at + m)];
      contentLength := contentLength - m;
      if contentLength == 0 {
        Fire(MessageComplete, at + m - 1);
        l' := NextMessage(l);
      }
      NoEvents(at + m - 1);
    }

    /** `s_chunk_data`: the size is compared as a signed number. */
    method OnChunkData(l: Locals, room: nat, at: nat) returns (l': Locals, m: nat)
      requires l.state.ChunkData? && flags.chunked && 0 < contentLength < I64 && room > 0
      modifies this`contentLength, this`log
      ensures 0 < m <= room && m <= old(contentLength)
      ensures var c := old(Fields(l));
              && Fields(l') == SkipChunkData(c, m)
              && log == old(log) + [Data(Body, at, at + m)]
    {
      l' := l;
      assert flags.chunked;
      m := if room < contentLength then room else contentLength;
      log := log + [Data(Body, at, at + m)];
      if m == contentLength {
        l' := l.(state := ChunkDataAlmostDone);
      }
      contentLength := contentLength - m;
    }

    /** The marks of the slices that were open when the last call ended. */
    method ResumeMarks(s: State, at: nat) returns (marks: Marks)
      ensures marks.Keys == OpenSet(s) && forall k :: k in marks ==> marks[k] == at
    {
      OpenSetOf(s);
      marks := map[];
      if s == HeaderField { marks := marks[HeaderName := at]; }
      if s == HeaderValue { marks := marks[HeaderText := at]; }
      if s == ReqFragment { marks := marks[Fragment := at]; }
      if s == ReqQuery { marks := marks[Query := at]; }
      if s == ReqPath { marks := marks[Path := at]; }
      if s == ReqPath || s == ReqSchema || s == ReqSchemaSlash || s == ReqSchemaSlashSlash || s == ReqPort
         || s == ReqQueryStart || s == ReqQuery || s == ReqHost || s == ReqFragmentStart || s == ReqFragment {
        marks := marks[Url := at];
      }
    }

    /** `CALLBACK_NOCLEAR` */
    method Deliver(k: Slice, marks: Marks, at: nat)
      modifies this`log
      ensures log == old(log) + CloseOne(marks, {}, k, at)
    {
      if k in marks {
        log := log + [Data(k, marks[k], at)];
      }
    }

    method DeliverAll(marks: Marks, at: nat)
      modifies this`log
      ensures log == old(log) + Flush(marks, at)
    {
      hide CloseOne;
      Deliver(HeaderName, marks, at);
      Deliver(HeaderText, marks, at);
      Deliver(Fragment, marks, at);
      Deliver(Query, marks, at);
      Deliver(Path, marks, at);
      Deliver(Url, marks, at);
    }

    /** `http_parser_execute` on an empty buffer: the end of the stream. */
    method ExecuteEmpty(at: nat) returns (ret: nat)
      requires Valid()
      modifies this`log
      ensures ret == (if state in {Dead, StartReqOrRes, StartRes, StartReq} then 0 else 1)
      ensures log == old(log)
    {
      ret := 1;
      match state {
        case BodyIdentityEof =>
          assert false;
        case Dead => ret := 0;
        case StartReqOrRes => ret := 0;
        case StartRes => ret := 0;
        case StartReq => ret := 0;
        case _ =>
      }
    }

    /** `http_parser_execute` on a buffer whose first byte has stream offset `base`. It does what the run of the
        automaton does, and hands over what that run makes observable, without what is only marked when it stops. */
    method Execute(data: array<byte>, base: nat) returns (ret: nat, stop: Stop)
      requires Valid() && data.Length > 0
      modifies this
      ensures var r := Call(old(View()), data[..], base);
              && View() == r.saved && ret == r.consumed && stop == r.stop
              && HandedOver(old(log), log, r, base)
      ensures GrowsInOrder(old(View()).core, old(log), log, View().core, stop.Running?)
      ensures stop.Running? ==> Valid()
      ensures stop.Error? ==> state.Dead?
      ensures !stop.AssertFailed?
    {
      hide Call, Run, Count, Allowed, Step, Progress, HandedOver, GrowsInOrder, Inv, OpenSet, MarksAfter, Emitted,
           Flush;
      ghost var s0, s, log0 := View(), data[..], log;
      var l := Locals(state, headerState, index);
      var n: nat := nread;
      var marks := ResumeMarks(state, base);
      StartsWell(s0, s, base, marks, log);
      GrowsByNothing(s0.core, log);
      stop := Running;
      var i := 0;
      while i < data.Length
        invariant i <= data.Length && stop.Running? && data[..] == s && l.state == Fields(l).state
        invariant View() == s0.(core := Abandon(s0.core, Fields(l), Upgraded))
        invariant Progress(s0, s, i, base, Fields(l), n, marks, log0, log)
        invariant GrowsInOrder(s0.core, log0, log, Fields(l), true)
      {
        var ch := data[i];
        ghost var c, n0, logi := Fields(l), n, log;
        InLoop(s0, s, i, base, c, n, marks, log0, log);
        if ParsingHeader(l.state) {
          n := n + 1;
          if n > MAX_HEADER_SIZE {
            LimitStops(s0, s, i, base, c, n0, marks, log0, log);
            state := Dead;
            GrowsAndStops(s0.core, log0, log, c, true, View().core);
            return i, Error;
          }
        }
        if l.state.BodyIdentity? {
          var m;
          l, m := OnIdentity(l, data.Length - i, base + i);
          IdentityProgress(s0, s, i, m, base, c, n, marks, log0, logi);
          IdentityGrows(s0.core, log0, logi, c, m, base + i);
          i := i + m - 1;
        } else if l.state.ChunkData? {
          if contentLength >= I64 {
            ChunkOverrun(s0, s, i, base, c, n, marks, log0, log);
            GrowsAndStops(s0.core, log0, log, c, true, View().core);
            return i, OutOfBounds;
          }
          var m;
          l, m := OnChunkData(l, data.Length - i, base + i);
          ChunkProgress(s0, s, i, m, base, c, n, marks, log0, logi);
          ChunkGrows(s0.core, log0, logi, c, m, base + i);
          i := i + m - 1;
        } else {
          ghost var marks0 := marks;
          l, n, marks, stop := OnByte(ch, l, n, marks, base + i);
          ByteGrows(s0.core, log0, logi, c, ch, marks0, base + i);
          if stop != Running {
            ByteStops(s0, s, i, base, c, n0, marks0, log0, logi);
            StepKeepsInv(c, n0, ch);
            if stop == Error {
              state := Dead;
            }
            GrowsAndStops(s0.core, log0, log, Step(c, ch).core, false, View().core);
            return i, stop;
          }
          ByteKeepsProgress(s0, s, i, base, c, n0, marks0, log0, logi);
        }
        i := i + 1;
      }
      ghost var log1 := log;
      DeliverAll(marks, base + data.Length);
      EndOfBuffer(s0, s, base, Fields(l), n, marks, log0, log1, log);
      InLoop(s0, s, i, base, Fields(l), n, marks, log0, log1);
      FlushGrows(s0.core, log0, log1, Fields(l), marks, base + data.Length);
      SaveKeepsInv(Fields(l), n);
      state := l.state;
      headerState := l.headerState;
      index := l.index % 256;
      nread := n % 256;
      ret := data.Length;
    }
  }

  lemma MethodStringHasNoNul(m: Method)
    ensures forall i :: 0 <= i < |MethodString(m)| ==> MethodString(m)[i] != 0
  {
  }

  /** A target that starts with its path. */
  lemma OpenTwo(marks: Marks, at: nat)
    requires marks.Keys == {}
    ensures MarksAfter(marks, ReqPath, at) == marks[Url := at][Path := at] && Closing(marks, OpenSet(ReqPath), at) == []
  {
    OpenSetOf(ReqPath);
    assert MarksAfter(marks, ReqPath, at).Keys == {Url, Path};
  }

  /** Multiplying and adding with a wrap each is one wrap. */
  lemma TwoWraps(x: nat, y: nat)
    ensures (x % U64 + y) % U64 == (x + y) % U64
  {
    var q := x / U64;
    assert x == q * U64 + x % U64;
    ModuloShift(x % U64 + y, q);
  }

  lemma NoSignals(c: Core, ch: byte)
    requires c.state.HeaderField? || c.state.HeaderValueStart? || c.state.HeaderValue?
    ensures var r := StepHeader(c, ch); r.ctl == [] && !r.reset
  {
    hide StepName, StepValue;
  }

  /** After a header block no slice is open. */
  lemma FinishedMarks(c: Core, marks: Marks, at: nat)
    requires marks.Keys == {} && c.state.HeadersAlmostDone?
    ensures var r := EndHeaders(c);
            && (r.stop.Running? || r.stop.Upgraded?)
            && Closing(marks, if r.stop.Running? then OpenSet(r.core.state) else marks.Keys, at) == []
            && (r.stop.Running? ==> MarksAfter(marks, r.core.state, at) == marks)
  {
    var r := EndHeaders(c);
    hide OpenSet, MarksAfter, Closing;
    assert r.stop.Running? ==> r.core.state in {StartReq, StartRes, Dead, ChunkSizeStart, BodyIdentity};
    OpenSetOf(r.core.state);
    KeepMarks(marks, c.state, at) by { OpenSetOf(c.state); }
    if r.stop.Running? {
      KeepMarks(marks, r.core.state, at);
    }
  }

  lemma OpenFromValueStart(c: Core, ch: byte, marks: Marks, at: nat)
    requires c.state.HeaderValueStart? && marks == map[]
    ensures var r := StepHeaderValueStart(c, ch);
            && Closing(marks, if r.stop.Running? then OpenSet(r.core.state) else marks.Keys, at) == []
            && (ch == CR || ch == LF ==> r.stop.Running?)
  {
    hide OpenSet, LineFlags;
  }

  lemma NoEvents(at: nat)
    ensures Signals([], at) == [] && forall log: seq<Event> :: log + [] == log
  {
  }

  lemma ChunkQuiet(c: Core, ch: byte)
    requires IsChunkState(c.state)
    ensures StepChunk(c, ch).ctl == []
  {
  }

  lemma HasHeaderInv(c: Core)
    requires CoreInv(c)
    ensures HeaderInv(c) && (IsChunkState(c.state) ==> c.flags.chunked)
  {
  }

  /** Outside the target and the header lines no slice starts or ends. */
  lemma PlainEmitted(c: Core, ch: byte, marks: Marks, at: nat)
    requires !IsUrlState(c.state) && !IsHeaderState(c.state) && marks.Keys == OpenSet(c.state)
    requires !DeliversBody(c)
    ensures var r := Step(c, ch);
            && Emitted(c, ch, r, marks, at) == Signals(r.ctl, at)
            && (r.stop.Running? ==> MarksAfter(marks, r.core.state, at) == marks)
            && (!IsChunkState(c.state) ==> !r.reset)
  {
    hide OpenSet, MarksAfter, Closing, Step;
    var r := Step(c, ch);
    PlainTarget(c, ch);
    NoOpenSlices(c.state);
    KeepMarks(marks, c.state, at);
    if r.stop.Running? {
      NoSlices(r.core.state);
      KeepMarks(marks, r.core.state, at);
    }
  }

  lemma PlainTarget(c: Core, ch: byte)
    requires !IsUrlState(c.state) && !IsHeaderState(c.state)
    ensures OpenSlices(Step(c, ch).core.state) == []
    ensures !IsChunkState(c.state) ==> !Step(c, ch).reset
  {
    hide StepStart, LiteralMove, StepNumber, StepMethod, StepChunk, StepIdentity, Step, IsStartState, IsLiteralState,
         IsNumberState, IsUrlState, IsHeaderState, IsChunkState, OpenSlices;
    StepCases(c, ch);
    StateGroups(c.state);
    if IsStartState(c.state) {
      StartSignals(c, ch);
      StartFrame(c, ch);
    } else if IsLiteralState(c.state) {
      LiteralTarget(c.state, ch);
      LineTargets(c, ch);
    } else if IsNumberState(c.state) {
      NumberTarget(c, ch);
      NumberFrame(c, ch);
      LineTargets(c, ch);
    } else if c.state.ReqMethod? {
      MethodFrame(c, ch);
      LineTargets(c, ch);
    } else if IsChunkState(c.state) || c.state.BodyIdentity? {
      BodySignals(c, ch);
      IdentityNoReset(c);
    } else {
      LineTargets(c, ch);
    }
  }

  lemma IdentityNoReset(c: Core)
    ensures !StepIdentity(c).reset
  {
  }

  lemma LineTargets(c: Core, ch: byte)
    ensures forall s: State :: (IsLiteralState(s) || IsNumberState(s) || s.ReqMethod? || s.ReqSpacesBeforeUrl?
                                || s.HeaderFieldStart? || s.Dead? || s.BodyIdentityEof? || s.ResFirstMajor?
                                || s.ReqFirstMajor? || s.ResStatus? || s.ResLineAlmostDone? || s.ReqLineAlmostDone?)
                               ==> OpenSlices(s) == []
  {
  }

  lemma UrlEmitted(c: Core, ch: byte, marks: Marks, at: nat)
    requires IsUrlState(c.state)
    ensures var r := StepUrl(c, ch);
            && r == Step(c, ch) && !r.reset
            && Emitted(c, ch, r, marks, at)
               == Closing(marks, if r.stop.Running? then OpenSet(r.core.state) else marks.Keys, at)
  {
    hide OpenSet, Closing, UrlMove, Step, StepUrl;
    StepCases(c, ch);
    UrlFrame(c, ch);
  }
}
