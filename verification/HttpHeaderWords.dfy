/** What the matchers over header names and values recognise, stated by the words themselves. */
module HttpHeaderWords {
  import opened HttpChars
  import opened HttpAutomaton

  // ---------------------------------------------------------------- specification

  /** `s` without the spaces at its end. */
  function TrimRight(s: seq<byte>): (t: seq<byte>)
    ensures t <= s
  {
    if s != [] && s[|s| - 1] == SP then TrimRight(s[..|s| - 1]) else s
  }

  function TrimLeft(s: seq<byte>): (t: seq<byte>)
    ensures |t| <= |s| && t == s[|s| - |t|..] && (t != [] ==> t[0] != SP)
  {
    if s != [] && s[0] == SP then TrimLeft(s[1..]) else s
  }

  datatype NameClass = Plain | Connection | ContentLength | TransferEncoding | Upgrade

  /** Which header a name denotes: case does not matter, nor do spaces before the colon. */
  function Classify(name: seq<byte>): NameClass {
    var word := FoldAll(TrimRight(name));
    if word == WORD_CONNECTION || word == WORD_PROXY_CONNECTION then Connection
    else if word == WORD_CONTENT_LENGTH then ContentLength
    else if word == WORD_TRANSFER_ENCODING then TransferEncoding
    else if word == WORD_UPGRADE then Upgrade
    else Plain
  }

  /** The header a sub-state stands for at the colon. */
  function ClassOf(hs: HeaderState): NameClass {
    match hs
    case IsConnection => Connection
    case IsContentLength => ContentLength
    case IsTransferEncoding => TransferEncoding
    case IsUpgrade => Upgrade
    case _ => Plain
  }

  // ---------------------------------------------------------------- words with spaces behind them

  /** Position `i` of `word` followed by spaces without end. */
  function PaddedAt(word: seq<byte>, i: nat): byte {
    if i < |word| then word[i] else SP
  }

  /** `t` is a beginning of `word` followed by spaces. */
  predicate Agrees(t: seq<byte>, word: seq<byte>) {
    forall i :: 0 <= i < |t| ==> t[i] == PaddedAt(word, i)
  }

  /** `t` is all of `word`, with spaces behind it. */
  predicate Covers(t: seq<byte>, word: seq<byte>) {
    |word| <= |t| && Agrees(t, word)
  }

  lemma AgreesSnoc(t: seq<byte>, x: byte, word: seq<byte>)
    ensures Agrees(t + [x], word) <==> Agrees(t, word) && x == PaddedAt(word, |t|)
  {
    var u := t + [x];
    assert u[|t|] == x && forall i :: 0 <= i < |t| ==> u[i] == t[i];
  }

  /** A word without spaces is what trimming leaves exactly if it is covered. */
  lemma {:induction false} CoversIsTrimmed(t: seq<byte>, word: seq<byte>)
    requires word != [] && SP !in word
    ensures Covers(t, word) <==> TrimRight(t) == word
    decreases |t|
  {
    if t != [] && t[|t| - 1] == SP {
      var u := t[..|t| - 1];
      assert t == u + [SP];
      AgreesSnoc(u, SP, word);
      CoversIsTrimmed(u, word);
      assert |u| < |word| ==> PaddedAt(word, |u|) in word;
    } else {
      if |word| < |t| {
        assert PaddedAt(word, |t| - 1) == SP;
      }
      assert Covers(t, word) && |t| == |word| ==> t == word;
    }
  }

  lemma {:induction false} FoldTrim(s: seq<byte>)
    ensures FoldAll(TrimRight(s)) == TrimRight(FoldAll(s))
    decreases |s|
  {
    var f := FoldAll(s);
    if s != [] {
      assert Fold(s[|s| - 1]) == SP <==> s[|s| - 1] == SP;
      if s[|s| - 1] == SP {
        FoldTrim(s[..|s| - 1]);
        assert FoldAll(s[..|s| - 1]) == f[..|f| - 1];
      }
    }
  }

  // ---------------------------------------------------------------- names

  /** The name matcher over a whole folded name. */
  function TrackName(t: seq<byte>): (HeaderState, nat)
    requires t != []
  {
    if |t| == 1 then (FirstNameState(t[0]), 0)
    else
      var h := TrackName(t[..|t| - 1]);
      StepName(h.0, h.1, t[|t| - 1])
  }

  /** A proper beginning of `word`, read up to position `index`. */
  predicate Begins(t: seq<byte>, index: nat, word: seq<byte>) {
    |t| == index + 1 < |word| && Agrees(t, word)
  }

  /** What a sub-state knows about the folded name so far. */
  predicate NameKnown(t: seq<byte>, hs: HeaderState, index: nat) {
    match hs
    case General =>
      && !Agrees(t, WORD_CONNECTION) && !Agrees(t, WORD_PROXY_CONNECTION) && !Agrees(t, WORD_CONTENT_LENGTH)
      && !Agrees(t, WORD_TRANSFER_ENCODING) && !Agrees(t, WORD_UPGRADE)
    case MatchC => index == 0 && Begins(t, 0, WORD_CONNECTION) && Begins(t, 0, WORD_CONTENT_LENGTH)
    case MatchCO => index == 1 && Begins(t, 1, WORD_CONNECTION) && Begins(t, 1, WORD_CONTENT_LENGTH)
    case MatchCON => index == 2 && Begins(t, 2, WORD_CONNECTION) && Begins(t, 2, WORD_CONTENT_LENGTH)
    case MatchingConnection => 3 <= index && Begins(t, index, WORD_CONNECTION)
    case MatchingProxyConnection => Begins(t, index, WORD_PROXY_CONNECTION)
    case MatchingContentLength => 3 <= index && Begins(t, index, WORD_CONTENT_LENGTH)
    case MatchingTransferEncoding => Begins(t, index, WORD_TRANSFER_ENCODING)
    case MatchingUpgrade => Begins(t, index, WORD_UPGRADE)
    case IsConnection => Covers(t, WORD_CONNECTION) || Covers(t, WORD_PROXY_CONNECTION)
    case IsContentLength => Covers(t, WORD_CONTENT_LENGTH)
    case IsTransferEncoding => Covers(t, WORD_TRANSFER_ENCODING)
    case IsUpgrade => Covers(t, WORD_UPGRADE)
    case _ => false
  }

  /** The lengths of the words, and the letters that tell them apart. */
  lemma Letters()
    ensures |WORD_CONNECTION| == 10 && |WORD_PROXY_CONNECTION| == 16 && |WORD_CONTENT_LENGTH| == 14
    ensures |WORD_TRANSFER_ENCODING| == 17 && |WORD_UPGRADE| == 7
    ensures WORD_CONNECTION[0] == 99 && WORD_CONNECTION[1] == 111 && WORD_CONNECTION[2] == 110
    ensures WORD_CONTENT_LENGTH[0] == 99 && WORD_CONTENT_LENGTH[1] == 111 && WORD_CONTENT_LENGTH[2] == 110
    ensures WORD_CONNECTION[3] == 110 && WORD_CONTENT_LENGTH[3] == 116
    ensures WORD_PROXY_CONNECTION[0] == 112 && WORD_TRANSFER_ENCODING[0] == 116 && WORD_UPGRADE[0] == 117
  {
  }

  /** The words hold no spaces. */
  lemma NoSpaces()
    ensures SP !in WORD_CONNECTION && SP !in WORD_PROXY_CONNECTION && SP !in WORD_CONTENT_LENGTH
    ensures SP !in WORD_TRANSFER_ENCODING && SP !in WORD_UPGRADE
    ensures SP !in WORD_CHUNKED && SP !in WORD_KEEP_ALIVE && SP !in WORD_CLOSE
  {
  }

  /** At most one word can still come, once the letters that tell the words apart have been read. */
  lemma OneWordLeft(t: seq<byte>)
    requires t != []
    ensures Agrees(t, WORD_PROXY_CONNECTION) ==> t[0] == 112
    ensures Agrees(t, WORD_TRANSFER_ENCODING) ==> t[0] == 116
    ensures Agrees(t, WORD_UPGRADE) ==> t[0] == 117
    ensures Agrees(t, WORD_CONNECTION) ==> t[0] == 99 && (|t| > 3 ==> t[3] == 110)
    ensures Agrees(t, WORD_CONTENT_LENGTH) ==> t[0] == 99 && (|t| > 3 ==> t[3] == 116)
  {
    Letters();
    hide WORD_CONNECTION, WORD_PROXY_CONNECTION, WORD_CONTENT_LENGTH, WORD_TRANSFER_ENCODING, WORD_UPGRADE;
  }

  lemma AgreesSnocAll(t: seq<byte>, x: byte)
    ensures forall word :: Agrees(t + [x], word) <==> Agrees(t, word) && x == PaddedAt(word, |t|)
  {
    forall word ensures Agrees(t + [x], word) <==> Agrees(t, word) && x == PaddedAt(word, |t|) {
      AgreesSnoc(t, x, word);
    }
  }

  /** One more byte of a word that is being matched. */
  lemma MatchWordKnown(t: seq<byte>, x: byte, index: nat, word: seq<byte>, same: HeaderState, found: HeaderState)
    requires Begins(t, index, word) && same != General && found != General && same != found
    ensures var hs := MatchWord(word, index, x, same, found);
            && (hs == General ==> !Agrees(t + [x], word))
            && (hs == same ==> Begins(t + [x], index + 1, word))
            && (hs == found ==> Covers(t + [x], word))
            && hs in {General, same, found}
  {
    AgreesSnoc(t, x, word);
  }

  /** One more name byte. */
  lemma StepNameKnown(t: seq<byte>, x: byte, hs: HeaderState, index: nat)
    requires t != [] && NameKnown(t, hs, index)
    ensures var n := StepName(hs, index, x); NameKnown(t + [x], n.0, n.1)
  {
    Letters();
    NoSpaces();
    OneWordLeft(t);
    OneWordLeft(t + [x]);
    AgreesSnocAll(t, x);
    hide WORD_CONNECTION, WORD_PROXY_CONNECTION, WORD_CONTENT_LENGTH, WORD_TRANSFER_ENCODING, WORD_UPGRADE,
         Agrees, MatchWord;
    match hs {
      case MatchingConnection => MatchWordKnown(t, x, index, WORD_CONNECTION, hs, IsConnection);
      case MatchingProxyConnection => MatchWordKnown(t, x, index, WORD_PROXY_CONNECTION, hs, IsConnection);
      case MatchingContentLength => MatchWordKnown(t, x, index, WORD_CONTENT_LENGTH, hs, IsContentLength);
      case MatchingTransferEncoding => MatchWordKnown(t, x, index, WORD_TRANSFER_ENCODING, hs, IsTransferEncoding);
      case MatchingUpgrade => MatchWordKnown(t, x, index, WORD_UPGRADE, hs, IsUpgrade);
      case _ =>
    }
  }

  lemma {:induction false} TrackNameKnown(t: seq<byte>)
    requires t != []
    ensures var h := TrackName(t); NameKnown(t, h.0, h.1)
    decreases |t|
  {
    if |t| == 1 {
      FirstNameKnown(t[0]);
      assert t == [t[0]];
    } else {
      var u := t[..|t| - 1];
      TrackNameKnown(u);
      StepNameKnown(u, t[|t| - 1], TrackName(u).0, TrackName(u).1);
      assert u + [t[|t| - 1]] == t;
    }
  }

  lemma FirstNameKnown(x: byte)
    ensures NameKnown([x], FirstNameState(x), 0)
  {
    Letters();
    OneWordLeft([x]);
  }

  /** A matched sub-state is a recognised name, and no other sub-state is. */
  lemma KnownIsClassified(t: seq<byte>, hs: HeaderState, index: nat)
    requires t != [] && NameKnown(t, hs, index)
    ensures ClassOf(hs).Connection? <==> Covers(t, WORD_CONNECTION) || Covers(t, WORD_PROXY_CONNECTION)
    ensures ClassOf(hs).ContentLength? <==> Covers(t, WORD_CONTENT_LENGTH)
    ensures ClassOf(hs).TransferEncoding? <==> Covers(t, WORD_TRANSFER_ENCODING)
    ensures ClassOf(hs).Upgrade? <==> Covers(t, WORD_UPGRADE)
  {
    Letters();
    OneWordLeft(t);
    hide WORD_CONNECTION, WORD_PROXY_CONNECTION, WORD_CONTENT_LENGTH, WORD_TRANSFER_ENCODING, WORD_UPGRADE, Agrees;
  }

  /** The sub-state after a name is the one of the word that the name denotes, up to case and trailing spaces. */
  lemma NameRecognised(name: seq<byte>)
    requires name != []
    ensures ClassOf(TrackName(FoldAll(name)).0) == Classify(name)
  {
    var t := FoldAll(name);
    TrackNameKnown(t);
    KnownIsClassified(t, TrackName(t).0, TrackName(t).1);
    FoldTrim(name);
    Letters();
    NoSpaces();
    hide WORD_CONNECTION, WORD_PROXY_CONNECTION, WORD_CONTENT_LENGTH, WORD_TRANSFER_ENCODING, WORD_UPGRADE,
         TrackName, Covers, FoldAll, TrimRight, NameKnown;
    CoversIsTrimmed(t, WORD_CONNECTION);
    CoversIsTrimmed(t, WORD_PROXY_CONNECTION);
    CoversIsTrimmed(t, WORD_CONTENT_LENGTH);
    CoversIsTrimmed(t, WORD_TRANSFER_ENCODING);
    CoversIsTrimmed(t, WORD_UPGRADE);
  }

  // ---------------------------------------------------------------- values

  /** The sub-state a first value byte selects after a recognised name. */
  function FirstValueState(hs: HeaderState, ch: byte): HeaderState {
    match hs
    case IsTransferEncoding => if Lower(ch) == 99 then MatchingChunked else General
    case IsConnection =>
      if Lower(ch) == 107 then MatchingKeepAlive else if Lower(ch) == 99 then MatchingClose else General
    case _ => General
  }

  /** The value matcher over a whole value without the spaces before it. */
  function TrackValue(hs: HeaderState, v: seq<byte>): (HeaderState, nat)
    requires v != []
  {
    if |v| == 1 then (FirstValueState(hs, v[0]), 0)
    else
      var h := TrackValue(hs, v[..|v| - 1]);
      StepValue(h.0, h.1, Lower(v[|v| - 1]), v[|v| - 1])
  }

  /** What a sub-state knows about the folded value so far; `hs0` is the sub-state of the name. */
  predicate ValueKnown(hs0: HeaderState, t: seq<byte>, hs: HeaderState, index: nat) {
    match hs
    case General =>
      && (hs0.IsTransferEncoding? ==> !Agrees(t, WORD_CHUNKED))
      && (hs0.IsConnection? ==> !Agrees(t, WORD_KEEP_ALIVE) && !Agrees(t, WORD_CLOSE))
    case MatchingChunked => hs0.IsTransferEncoding? && Begins(t, index, WORD_CHUNKED)
    case MatchingKeepAlive => hs0.IsConnection? && Begins(t, index, WORD_KEEP_ALIVE)
    case MatchingClose => hs0.IsConnection? && Begins(t, index, WORD_CLOSE)
    case ValueChunked => hs0.IsTransferEncoding? && Covers(t, WORD_CHUNKED)
    case ValueKeepAlive => hs0.IsConnection? && Covers(t, WORD_KEEP_ALIVE)
    case ValueClose => hs0.IsConnection? && Covers(t, WORD_CLOSE)
    case _ => false
  }

  /** `LOWER` compares letters and dashes as case folding does; a carriage return never gets that far. */
  lemma LowerIsFold(ch: byte, x: byte)
    requires ch != CR && (97 <= x <= 122 || x == DASH)
    ensures Lower(ch) == x <==> Fold(ch) == x
  {
  }

  lemma ValueWords()
    ensures |WORD_CHUNKED| == 7 && |WORD_KEEP_ALIVE| == 10 && |WORD_CLOSE| == 5
    ensures WORD_CHUNKED[0] == 99 && WORD_KEEP_ALIVE[0] == 107 && WORD_CLOSE[0] == 99
    ensures forall i :: 0 <= i < |WORD_CHUNKED| ==> 97 <= WORD_CHUNKED[i] <= 122
    ensures forall i :: 0 <= i < |WORD_CLOSE| ==> 97 <= WORD_CLOSE[i] <= 122
    ensures forall i :: 0 <= i < |WORD_KEEP_ALIVE| ==> 97 <= WORD_KEEP_ALIVE[i] <= 122 || WORD_KEEP_ALIVE[i] == DASH
  {
  }

  lemma MatchValueKnown(t: seq<byte>, ch: byte, index: nat, word: seq<byte>, same: HeaderState, found: HeaderState)
    requires Begins(t, index, word) && same != General && found != General && same != found
    requires ch != CR && forall i :: 0 <= i < |word| ==> 97 <= word[i] <= 122 || word[i] == DASH
    ensures var hs := MatchWord(word, index, Lower(ch), same, found);
            && (hs == General ==> !Agrees(t + [Fold(ch)], word))
            && (hs == same ==> Begins(t + [Fold(ch)], index + 1, word))
            && (hs == found ==> Covers(t + [Fold(ch)], word))
            && hs in {General, same, found}
  {
    AgreesSnoc(t, Fold(ch), word);
    LowerIsFold(ch, word[index + 1]);
  }

  lemma DifferentFirst(t: seq<byte>)
    requires t != []
    ensures Agrees(t, WORD_KEEP_ALIVE) ==> t[0] == 107
    ensures Agrees(t, WORD_CLOSE) ==> t[0] == 99
    ensures Agrees(t, WORD_CHUNKED) ==> t[0] == 99
  {
    ValueWords();
    hide WORD_KEEP_ALIVE, WORD_CLOSE, WORD_CHUNKED;
  }

  lemma StepValueKnown(hs0: HeaderState, t: seq<byte>, ch: byte, hs: HeaderState, index: nat)
    requires t != [] && ch != CR && ValueKnown(hs0, t, hs, index)
    ensures var v := StepValue(hs, index, Lower(ch), ch); ValueKnown(hs0, t + [Fold(ch)], v.0, v.1)
  {
    ValueWords();
    NoSpaces();
    AgreesSnocAll(t, Fold(ch));
    DifferentFirst(t);
    DifferentFirst(t + [Fold(ch)]);
    hide WORD_CHUNKED, WORD_KEEP_ALIVE, WORD_CLOSE, Agrees, MatchWord;
    match hs {
      case MatchingChunked => MatchValueKnown(t, ch, index, WORD_CHUNKED, hs, ValueChunked);
      case MatchingKeepAlive => MatchValueKnown(t, ch, index, WORD_KEEP_ALIVE, hs, ValueKeepAlive);
      case MatchingClose => MatchValueKnown(t, ch, index, WORD_CLOSE, hs, ValueClose);
      case _ =>
    }
  }

  lemma {:induction false} TrackValueKnown(hs0: HeaderState, v: seq<byte>)
    requires v != [] && CR !in v
    ensures var h := TrackValue(hs0, v); ValueKnown(hs0, FoldAll(v), h.0, h.1)
    decreases |v|
  {
    if |v| == 1 {
      FirstValueKnown(hs0, v[0]);
      assert FoldAll(v) == [Fold(v[0])];
    } else {
      var u, ch := v[..|v| - 1], v[|v| - 1];
      TrackValueKnown(hs0, u);
      StepValueKnown(hs0, FoldAll(u), ch, TrackValue(hs0, u).0, TrackValue(hs0, u).1);
      assert FoldAll(u) + [Fold(ch)] == FoldAll(v);
    }
  }

  lemma FirstValueKnown(hs0: HeaderState, ch: byte)
    requires ch != CR
    ensures ValueKnown(hs0, [Fold(ch)], FirstValueState(hs0, ch), 0)
  {
    ValueWords();
    LowerIsFold(ch, 99);
    LowerIsFold(ch, 107);
    DifferentFirst([Fold(ch)]);
  }

  /** The flags of a finished line, by the words: `v` is the value without the spaces before it. */
  function FlagsOf(f: Flags, class_: NameClass, v: seq<byte>): Flags {
    var word := FoldAll(TrimRight(v));
    match class_
    case Connection =>
      if word == WORD_KEEP_ALIVE then f.(keepAlive := true)
      else if word == WORD_CLOSE then f.(close := true)
      else f
    case TransferEncoding => if word == WORD_CHUNKED then f.(chunked := true) else f
    case _ => f
  }

  /** A finished value sets the keep-alive, close and chunked flags exactly for their words. */
  lemma ValueRecognised(f: Flags, hs0: HeaderState, v: seq<byte>)
    requires v != [] && CR !in v
    ensures LineFlags(f, TrackValue(hs0, v).0) == FlagsOf(f, ClassOf(hs0), v)
  {
    var t := FoldAll(v);
    TrackValueKnown(hs0, v);
    FoldTrim(v);
    ValueWords();
    NoSpaces();
    DifferentFirst(t);
    hide WORD_CHUNKED, WORD_KEEP_ALIVE, WORD_CLOSE, TrackValue, FoldAll, TrimRight, Agrees;
    CoversIsTrimmed(t, WORD_CHUNKED);
    CoversIsTrimmed(t, WORD_KEEP_ALIVE);
    CoversIsTrimmed(t, WORD_CLOSE);
  }
}
