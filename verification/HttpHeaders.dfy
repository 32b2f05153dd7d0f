/** Header lines: the automaton that follows names and values byte by byte recognises exactly the
    words it is meant to recognise, in any case and with spaces after them. */
module HttpHeaders {
  import opened HttpParser
  import opened HttpRun
  import opened HttpMarks
  import opened HttpReads

  const CONNECTION := "connection"
  const PROXY_CONNECTION := "proxy-connection"
  const CONTENT_LENGTH := "content-length"
  const TRANSFER_ENCODING := "transfer-encoding"
  const UPGRADE := "upgrade"
  const CHUNKED := "chunked"
  const KEEP_ALIVE := "keep-alive"
  const CLOSE := "close"

  /** The first letters of a word. */
  predicate Begins(w: string, word: string) { |w| <= |word| && w == word[..|w|] }

  /** A word with spaces after it; `v` is the text before it was put into lower case. */
  predicate Spaced(w: string, v: seq<Byte>, word: string) {
    |word| <= |w| == |v| && w[..|word|] == word && forall i | |word| <= i < |v| :: v[i] == ' '
  }

  lemma BeginsNext(w: string, c: char, word: string)
    ensures Begins(w + [c], word) <==> Begins(w, word) && |w| < |word| && c == word[|w|]
  {
    if |w| < |word| {
      assert word[..|w| + 1] == word[..|w|] + [word[|w|]];
      assert (w + [c])[..|w|] == w && (w + [c])[|w|] == c;
      if w + [c] == word[..|w| + 1] { assert w == word[..|w| + 1][..|w|] == word[..|w|]; }
    }
  }

  lemma SpacedNext(w: string, v: seq<Byte>, c: char, ch: Byte, word: string)
    requires |w| == |v| && word != []
    ensures Spaced(w + [c], v + [ch], word) <==>
            (Spaced(w, v, word) && ch == ' ') || (Begins(w + [c], word) && |w| + 1 == |word|)
  {
    var w', v' := w + [c], v + [ch];
    if |word| <= |w| {
      assert w'[..|word|] == w[..|word|];
      assert v'[|v|] == ch;
      assert forall i | 0 <= i < |v| :: v'[i] == v[i];
    } else if |word| == |w| + 1 {
      assert w'[..|word|] == w' && word[..|w'|] == word;
    }
  }

  // ---- names

  /** Lower case, as the table of token characters has it. */
  function Lowered(v: seq<Byte>): (w: string)
    ensures |w| == |v| && forall i | 0 <= i < |v| :: w[i] == Token(v[i])
  {
    seq(|v|, i requires 0 <= i < |v| => Token(v[i]))
  }

  predicate Follows(hs: HeaderState) { hs.C? || hs.CO? || hs.CON? || MatchingField(hs) }

  /** What the header state says about the part `w` of a name that has been read. */
  predicate Reading(hs: HeaderState, index: nat, w: string, v: seq<Byte>) {
    && (Follows(hs) ==> index + 1 == |w|) && (Follows(hs) || FullField(hs) || hs == General)
    && (hs == C <==> Begins(w, CONNECTION) && |w| == 1)
    && (hs == CO <==> Begins(w, CONNECTION) && |w| == 2)
    && (hs == CON <==> Begins(w, CONNECTION) && |w| == 3)
    && (|w| <= 3 ==> (Begins(w, CONTENT_LENGTH) <==> Begins(w, CONNECTION)))
    && (hs == MatchingConnection <==> Begins(w, CONNECTION) && 4 <= |w| < 10)
    && (hs == MatchingContentLength <==> Begins(w, CONTENT_LENGTH) && 4 <= |w| < 14)
    && (hs == MatchingProxyConnection <==> Begins(w, PROXY_CONNECTION) && |w| < 16)
    && (hs == MatchingTransferEncoding <==> Begins(w, TRANSFER_ENCODING) && |w| < 17)
    && (hs == MatchingUpgrade <==> Begins(w, UPGRADE) && |w| < 7)
    && (hs == Connection <==> Spaced(w, v, CONNECTION) || Spaced(w, v, PROXY_CONNECTION))
    && (hs == ContentLength <==> Spaced(w, v, CONTENT_LENGTH))
    && (hs == TransferEncoding <==> Spaced(w, v, TRANSFER_ENCODING))
    && (hs == Upgrade <==> Spaced(w, v, UPGRADE))
  }

  predicate Grows(w: string, v: seq<Byte>, c: char, ch: Byte, word: string) {
    && (Begins(w + [c], word) <==> Begins(w, word) && |w| < |word| && c == word[|w|])
    && (Spaced(w + [c], v + [ch], word) <==>
        (Spaced(w, v, word) && ch == ' ') || (Begins(w + [c], word) && |w| + 1 == |word|))
  }

  lemma NextLetters(w: string, v: seq<Byte>, c: char, ch: Byte)
    requires |w| == |v|
    ensures Grows(w, v, c, ch, CONNECTION) && Grows(w, v, c, ch, PROXY_CONNECTION) && Grows(w, v, c, ch, CONTENT_LENGTH)
    ensures Grows(w, v, c, ch, TRANSFER_ENCODING) && Grows(w, v, c, ch, UPGRADE)
  {
    hide Begins, Spaced;
    BeginsNext(w, c, CONNECTION); SpacedNext(w, v, c, ch, CONNECTION);
    BeginsNext(w, c, PROXY_CONNECTION); SpacedNext(w, v, c, ch, PROXY_CONNECTION);
    BeginsNext(w, c, CONTENT_LENGTH); SpacedNext(w, v, c, ch, CONTENT_LENGTH);
    BeginsNext(w, c, TRANSFER_ENCODING); SpacedNext(w, v, c, ch, TRANSFER_ENCODING);
    BeginsNext(w, c, UPGRADE); SpacedNext(w, v, c, ch, UPGRADE);
  }

  predicate Steps(p: Parser, w: string, v: seq<Byte>, ch: Byte) {
    var out := FieldByte(p, ch, Token(ch));
    && out.Next? && out.acts == [] && out.q == p.(index := out.q.index, hs := out.q.hs)
    && Reading(out.q.hs, out.q.index, w + [Token(ch)], v + [ch])
  }

  lemma GeneralReads(p: Parser, w: string, v: seq<Byte>, ch: Byte)
    requires |w| == |v| > 0 && Reading(p.hs, p.index, w, v) && p.hs == General
    ensures Steps(p, w, v, ch)
  {
    hide Begins, Spaced, Token;
    NextLetters(w, v, Token(ch), ch);
  }

  lemma FullReads(p: Parser, w: string, v: seq<Byte>, ch: Byte)
    requires |w| == |v| > 0 && Reading(p.hs, p.index, w, v) && FullField(p.hs)
    ensures Steps(p, w, v, ch)
  {
    hide Begins, Spaced, Token;
    NextLetters(w, v, Token(ch), ch);
  }

  lemma FirstLettersRead(p: Parser, w: string, v: seq<Byte>, ch: Byte)
    requires |w| == |v| > 0 && Reading(p.hs, p.index, w, v) && (p.hs.C? || p.hs.CO? || p.hs.CON?)
    ensures Steps(p, w, v, ch)
  {
    hide Begins, Spaced, Token;
    NextLetters(w, v, Token(ch), ch);
  }

  lemma ConnectionReads(p: Parser, w: string, v: seq<Byte>, ch: Byte)
    requires |w| == |v| > 0 && Reading(p.hs, p.index, w, v) && p.hs.MatchingConnection?
    ensures Steps(p, w, v, ch)
  {
    hide Begins, Spaced, Token;
    NextLetters(w, v, Token(ch), ch);
  }

  lemma ContentLengthReads(p: Parser, w: string, v: seq<Byte>, ch: Byte)
    requires |w| == |v| > 0 && Reading(p.hs, p.index, w, v) && p.hs.MatchingContentLength?
    ensures Steps(p, w, v, ch)
  {
    hide Begins, Spaced, Token;
    NextLetters(w, v, Token(ch), ch);
  }

  lemma OtherWordReads(p: Parser, w: string, v: seq<Byte>, ch: Byte)
    requires |w| == |v| > 0 && Reading(p.hs, p.index, w, v)
    requires p.hs.MatchingProxyConnection? || p.hs.MatchingTransferEncoding? || p.hs.MatchingUpgrade?
    ensures Steps(p, w, v, ch)
  {
    hide Begins, Spaced, Token;
    NextLetters(w, v, Token(ch), ch);
  }

  /** One more byte of a name. */
  lemma FieldReads(p: Parser, w: string, v: seq<Byte>, ch: Byte)
    requires |w| == |v| > 0 && Reading(p.hs, p.index, w, v)
    ensures Steps(p, w, v, ch)
  {
    hide Steps, Begins, Spaced;
    match p.hs {
      case C | CO | CON => FirstLettersRead(p, w, v, ch);
      case MatchingConnection => ConnectionReads(p, w, v, ch);
      case MatchingContentLength => ContentLengthReads(p, w, v, ch);
      case MatchingProxyConnection | MatchingTransferEncoding | MatchingUpgrade => OtherWordReads(p, w, v, ch);
      case General => GeneralReads(p, w, v, ch);
      case _ => FullReads(p, w, v, ch);
    }
  }

  function FirstState(c: char): HeaderState {
    if c == 'c' then C else if c == 'p' then MatchingProxyConnection
    else if c == 't' then MatchingTransferEncoding else if c == 'u' then MatchingUpgrade else General
  }

  lemma FirstReads(ch: Byte)
    ensures Reading(FirstState(Token(ch)), 0, [Token(ch)], [ch])
  {
    hide Begins, Spaced, Token;
    var w: string, v: seq<Byte> := [], [];
    NextLetters(w, v, Token(ch), ch);
    NoLetters();
    assert w + [Token(ch)] == [Token(ch)] && v + [ch] == [ch];
  }

  lemma NoLetters()
    ensures Begins([], CONNECTION) && Begins([], PROXY_CONNECTION) && Begins([], CONTENT_LENGTH)
    ensures Begins([], TRANSFER_ENCODING) && Begins([], UPGRADE) && Begins([], CHUNKED) && Begins([], KEEP_ALIVE) &&
            Begins([], CLOSE)
    ensures !Spaced([], [], CONNECTION) && !Spaced([], [], PROXY_CONNECTION) && !Spaced([], [], CONTENT_LENGTH)
    ensures !Spaced([], [], TRANSFER_ENCODING) && !Spaced([], [], UPGRADE)
    ensures !Spaced([], [], CHUNKED) && !Spaced([], [], KEEP_ALIVE) && !Spaced([], [], CLOSE)
  {
  }

  predicate IsToken(ch: Byte) { Token(ch) != '\0' }

  predicate NameOk(v: seq<Byte>) { v != [] && forall i | 0 <= i < |v| :: IsToken(v[i]) }

  lemma NameBytes(ch: Byte)
    requires IsToken(ch)
    ensures ch != CR && ch != LF && ch != ':'
  {
  }

  lemma FirstStep(p: Parser, ch: Byte)
    requires p.state == HeaderFieldStart && p.nread < MAX_HEADER_SIZE && IsToken(ch)
    ensures Step(p, ch) ==
            Next(p.(nread := p.nread + 1, index := 0, state := HeaderField, hs := FirstState(Token(ch))), [Mark(Field)])
  {
    NameBytes(ch);
    hide StartMove, ProtocolMove, ResponseMove, VersionMove, HostMove, UrlMove, MethodMove, HeadersDone,
         HeaderDone, FieldMove, ValueStartMove, ValueMove, ChunkMove, BodyMove, Token;
  }

  lemma FieldStep(p: Parser, ch: Byte)
    requires p.state == HeaderField && p.nread < MAX_HEADER_SIZE && IsToken(ch)
    ensures Step(p, ch) == FieldByte(p.(nread := p.nread + 1), ch, Token(ch))
  {
    hide StartMove, ProtocolMove, ResponseMove, VersionMove, HostMove, UrlMove, MethodMove, HeadersDone, FieldStartMove,
         HeaderDone, ValueStartMove, ValueMove, ChunkMove, BodyMove, Token, FieldByte;
  }

  lemma InField(s: State, ch: Byte)
    requires s == HeaderField
    ensures MarkedByte(s, ch, false) == [Datum(Field, ch)] && MarkedByte(s, ch, true) == []
  {
  }

  /** Where a name leads: the header state tells which word it is. */
  lemma {:induction false} NameReads(p: Parser, v: seq<Byte>) returns (q: Parser)
    requires p.state == HeaderFieldStart && NameOk(v) && p.nread + |v| <= MAX_HEADER_SIZE
    ensures Leads(p, v, q, Bytes(Field, v), []) && Reading(q.hs, q.index, Lowered(v), v)
    ensures q == p.(state := HeaderField, hs := q.hs, index := q.index, nread := p.nread + |v|)
    decreases |v|
  {
    hide Leads, Step, Token, Reading, FieldByte, MarkedByte, IsToken;
    var init, ch := v[..|v| - 1], v[|v| - 1];
    assert v == init + [ch];
    if init == [] {
      FirstStep(p, ch);
      q := p.(nread := p.nread + 1, index := 0, state := HeaderField, hs := FirstState(Token(ch)));
      SilentByte(p, ch, q, [Mark(Field)]);
      FirstReads(ch);
      assert Lowered(v) == [Token(ch)] && v == [ch];
      InField(q.state, ch);
      assert Bytes(Field, v) == [Datum(Field, ch)];
    } else {
      var r := NameReads(p, init);
      FieldStep(r, ch);
      FieldReads(r.(nread := r.nread + 1), Lowered(init), init, ch);
      q := FieldByte(r.(nread := r.nread + 1), ch, Token(ch)).q;
      SilentByte(r, ch, q, []);
      InField(q.state, ch);
      LeadsOn(p, init, r, Bytes(Field, init), [], [ch], q, [Datum(Field, ch)], []);
      assert Lowered(v) == Lowered(init) + [Token(ch)];
      assert Bytes(Field, v) == Bytes(Field, init) + [Datum(Field, ch)] && NOTHING + NOTHING == NOTHING;
    }
  }

  // ---- values

  function LoweredText(v: seq<Byte>): (w: string)
    ensures |w| == |v| && forall i | 0 <= i < |v| :: w[i] == Lower(v[i])
  {
    seq(|v|, i requires 0 <= i < |v| => Lower(v[i]))
  }

  /** What the header state says about the part `w` of the value of a field that was recognised as `f`. */
  predicate Valuing(f: HeaderState, hs: HeaderState, index: nat, w: string, v: seq<Byte>) {
    && (MatchingValue(hs) ==> index + 1 == |w|) &&
      (MatchingValue(hs) || FullValue(hs) || hs == General || hs == ContentLength)
    && (hs == ContentLength <==> f == ContentLength)
    && (hs == MatchingChunked <==> f == TransferEncoding && Begins(w, CHUNKED) && |w| < 7)
    && (hs == MatchingKeepAlive <==> f == Connection && Begins(w, KEEP_ALIVE) && |w| < 10)
    && (hs == MatchingClose <==> f == Connection && Begins(w, CLOSE) && |w| < 5)
    && (hs == Chunked <==> f == TransferEncoding && Spaced(w, v, CHUNKED))
    && (hs == KeepAlive <==> f == Connection && Spaced(w, v, KEEP_ALIVE))
    && (hs == Close <==> f == Connection && Spaced(w, v, CLOSE))
  }

  lemma NextValueLetters(w: string, v: seq<Byte>, c: char, ch: Byte)
    requires |w| == |v|
    ensures Grows(w, v, c, ch, CHUNKED) && Grows(w, v, c, ch, KEEP_ALIVE) && Grows(w, v, c, ch, CLOSE)
  {
    hide Begins, Spaced;
    BeginsNext(w, c, CHUNKED); SpacedNext(w, v, c, ch, CHUNKED);
    BeginsNext(w, c, KEEP_ALIVE); SpacedNext(w, v, c, ch, KEEP_ALIVE);
    BeginsNext(w, c, CLOSE); SpacedNext(w, v, c, ch, CLOSE);
  }

  /** The value of a content length: digits, between which spaces are skipped. */
  function Number(v: seq<Byte>): nat {
    if v == [] then 0 else
      var n := Number(v[..|v| - 1]);
      if Digit(v[|v| - 1]) then n * 10 + DigitValue(v[|v| - 1]) else n
  }

  predicate NumberOk(v: seq<Byte>) {
    v != [] && Digit(v[0]) && (forall i | 0 <= i < |v| :: Digit(v[i]) || v[i] == ' ') && Number(v) < INT64_LIMIT
  }

  predicate TextByte(ch: Byte) { ch != CR && ch != LF }

  predicate TextOk(f: HeaderState, v: seq<Byte>) {
    && v != [] && v[0] != ' ' && (forall i | 0 <= i < |v| :: TextByte(v[i]))
    && (f == ContentLength ==> NumberOk(v))
  }

  function FlagsIn(f: HeaderState, flags: Flags): Flags { if f == Upgrade then flags.(upgrade := true) else flags }

  function LengthIn(f: HeaderState, v: seq<Byte>, length: int): int { if f == ContentLength then Number(v) else length }

  lemma NumberOne(ch: Byte)
    requires Digit(ch)
    ensures Number([ch]) == DigitValue(ch)
  {
    assert [ch][..0] == [];
  }

  lemma ValueStartStep(p: Parser, ch: Byte)
    requires p.state == HeaderValueStart && p.nread < MAX_HEADER_SIZE
    ensures Step(p, ch) == ValueStartMove(p.(nread := p.nread + 1), ch)
  {
    hide StartMove, ProtocolMove, ResponseMove, VersionMove, HostMove, UrlMove, MethodMove, HeadersDone, FieldStartMove,
         HeaderDone, FieldMove, ValueMove, ChunkMove, BodyMove, ValueStartMove;
  }

  lemma FirstValued(f: HeaderState, hs: HeaderState, ch: Byte)
    requires var c := Lower(ch);
             hs == match f
                   case TransferEncoding => (if c == 'c' then MatchingChunked else General)
                   case ContentLength => ContentLength
                   case Connection => (if c == 'k' then MatchingKeepAlive
                     else if c == 'c' then MatchingClose else General)
                   case _ => General
    ensures Valuing(f, hs, 0, [Lower(ch)], [ch])
  {
    hide Lower, Begins, Spaced;
    var w: string, v: seq<Byte> := [], [];
    NextValueLetters(w, v, Lower(ch), ch);
    NoLetters();
    assert w + [Lower(ch)] == [Lower(ch)] && v + [ch] == [ch];
  }

  lemma ValueFirst(p: Parser, ch: Byte)
    requires p.state == HeaderValueStart && p.nread < MAX_HEADER_SIZE && TextByte(ch) && ch != ' '
    requires p.hs == ContentLength ==> Digit(ch)
    ensures Step(p, ch).Next? && Step(p, ch).acts == [Mark(Value)]
    ensures var q := Step(p, ch).q;
            && q == p.(state := HeaderValue, index := 0, nread := p.nread + 1, hs := q.hs,
                       flags := FlagsIn(p.hs, p.flags), length := LengthIn(p.hs, [ch], p.length))
            && Valuing(p.hs, q.hs, q.index, [Lower(ch)], [ch])
  {
    hide Step, Lower, Valuing, Number;
    ValueStartStep(p, ch);
    if Digit(ch) { NumberOne(ch); }
    FirstValued(p.hs, Step(p, ch).q.hs, ch);
  }

  lemma ValueStep(p: Parser, ch: Byte)
    requires p.state == HeaderValue && p.nread < MAX_HEADER_SIZE && TextByte(ch)
    ensures Step(p, ch) == ValueByte(p.(nread := p.nread + 1), ch, Lower(ch))
  {
    hide StartMove, ProtocolMove, ResponseMove, VersionMove, HostMove, UrlMove, MethodMove, HeadersDone, FieldStartMove,
         HeaderDone, FieldMove, ValueStartMove, ChunkMove, BodyMove, ValueByte, Lower;
  }

  predicate ValueSteps(p: Parser, f: HeaderState, w: string, v: seq<Byte>, ch: Byte) {
    var out := ValueByte(p, ch, Lower(ch));
    && out.Next? && out.acts == []
    && out.q ==
      p.(index := out.q.index, hs := out.q.hs, length := if f == ContentLength then Number(v + [ch]) else p.length)
    && Valuing(f, out.q.hs, out.q.index, w + [Lower(ch)], v + [ch])
  }

  lemma ValueWordReads(p: Parser, f: HeaderState, w: string, v: seq<Byte>, ch: Byte)
    requires |w| == |v| > 0 && Valuing(f, p.hs, p.index, w, v) && MatchingValue(p.hs)
    ensures ValueSteps(p, f, w, v, ch)
  {
    hide Begins, Spaced, Lower, Number;
    NextValueLetters(w, v, Lower(ch), ch);
  }

  lemma ValueRestReads(p: Parser, f: HeaderState, w: string, v: seq<Byte>, ch: Byte)
    requires |w| == |v| > 0 && Valuing(f, p.hs, p.index, w, v) && (FullValue(p.hs) || p.hs == General)
    ensures ValueSteps(p, f, w, v, ch)
  {
    hide Begins, Spaced, Lower, Number;
    NextValueLetters(w, v, Lower(ch), ch);
  }

  lemma LengthReads(p: Parser, w: string, v: seq<Byte>, ch: Byte)
    requires |w| == |v| > 0 && Valuing(ContentLength, p.hs, p.index, w, v)
    requires (Digit(ch) || ch == ' ') && p.length == Number(v) && Number(v + [ch]) < INT64_LIMIT
    ensures ValueSteps(p, ContentLength, w, v, ch)
  {
    hide Begins, Spaced, Lower, Number;
    NumberNext(v, ch);
  }

  /** One more byte of a value. */
  lemma ValueReads(p: Parser, f: HeaderState, w: string, v: seq<Byte>, ch: Byte)
    requires |w| == |v| > 0 && Valuing(f, p.hs, p.index, w, v)
    requires f == ContentLength ==> (Digit(ch) || ch == ' ') && p.length == Number(v) && Number(v + [ch]) < INT64_LIMIT
    ensures ValueSteps(p, f, w, v, ch)
  {
    hide Begins, Spaced, ValueSteps, Number;
    if f == ContentLength { LengthReads(p, w, v, ch); }
    else if MatchingValue(p.hs) { ValueWordReads(p, f, w, v, ch); }
    else { ValueRestReads(p, f, w, v, ch); }
  }

  lemma NumberNext(v: seq<Byte>, ch: Byte)
    ensures Number(v + [ch]) == if Digit(ch) then Number(v) * 10 + DigitValue(ch) else Number(v)
  {
    assert (v + [ch])[..|v|] == v;
  }

  lemma {:induction false} NumberMono(v: seq<Byte>, k: nat)
    requires k <= |v|
    ensures Number(v[..k]) <= Number(v)
    decreases |v| - k
  {
    if k < |v| {
      NumberNext(v[..k], v[k]);
      assert v[..k] + [v[k]] == v[..k + 1];
      NumberMono(v, k + 1);
    } else {
      assert v[..k] == v;
    }
  }

  lemma InValue(s: State, ch: Byte)
    requires s == HeaderValue
    ensures MarkedByte(s, ch, false) == [Datum(Value, ch)] && MarkedByte(s, ch, true) == []
  {
  }

  lemma FirstDigit(f: HeaderState, v: seq<Byte>)
    requires TextOk(f, v)
    ensures f == ContentLength ==> Digit(v[0])
  {
  }

  lemma ValuePrefix(f: HeaderState, v: seq<Byte>)
    requires TextOk(f, v) && |v| > 1
    ensures TextOk(f, v[..|v| - 1])
    ensures var ch := v[|v| - 1];
            TextByte(ch) && (f == ContentLength ==> (Digit(ch) || ch == ' ') && Number(v) < INT64_LIMIT)
  {
    NumberMono(v, |v| - 1);
  }

  lemma FirstByteReads(p: Parser, v: seq<Byte>) returns (q: Parser)
    requires p.state == HeaderValueStart && |v| == 1 && TextOk(p.hs, v) && p.nread < MAX_HEADER_SIZE
    ensures Leads(p, v, q, Bytes(Value, v), []) && Valuing(p.hs, q.hs, q.index, LoweredText(v), v)
    ensures q == p.(state := HeaderValue, hs := q.hs, index := q.index, nread := p.nread + 1,
                    flags := FlagsIn(p.hs, p.flags), length := LengthIn(p.hs, v, p.length))
  {
    hide Leads, Step, Lower, Valuing, MarkedByte, Number, NumberOk;
    var ch := v[0];
    assert v == [ch];
    FirstDigit(p.hs, v);
    ValueFirst(p, ch);
    q := Step(p, ch).q;
    SilentByte(p, ch, q, [Mark(Value)]);
    assert LoweredText(v) == [Lower(ch)];
    InValue(q.state, ch);
    assert Bytes(Value, v) == [Datum(Value, ch)];
  }

  /** Where a value leads: the header state tells which word it is. */
  lemma {:induction false} ValueTextReads(p: Parser, v: seq<Byte>) returns (q: Parser)
    requires p.state == HeaderValueStart && TextOk(p.hs, v) && p.nread + |v| <= MAX_HEADER_SIZE
    ensures Leads(p, v, q, Bytes(Value, v), []) && Valuing(p.hs, q.hs, q.index, LoweredText(v), v)
    ensures q == p.(state := HeaderValue, hs := q.hs, index := q.index, nread := p.nread + |v|,
                    flags := FlagsIn(p.hs, p.flags), length := LengthIn(p.hs, v, p.length))
    decreases |v|
  {
    hide Leads, Step, Lower, Valuing, ValueByte, MarkedByte, Number, NumberOk;
    var init, ch := v[..|v| - 1], v[|v| - 1];
    assert v == init + [ch];
    if init == [] {
      q := FirstByteReads(p, v);
    } else {
      ValuePrefix(p.hs, v);
      var r := ValueTextReads(p, init);
      ValueStep(r, ch);
      ValueReads(r.(nread := r.nread + 1), p.hs, LoweredText(init), init, ch);
      q := ValueByte(r.(nread := r.nread + 1), ch, Lower(ch)).q;
      SilentByte(r, ch, q, []);
      InValue(q.state, ch);
      LeadsOn(p, init, r, Bytes(Value, init), [], [ch], q, [Datum(Value, ch)], []);
      assert LoweredText(v) == LoweredText(init) + [Lower(ch)];
      assert Bytes(Value, v) == Bytes(Value, init) + [Datum(Value, ch)] && NOTHING + NOTHING == NOTHING;
    }
  }

  // ---- header lines

  /** A header line: a name, a colon, any number of spaces and a value; or just a name. */
  datatype Header =
    | Header(name: seq<Byte>, gap: nat, value: seq<Byte>, end: Eol)
    | Lone(name: seq<Byte>, end: Eol)

  function ValueOf(h: Header): seq<Byte> { if h.Lone? then [] else h.value }

  /** The field that a name stands for. */
  function FieldOf(name: seq<Byte>): HeaderState {
    var w := Lowered(name);
    if Spaced(w, name, CONNECTION) || Spaced(w, name, PROXY_CONNECTION) then Connection
    else if Spaced(w, name, CONTENT_LENGTH) then ContentLength
    else if Spaced(w, name, TRANSFER_ENCODING) then TransferEncoding
    else if Spaced(w, name, UPGRADE) then Upgrade
    else General
  }

  /** What a header means for the message: its flags and the length of its body. */
  function FlagsOf(h: Header, flags: Flags): Flags {
    if ValueOf(h) == [] then flags else
      var w := LoweredText(h.value);
      match FieldOf(h.name)
      case Connection =>
        if Spaced(w, h.value, KEEP_ALIVE) then flags.(keepAlive := true)
        else if Spaced(w, h.value, CLOSE) then flags.(close := true) else flags
      case TransferEncoding => if Spaced(w, h.value, CHUNKED) then flags.(chunked := true) else flags
      case Upgrade => flags.(upgrade := true)
      case _ => flags
  }

  function LengthOf(h: Header, length: int): int {
    if ValueOf(h) != [] && FieldOf(h.name) == ContentLength then Number(h.value) else length
  }

  predicate HeaderOk(h: Header) { NameOk(h.name) && (ValueOf(h) != [] ==> TextOk(FieldOf(h.name), h.value)) }

  function Spaces(n: nat): seq<Byte> { seq(n, _ => ' ') }

  function EncodeHeader(h: Header): seq<Byte> {
    if h.Lone? then h.name + EolText(h.end) else h.name + [':'] + Spaces(h.gap) + h.value + EolText(h.end)
  }

  /** A full header state is the field of the name, and no other state is taken for one. */
  predicate Stands(hs: HeaderState, f: HeaderState) { (FullField(hs) ==> hs == f) && (f != General ==> hs == f) }

  lemma NameStands(hs: HeaderState, index: nat, name: seq<Byte>)
    requires Reading(hs, index, Lowered(name), name)
    ensures Stands(hs, FieldOf(name))
  {
    hide Begins, Spaced;
  }

  lemma ColonStep(p: Parser)
    requires p.state == HeaderField && p.nread < MAX_HEADER_SIZE
    ensures Step(p, ':') == Next(p.(state := HeaderValueStart, nread := p.nread + 1), [Flush(Field)])
  {
    hide StartMove, ProtocolMove, ResponseMove, VersionMove, HostMove, UrlMove, MethodMove, HeadersDone, FieldStartMove,
         HeaderDone, ValueStartMove, ValueMove, ChunkMove, BodyMove, FieldByte;
  }

  lemma FieldEnd(p: Parser)
    requires p.state == HeaderField && p.nread < MAX_HEADER_SIZE
    ensures Leads(p, [':'], p.(state := HeaderValueStart, nread := p.nread + 1), [], [])
  {
    hide Step, Leads, MarkedByte;
    var q := p.(state := HeaderValueStart, nread := p.nread + 1);
    ColonStep(p);
    SilentByte(p, ':', q, [Flush(Field)]);
    NotMarked(q.state, ':');
  }

  lemma {:induction false} GapReads(p: Parser, n: nat)
    requires p.state == HeaderValueStart && p.nread + n <= MAX_HEADER_SIZE
    ensures Leads(p, Spaces(n), p.(nread := p.nread + n), [], [])
  {
    hide Leads, Step;
    if n == 0 {
      assert Spaces(0) == [];
      LeadsNowhere(p);
    } else {
      GapReads(p, n - 1);
      var r := p.(nread := p.nread + n - 1);
      ValueStartStep(r, ' ');
      QuietByte(r, ' ', p.(nread := p.nread + n));
      LeadsOn(p, Spaces(n - 1), r, [], [], [' '], p.(nread := p.nread + n), [], []);
      assert Spaces(n) == Spaces(n - 1) + [' '] && NOTHING + NOTHING == NOTHING;
    }
  }

  function DoneFlags(hs: HeaderState, flags: Flags): Flags {
    match hs
    case KeepAlive => flags.(keepAlive := true)
    case Close => flags.(close := true)
    case Chunked => flags.(chunked := true)
    case _ => flags
  }

  lemma LineSteps(p: Parser)
    requires p.state == HeaderAlmostDone && p.nread < MAX_HEADER_SIZE
    ensures Step(p, LF) ==
            Next(p.(state := HeaderFieldStart, flags := DoneFlags(p.hs, p.flags), nread := p.nread + 1), [])
  {
    hide StartMove, ProtocolMove, ResponseMove, VersionMove, HostMove, UrlMove, MethodMove, HeadersDone, FieldStartMove,
         FieldMove, ValueStartMove, ValueMove, ChunkMove, BodyMove;
  }

  lemma ReturnSteps(p: Parser)
    requires p.nread < MAX_HEADER_SIZE
    ensures p.state == HeaderValue ==>
            Step(p, CR) == Next(p.(state := HeaderAlmostDone, nread := p.nread + 1), [Flush(Value)])
    ensures p.state == HeaderValueStart ==>
              Step(p, CR) ==
                Next(p.(state := HeaderAlmostDone, index := 0, hs := General, nread := p.nread + 1),
                [Mark(Value), Flush(Value)])
    ensures p.state == HeaderField ==>
            Step(p, CR) == Next(p.(state := HeaderAlmostDone, nread := p.nread + 1), [Flush(Field)])
  {
    hide StartMove, ProtocolMove, ResponseMove, VersionMove, HostMove, UrlMove, MethodMove, HeadersDone, FieldStartMove,
         HeaderDone, ChunkMove, BodyMove, ValueByte, FieldByte;
  }

  lemma FeedSteps(p: Parser)
    requires p.nread < MAX_HEADER_SIZE
    ensures p.state == HeaderValue ==>
              Step(p, LF) ==
                Next(p.(state := HeaderFieldStart, flags := DoneFlags(p.hs, p.flags), nread := p.nread + 1),
                [Flush(Value)])
    ensures p.state == HeaderValueStart ==>
              Step(p, LF) ==
                Next(p.(state := HeaderFieldStart, index := 0, nread := p.nread + 1), [Mark(Value), Flush(Value)])
    ensures p.state == HeaderField ==>
            Step(p, LF) == Next(p.(state := HeaderFieldStart, nread := p.nread + 1), [Flush(Field)])
  {
    hide StartMove, ProtocolMove, ResponseMove, VersionMove, HostMove, UrlMove, MethodMove, HeadersDone, FieldStartMove,
         ChunkMove, BodyMove, ValueByte, FieldByte;
  }

  predicate AtLineEnd(p: Parser) {
    p.state == HeaderValue || p.state == HeaderValueStart || (p.state == HeaderField && !FullValue(p.hs))
  }

  /** What the flags are after the end of a line. */
  function LineFlags(p: Parser): Flags { if p.state == HeaderValue then DoneFlags(p.hs, p.flags) else p.flags }

  lemma FeedEnds(p: Parser) returns (q: Parser)
    requires AtLineEnd(p) && p.nread < MAX_HEADER_SIZE
    ensures Leads(p, [LF], q, [], [])
    ensures q == p.(state := HeaderFieldStart, nread := p.nread + 1, hs := q.hs, index := q.index,
            flags := LineFlags(p))
  {
    hide Step, Leads, MarkedByte;
    FeedSteps(p);
    q := Step(p, LF).q;
    SilentByte(p, LF, q, Step(p, LF).acts);
    NotMarked(q.state, LF);
  }

  lemma ReturnEnds(p: Parser) returns (q: Parser)
    requires AtLineEnd(p) && p.nread + 2 <= MAX_HEADER_SIZE
    ensures Leads(p, CRLF, q, [], [])
    ensures q == p.(state := HeaderFieldStart, nread := p.nread + 2, hs := q.hs, index := q.index,
            flags := LineFlags(p))
  {
    hide Step, Leads, LineFlags, AtLineEnd, DoneFlags;
    var r := ReturnReads(p);
    LineSteps(r);
    q := r.(state := HeaderFieldStart, flags := DoneFlags(r.hs, r.flags), nread := r.nread + 1);
    QuietByte(r, LF, q);
    LeadsOn(p, [CR], r, [], [], [LF], q, [], []);
    assert [CR] + [LF] == CRLF && NOTHING + NOTHING == NOTHING;
  }

  lemma ReturnReads(p: Parser) returns (r: Parser)
    requires AtLineEnd(p) && p.nread < MAX_HEADER_SIZE
    ensures Leads(p, [CR], r, [], []) && DoneFlags(r.hs, r.flags) == LineFlags(p)
    ensures r == p.(state := HeaderAlmostDone, nread := p.nread + 1, hs := r.hs, index := r.index)
  {
    hide Step, Leads, MarkedByte;
    ReturnSteps(p);
    r := Step(p, CR).q;
    SilentByte(p, CR, r, Step(p, CR).acts);
    NotMarked(r.state, CR);
  }

  /** The end of a header line, after a value, before one or after the name. */
  lemma LineEnd(p: Parser, e: Eol) returns (q: Parser)
    requires AtLineEnd(p) && p.nread + |EolText(e)| <= MAX_HEADER_SIZE
    ensures Leads(p, EolText(e), q, [], [])
    ensures q == p.(state := HeaderFieldStart, nread := p.nread + |EolText(e)|, hs := q.hs, index := q.index,
            flags := LineFlags(p))
  {
    hide Leads, LineFlags, AtLineEnd;
    if e.Crlf? { q := ReturnEnds(p); } else { q := FeedEnds(p); }
  }

  lemma ValueMeans(h: Header, f: HeaderState, hs: HeaderState, index: nat, flags: Flags)
    requires ValueOf(h) != [] && Stands(f, FieldOf(h.name)) && Valuing(f, hs, index, LoweredText(h.value), h.value)
    ensures DoneFlags(hs, FlagsIn(f, flags)) == FlagsOf(h, flags)
  {
    hide Begins, FieldOf, Number;
    NotTwoWords(LoweredText(h.value), h.value);
  }

  lemma NotTwoWords(w: string, v: seq<Byte>)
    ensures !(Spaced(w, v, KEEP_ALIVE) && Spaced(w, v, CLOSE))
  {
    if Spaced(w, v, KEEP_ALIVE) { assert w[..10][0] == 'k'; }
    if Spaced(w, v, CLOSE) { assert w[..5][0] == 'c'; }
  }

  /** Name, colon and spaces. */
  lemma HeadReads(p: Parser, h: Header) returns (q: Parser)
    requires p.state == HeaderFieldStart && h.Header? && NameOk(h.name) &&
             p.nread + |h.name| + 1 + h.gap <= MAX_HEADER_SIZE
    ensures Leads(p, h.name + [':'] + Spaces(h.gap), q, Bytes(Field, h.name), []) && Stands(q.hs, FieldOf(h.name))
    ensures q == p.(state := HeaderValueStart, hs := q.hs, index := q.index, nread := p.nread + |h.name| + 1 + h.gap)
  {
    hide Leads, Reading, Stands, FieldOf, NameOk;
    var a := NameReads(p, h.name);
    NameStands(a.hs, a.index, h.name);
    FieldEnd(a);
    var b := a.(state := HeaderValueStart, nread := a.nread + 1);
    GapReads(b, h.gap);
    q := b.(nread := b.nread + h.gap);
    var n := Bytes(Field, h.name);
    assert n + [] == n && NOTHING + NOTHING == NOTHING;
    LeadsOn(p, h.name, a, n, [], [':'], b, [], []);
    LeadsOn(p, h.name + [':'], b, n, [], Spaces(h.gap), q, [], []);
  }

  /** Value and end of line. */
  lemma RestReads(p: Parser, h: Header) returns (q: Parser)
    requires p.state == HeaderValueStart && h.Header? && Stands(p.hs, FieldOf(h.name))
    requires p.nread + |h.value| + |EolText(h.end)| <= MAX_HEADER_SIZE
    requires h.value != [] ==> TextOk(FieldOf(h.name), h.value)
    ensures Leads(p, h.value + EolText(h.end), q, Bytes(Value, h.value), [])
    ensures q == p.(state := HeaderFieldStart, hs := q.hs, index := q.index,
            nread := p.nread + |h.value| + |EolText(h.end)|,
                    flags := FlagsOf(h, p.flags), length := LengthOf(h, p.length))
  {
    hide Leads, Valuing, Stands, FieldOf, TextOk, FlagsOf, LengthOf, DoneFlags, EolText;
    var v := Bytes(Value, h.value);
    assert v + [] == v && NOTHING + NOTHING == NOTHING;
    if h.value == [] {
      NoValue(h, p.flags, p.length);
      q := LineEnd(p, h.end);
      assert h.value + EolText(h.end) == EolText(h.end);
    } else {
      TextStands(p.hs, h);
      var d := ValueTextReads(p, h.value);
      ValueMeans(h, p.hs, d.hs, d.index, p.flags);
      LengthMeans(h, p.hs, p.length);
      q := LineEnd(d, h.end);
      LeadsOn(p, h.value, d, v, [], EolText(h.end), q, [], []);
    }
  }

  lemma NameIsNoValue(hs: HeaderState, index: nat, name: seq<Byte>)
    requires Reading(hs, index, Lowered(name), name)
    ensures !FullValue(hs)
  {
    hide Begins, Spaced;
  }

  /** A line without a colon. */
  lemma LoneReads(p: Parser, h: Header) returns (q: Parser)
    requires p.state == HeaderFieldStart && h.Lone? && NameOk(h.name) && p.nread + |EncodeHeader(h)| <= MAX_HEADER_SIZE
    ensures Leads(p, EncodeHeader(h), q, Bytes(Field, h.name), [])
    ensures q == p.(hs := q.hs, index := q.index, nread := p.nread + |EncodeHeader(h)|)
  {
    hide Leads, Reading, NameOk, EolText, FullValue;
    var a := NameReads(p, h.name);
    NameIsNoValue(a.hs, a.index, h.name);
    q := LineEnd(a, h.end);
    var n := Bytes(Field, h.name);
    LeadsOn(p, h.name, a, n, [], EolText(h.end), q, [], []);
    assert n + [] == n && NOTHING + NOTHING == NOTHING;
  }

  /** One header line: its name and its value are called back, and its meaning is noted. */
  lemma HeaderLine(p: Parser, h: Header) returns (q: Parser)
    requires p.state == HeaderFieldStart && HeaderOk(h) && p.nread + |EncodeHeader(h)| <= MAX_HEADER_SIZE
    ensures Leads(p, EncodeHeader(h), q, Bytes(Field, h.name) + Bytes(Value, ValueOf(h)), [])
    ensures q == p.(hs := q.hs, index := q.index, nread := p.nread + |EncodeHeader(h)|,
                    flags := FlagsOf(h, p.flags), length := LengthOf(h, p.length))
  {
    hide Leads, Stands, FieldOf, TextOk, NameOk, FlagsOf, LengthOf, Bytes, EolText;
    if h.Lone? {
      q := LoneReads(p, h);
      NoValue(h, p.flags, p.length);
      assert Bytes(Field, h.name) + [] == Bytes(Field, h.name);
    } else {
      var head := h.name + [':'] + Spaces(h.gap);
      assert EncodeHeader(h) == head + (h.value + EolText(h.end));
      var c := HeadReads(p, h);
      q := RestReads(c, h);
      LeadsOn(p, head, c, Bytes(Field, h.name), [], h.value + EolText(h.end), q, Bytes(Value, h.value), []);
      assert NOTHING + NOTHING == NOTHING;
    }
  }

  lemma TextStands(hs: HeaderState, h: Header)
    requires h.Header? && Stands(hs, FieldOf(h.name)) && TextOk(FieldOf(h.name), h.value)
    ensures TextOk(hs, h.value)
  {
    hide FieldOf, NumberOk;
  }

  lemma NoValue(h: Header, flags: Flags, length: int)
    requires ValueOf(h) == []
    ensures FlagsOf(h, flags) == flags && LengthOf(h, length) == length && Bytes(Value, ValueOf(h)) == []
  {
  }

  lemma LengthMeans(h: Header, f: HeaderState, length: int)
    requires Stands(f, FieldOf(h.name))
    ensures ValueOf(h) != [] ==> LengthIn(f, h.value, length) == LengthOf(h, length)
  {
    hide FieldOf, Number;
  }
}
