/** The chunked transfer coding of section 3.6.1 of RFC 2616, up to the trailer, as the parser reads
    it. */
module HttpChunked {
  import opened HttpParser
  import opened HttpRun
  import opened HttpMarks
  import opened HttpExecute
  import opened HttpReads

  predicate HexDigit(ch: Byte) { Digit(ch) || 'a' <= ch <= 'f' || 'A' <= ch <= 'F' }

  predicate AllHex(s: seq<Byte>) { forall i | 0 <= i < |s| :: HexDigit(s[i]) }

  function HexDigitValue(ch: Byte): nat
    requires HexDigit(ch)
  {
    if Digit(ch) then DigitValue(ch)
    else if 'a' <= ch <= 'f' then 10 + (ch as int - 'a' as int)
    else 10 + (ch as int - 'A' as int)
  }

  function HexValue(s: seq<Byte>): nat
    requires AllHex(s)
  {
    if s == [] then 0 else HexValue(s[..|s| - 1]) * 16 + HexDigitValue(s[|s| - 1])
  }

  /** What the size reader takes a byte for: its table is too short, and beyond it everything is 0. */
  function TakenFor(ch: Byte): Byte { if ch as int >= 128 then '0' else ch }

  function AllTakenFor(s: seq<Byte>): seq<Byte> { seq(|s|, i requires 0 <= i < |s| => TakenFor(s[i])) }

  /** The bytes that end a size. */
  predicate EndsSize(ch: Byte) { ch == CR || ch == ';' || ch == ' ' }

  /** A chunk, any spelling of its size, and what else is on the line of the size. */
  datatype Chunk = Chunk(size: seq<Byte>, extension: seq<Byte>, data: seq<Byte>)

  predicate ExtensionOk(ext: seq<Byte>) {
    ext != [] ==> (ext[0] == ';' || ext[0] == ' ') && forall i | 0 <= i < |ext| :: ext[i] != CR
  }

  /** `size` spells `n` in hexadecimal, in a line that the header limit admits. */
  predicate Spells(size: seq<Byte>, ext: seq<Byte>, n: nat) {
    && size != [] && |size| + |ext| + 2 <= MAX_HEADER_SIZE && ExtensionOk(ext)
    && AllHex(size) && HexValue(size) == n < INT64_LIMIT
  }

  predicate ChunkOk(c: Chunk) { c.data != [] && Spells(c.size, c.extension, |c.data|) }

  function Encode(c: Chunk): seq<Byte> { c.size + c.extension + CRLF + (c.data + CRLF) }

  function EncodeAll(chunks: seq<Chunk>): seq<Byte> {
    if chunks == [] then [] else EncodeAll(chunks[..|chunks| - 1]) + Encode(chunks[|chunks| - 1])
  }

  function Payload(chunks: seq<Chunk>): seq<Byte> {
    if chunks == [] then [] else Payload(chunks[..|chunks| - 1]) + chunks[|chunks| - 1].data
  }

  function InSize(p: Parser, s: seq<Byte>): Parser
    requires AllHex(s)
  {
    p.(state := ChunkSize, length := HexValue(s), nread := |s|)
  }

  /** The chunk states outside the data. */
  lemma StepInChunk(p: Parser, ch: Byte)
    requires p.state.ChunkSizeStart? || p.state.ChunkSize? || p.state.ChunkParameters? ||
             p.state.ChunkSizeAlmostDone? || p.state.ChunkDataAlmostDone? || p.state.ChunkDataDone?
    requires p.nread < MAX_HEADER_SIZE
    ensures Step(p, ch) == ChunkMove(if Counted(p.state) then p.(nread := p.nread + 1) else p, ch)
  {
    hide StartMove, ProtocolMove, ResponseMove, VersionMove, HostMove, UrlMove, MethodMove, FieldStartMove,
         HeadersDone, HeaderDone, FieldMove, ValueStartMove, ValueMove, ChunkMove, BodyMove;
  }

  lemma UnhexIs(ch: Byte)
    ensures Unhex(ch) == if HexDigit(TakenFor(ch)) then HexDigitValue(TakenFor(ch)) else -1
    ensures HexDigit(TakenFor(ch)) ==> HexDigitValue(TakenFor(ch)) < 16 && !EndsSize(ch)
  {
  }

  lemma OneDigit(ch: Byte)
    requires HexDigit(ch)
    ensures AllHex([ch]) && HexValue([ch]) == HexDigitValue(ch)
  {
    assert [ch][..0] == [];
  }

  lemma HexSnoc(s: seq<Byte>, ch: Byte)
    ensures AllHex(s + [ch]) <==> AllHex(s) && HexDigit(ch)
    ensures AllHex(s + [ch]) ==> HexValue(s + [ch]) == HexValue(s) * 16 + HexDigitValue(ch)
  {
    assert (s + [ch])[..|s|] == s && (s + [ch])[|s|] == ch;
    assert forall i | 0 <= i < |s| :: s[i] == (s + [ch])[i];
  }

  lemma TakenForSnoc(s: seq<Byte>, ch: Byte)
    ensures AllTakenFor(s + [ch]) == AllTakenFor(s) + [TakenFor(ch)]
  {
  }

  /** A text is hexadecimal exactly when it is taken for hexadecimal and has no byte beyond the
      table, and then it is taken for itself. */
  lemma HexIsTakenForHex(s: seq<Byte>)
    ensures AllHex(s) <==> AllHex(AllTakenFor(s)) && forall i | 0 <= i < |s| :: s[i] as int < 128
    ensures AllHex(s) ==> AllTakenFor(s) == s
  {
    if AllHex(AllTakenFor(s)) && forall i | 0 <= i < |s| :: s[i] as int < 128 {
      forall i | 0 <= i < |s| ensures HexDigit(s[i]) { assert HexDigit(AllTakenFor(s)[i]); }
    }
  }

  lemma FirstDigit(p: Parser, ch: Byte)
    requires p.state == ChunkSizeStart && p.flags.chunked && p.nread == 0
    ensures Step(p, ch) == if AllHex([TakenFor(ch)]) then Next(InSize(p, [TakenFor(ch)]), []) else Fail([])
  {
    hide Step, HexValue, Unhex, HexDigit, TakenFor, HexDigitValue;
    StepInChunk(p, ch);
    UnhexIs(ch);
    if HexDigit(TakenFor(ch)) { OneDigit(TakenFor(ch)); } else { assert !HexDigit([TakenFor(ch)][0]); }
  }

  /** Whether the size reader gets through bytes that it takes for `t`. */
  predicate TakesSize(t: seq<Byte>) { AllHex(t) && HexValue(t) < INT64_LIMIT && |t| <= MAX_HEADER_SIZE }

  lemma NextDigit(p: Parser, t: seq<Byte>, ch: Byte)
    requires p.flags.chunked && TakesSize(t) && !EndsSize(ch)
    ensures TakesSize(t + [TakenFor(ch)]) ==> Step(InSize(p, t), ch) == Next(InSize(p, t + [TakenFor(ch)]), [])
    ensures !TakesSize(t + [TakenFor(ch)]) ==> !Step(InSize(p, t), ch).Next?
  {
    hide Step, HexValue, AllHex, Unhex, HexDigit, TakenFor, HexDigitValue;
    HexSnoc(t, TakenFor(ch));
    UnhexIs(ch);
    if |t| < MAX_HEADER_SIZE { StepInChunk(InSize(p, t), ch); } else { SizeTooLong(InSize(p, t), ch); }
  }

  lemma SizeTooLong(p: Parser, ch: Byte)
    requires p.state == ChunkSize && p.nread >= MAX_HEADER_SIZE
    ensures Step(p, ch) == Fail([])
  {
    hide Move;
  }

  lemma InSizeState(p: Parser, s: seq<Byte>)
    requires AllHex(s)
    ensures Kinds(InSize(p, s).state) == {}
  {
  }

  lemma SizeStep(p: Parser, s: seq<Byte>, t: seq<Byte>, ch: Byte, t': seq<Byte>)
    requires AllHex(t) && AllHex(t') && Leads(p, s, InSize(p, t), [], [])
    requires Step(InSize(p, t), ch) == Next(InSize(p, t'), [])
    ensures Leads(p, s + [ch], InSize(p, t'), [], [])
  {
    hide Leads, Step, HexValue, AllHex;
    QuietByte(InSize(p, t), ch, InSize(p, t'));
    LeadsOn(p, s, InSize(p, t), [], [], [ch], InSize(p, t'), [], []);
    assert NOTHING + NOTHING == NOTHING;
  }

  /** A run that has stopped, or stops at the next byte, does not get past it. */
  lemma StoppedOn(p: Parser, s: seq<Byte>, ch: Byte)
    requires Run(p, s, |s|).Stopped? || !Step(Run(p, s, |s|).q, ch).Next?
    ensures Run(p, s + [ch], |s| + 1).Stopped?
  {
    hide Step;
    RunPrefix(p, s, [ch], |s|, false);
    assert (s + [ch])[|s|] == ch;
  }

  /** The bytes of a size are read exactly when what they are taken for is hexadecimal and below
      2^63, and the line is short enough. */
  lemma {:induction false} SizeReads(p: Parser, s: seq<Byte>)
    requires p.state == ChunkSizeStart && p.flags.chunked && p.nread == 0
    requires s != [] && forall i | 0 <= i < |s| :: !EndsSize(s[i])
    ensures TakesSize(AllTakenFor(s)) ==> Leads(p, s, InSize(p, AllTakenFor(s)), [], [])
    ensures !TakesSize(AllTakenFor(s)) ==> Run(p, s, |s|).Stopped?
  {
    hide Leads, Step, Run, Said, HexValue, AllHex, TakenFor, EndsSize;
    var init, ch := s[..|s| - 1], s[|s| - 1];
    assert s == init + [ch] && !EndsSize(ch);
    TakenForSnoc(init, ch);
    if init == [] {
      assert s == [ch] && AllTakenFor(s) == [TakenFor(ch)];
      FirstReads(p, ch);
    } else {
      SizeReads(p, init);
      SizeReadsOn(p, init, AllTakenFor(init), ch);
    }
  }

  lemma FirstReads(p: Parser, ch: Byte)
    requires p.state == ChunkSizeStart && p.flags.chunked && p.nread == 0
    ensures TakesSize([TakenFor(ch)]) ==> Leads(p, [ch], InSize(p, [TakenFor(ch)]), [], [])
    ensures !TakesSize([TakenFor(ch)]) ==> Run(p, [ch], 1).Stopped?
  {
    hide Leads, Step, HexValue;
    FirstDigit(p, ch);
    if AllHex([TakenFor(ch)]) {
      UnhexIs(ch);
      assert HexDigit([TakenFor(ch)][0]);
      OneDigit(TakenFor(ch));
      InSizeState(p, [TakenFor(ch)]);
      QuietByte(p, ch, InSize(p, [TakenFor(ch)]));
    } else {
      StoppedOn(p, [], ch);
      assert [] + [ch] == [ch];
    }
  }

  lemma SizeReadsOn(p: Parser, s: seq<Byte>, t: seq<Byte>, ch: Byte)
    requires p.flags.chunked && !EndsSize(ch)
    requires TakesSize(t) ==> Leads(p, s, InSize(p, t), [], [])
    requires !TakesSize(t) ==> Run(p, s, |s|).Stopped?
    ensures var t' := t + [TakenFor(ch)];
            && (TakesSize(t') ==> Leads(p, s + [ch], InSize(p, t'), [], []))
            && (!TakesSize(t') ==> Run(p, s + [ch], |s + [ch]|).Stopped?)
  {
    var t' := t + [TakenFor(ch)];
    hide Step, AllTakenFor, EndsSize, HexValue, AllHex, TakenFor, Run, Said, InSize, HexDigit, HexDigitValue;
    HexSnoc(t, TakenFor(ch));
    if TakesSize(t) {
      NextDigit(p, t, ch);
      if TakesSize(t') { SizeStep(p, s, t, ch, t'); } else { StoppedOn(p, s, ch); }
    } else {
      StoppedOn(p, s, ch);
    }
  }

  lemma SizeLine(p: Parser, s: seq<Byte>)
    requires p.state == ChunkSizeStart && p.flags.chunked && p.nread == 0
    requires s != [] && |s| < MAX_HEADER_SIZE && AllHex(s) && HexValue(s) < INT64_LIMIT
    ensures Leads(p, s, InSize(p, s), [], [])
  {
    hide Leads, HexValue;
    HexIsTakenForHex(s);
    SizeReads(p, s);
  }

  lemma SizeEnds(p: Parser, t: seq<Byte>, end: Byte)
    requires p.flags.chunked && TakesSize(t) && EndsSize(end)
    ensures |t| < MAX_HEADER_SIZE ==>
              Step(InSize(p, t), end) ==
                Next(p.(state := if end == CR then ChunkSizeAlmostDone else ChunkParameters,
                        length := HexValue(t), nread := |t| + 1), [])
    ensures |t| >= MAX_HEADER_SIZE ==> !Step(InSize(p, t), end).Next?
  {
    hide Step, HexValue, AllHex;
    if |t| < MAX_HEADER_SIZE { StepInChunk(InSize(p, t), end); } else { SizeTooLong(InSize(p, t), end); }
  }

  /** What the parser makes of any text before the first byte that ends a size: it accepts the
      text exactly when, with every byte from 128 on replaced by '0', it is a hexadecimal number
      below 2^63 in a line that the header limit admits; and that number is the size it goes on
      with. So a text without such bytes is read as what it spells, and any text with one is no
      hexadecimal number but is read as if it were. */
  lemma {:induction false} SizeTextReads(p: Parser, s: seq<Byte>, end: Byte)
    requires p.state == ChunkSizeStart && p.flags.chunked && p.nread == 0
    requires (forall i | 0 <= i < |s| :: !EndsSize(s[i])) && EndsSize(end)
    ensures var r, t := Run(p, s + [end], |s| + 1), AllTakenFor(s);
            if s != [] && AllHex(t) && HexValue(t) < INT64_LIMIT && |s| < MAX_HEADER_SIZE then
              r == Reached(p.(state := if end == CR then ChunkSizeAlmostDone else ChunkParameters,
                              length := HexValue(t), nread := |s| + 1))
            else r.Stopped?
    ensures AllHex(s) <==> AllHex(AllTakenFor(s)) && forall i | 0 <= i < |s| :: s[i] as int < 128
    ensures AllHex(s) ==> AllTakenFor(s) == s
  {
    var t := AllTakenFor(s);
    assert |t| == |s|;
    HexIsTakenForHex(s);
    hide Step, HexValue, AllHex, AllTakenFor;
    if s == [] {
      FirstDigit(p, end);
      OneDigitNot(end);
      StoppedOn(p, s, end);
    } else {
      SizeReads(p, s);
      if TakesSize(t) {
        SizeEnds(p, t, end);
        if |s| < MAX_HEADER_SIZE { OneStep(p, s, InSize(p, t), end); } else { StoppedOn(p, s, end); }
      } else {
        StoppedOn(p, s, end);
      }
    }
  }

  lemma OneStep(p: Parser, s: seq<Byte>, q: Parser, ch: Byte)
    requires Run(p, s, |s|) == Reached(q) && Step(q, ch).Next?
    ensures Run(p, s + [ch], |s| + 1) == Reached(Step(q, ch).q)
  {
    hide Step;
    RunPrefix(p, s, [ch], |s|, false);
    assert (s + [ch])[|s|] == ch;
  }

  lemma OneDigitNot(ch: Byte)
    requires EndsSize(ch)
    ensures !AllHex([TakenFor(ch)])
  {
    assert !HexDigit([TakenFor(ch)][0]);
  }

  /** The byte 128 in place of a size: no hexadecimal digit, and read as the size 0. */
  lemma HighByteIsZero(p: Parser)
    requires p.state == ChunkSizeStart && p.flags.chunked && p.nread == 0
    ensures !AllHex(['\U{0080}']) && Step(p, '\U{0080}') == Next(p.(state := ChunkSize, length := 0, nread := 1), [])
  {
    hide Step;
    var ch: Byte := '\U{0080}';
    assert !HexDigit([ch][0]);
    FirstDigit(p, ch);
    OneDigit('0');
  }

  /** After the size line: the data, or the end of the body. */
  function AfterSize(p: Parser, n: nat): Parser {
    if n == 0 then p.(state := HeaderFieldStart, length := 0, nread := 0, flags := p.flags.(trailing := true))
    else p.(state := ChunkData, length := n, nread := 0)
  }

  /** What follows the size on its line is passed over. */
  lemma {:induction false} ExtensionReads(p: Parser, ext: seq<Byte>) returns (q: Parser)
    requires p.state == ChunkSize && p.flags.chunked && ExtensionOk(ext) && p.nread + |ext| <= MAX_HEADER_SIZE
    ensures Leads(p, ext, q, [], [])
    ensures q == p.(state := if ext == [] then ChunkSize else ChunkParameters, nread := p.nread + |ext|)
  {
    hide Leads, Step;
    q := p.(state := if ext == [] then ChunkSize else ChunkParameters, nread := p.nread + |ext|);
    if ext == [] {
      LeadsNowhere(p);
    } else {
      var init, ch := ext[..|ext| - 1], ext[|ext| - 1];
      var r := ExtensionReads(p, init);
      assert ext == init + [ch];
      ExtensionByte(r, ch);
      hide Kinds;
      QuietByte(r, ch, q);
      LeadsOn(p, init, r, [], [], [ch], q, [], []);
      assert NOTHING + NOTHING == NOTHING;
    }
  }

  lemma ExtensionByte(p: Parser, ch: Byte)
    requires p.flags.chunked && p.nread < MAX_HEADER_SIZE
    requires (p.state == ChunkSize && (ch == ';' || ch == ' ')) || (p.state == ChunkParameters && ch != CR)
    ensures Step(p, ch) == Next(p.(state := ChunkParameters, nread := p.nread + 1), []) && Kinds(ChunkParameters) == {}
  {
    hide Step;
    StepInChunk(p, ch);
  }

  lemma SizeReturn(p: Parser)
    requires (p.state == ChunkSize || p.state == ChunkParameters) && p.flags.chunked && p.nread < MAX_HEADER_SIZE
    ensures Step(p, CR) == Next(p.(state := ChunkSizeAlmostDone, nread := p.nread + 1), []) &&
            Kinds(ChunkSizeAlmostDone) == {}
  {
    hide Step, Unhex;
    StepInChunk(p, CR);
  }

  lemma SizeFeed(p: Parser)
    requires p.state == ChunkSizeAlmostDone && p.flags.chunked && p.nread < MAX_HEADER_SIZE && p.length >= 0
    ensures Step(p, LF) == Next(AfterSize(p, p.length), []) && Kinds(AfterSize(p, p.length).state) == {}
  {
    hide Step;
    StepInChunk(p, LF);
  }

  lemma SizeEnd(p: Parser)
    requires (p.state == ChunkSize || p.state == ChunkParameters) && p.flags.chunked &&
             p.nread + 2 <= MAX_HEADER_SIZE && p.length >= 0
    ensures Leads(p, CRLF, AfterSize(p, p.length), [], [])
  {
    hide Step, Leads, Kinds;
    var b := p.(state := ChunkSizeAlmostDone, nread := p.nread + 1);
    SizeReturn(p);
    SizeFeed(b);
    assert AfterSize(b, b.length) == AfterSize(p, p.length);
    hide AfterSize;
    QuietPair(p, CR, b, LF, AfterSize(p, p.length));
  }

  lemma SizePart(p: Parser, size: seq<Byte>, ext: seq<Byte>, n: nat)
    requires p.state == ChunkSizeStart && p.flags.chunked && p.nread == 0 && Spells(size, ext, n)
    ensures Leads(p, size + ext + CRLF, AfterSize(p, n), [], [])
  {
    hide Leads, HexValue, ExtensionOk;
    SizeLine(p, size);
    var a := InSize(p, size);
    var b := ExtensionReads(a, ext);
    LeadsOn(p, size, a, [], [], ext, b, [], []);
    assert NOTHING + NOTHING == NOTHING;
    SizeEnd(b);
    assert AfterSize(b, b.length) == AfterSize(p, n);
    LeadsOn(p, size + ext, b, [], [], CRLF, AfterSize(p, n), [], []);
  }

  lemma DataEnd(p: Parser)
    requires p.state == ChunkDataAlmostDone && p.flags.chunked && p.nread == 0
    ensures Leads(p, CRLF, p.(state := ChunkSizeStart), [], [])
  {
    hide Step, Leads, Kinds;
    DataReturn(p);
    DataFeed(p.(state := ChunkDataDone));
    QuietPair(p, CR, p.(state := ChunkDataDone), LF, p.(state := ChunkSizeStart));
  }

  lemma DataReturn(p: Parser)
    requires p.state == ChunkDataAlmostDone && p.flags.chunked && p.nread < MAX_HEADER_SIZE
    ensures Step(p, CR) == Next(p.(state := ChunkDataDone), []) && Kinds(ChunkDataDone) == {}
  {
    hide Step;
    StepInChunk(p, CR);
  }

  lemma DataFeed(p: Parser)
    requires p.state == ChunkDataDone && p.flags.chunked && p.nread < MAX_HEADER_SIZE
    ensures Step(p, LF) == Next(p.(state := ChunkSizeStart), []) && Kinds(ChunkSizeStart) == {}
  {
    hide Step;
    StepInChunk(p, LF);
  }

  lemma DataPart(p: Parser, data: seq<Byte>)
    requires Inv(p) && p.state == ChunkSizeStart && 0 < |data| < INT64_LIMIT
    ensures Leads(AfterSize(p, |data|), data + CRLF, p.(length := 0), Bytes(Body, data), [])
  {
    hide Leads, Bytes;
    var a := AfterSize(p, |data|);
    var b := a.(state := ChunkDataAlmostDone, length := 0);
    DataLeads(a, data);
    DataEnd(b);
    LeadsOn(a, data, b, Bytes(Body, data), [], CRLF, p.(length := 0), [], []);
    assert Bytes(Body, data) + [] == Bytes(Body, data) && NOTHING + NOTHING == NOTHING;
  }

  lemma NothingRun(p: Parser, data: seq<Byte>, url: bool)
    ensures Run(p, data, 0) == Reached(p) && Said(p, data, 0, url) == []
  {
  }

  lemma DataLeads(p: Parser, data: seq<Byte>)
    requires Inv(p) && p.state == ChunkData && p.length == |data|
    ensures Leads(p, data, p.(state := ChunkDataAlmostDone, length := 0), Bytes(Body, data), [])
  {
    hide Step, Run, Said, Bytes, Inv, Spoken;
    var n := |data|;
    NothingRun(p, data, false);
    NothingRun(p, data, true);
    BodyRun(p, data, 0, n, false);
    BodyRun(p, data, 0, n, true);
    assert data[0..0 + n] == data && 0 + n == n;
    assert NOTHING + (Bytes(Body, data) + NOTHING) == Bytes(Body, data);
  }

  /** One chunk is delivered whole and leaves the parser before the next size. */
  lemma OneChunk(p: Parser, c: Chunk)
    requires Inv(p) && p.state == ChunkSizeStart && ChunkOk(c)
    ensures Leads(p, Encode(c), p.(length := 0), Bytes(Body, c.data), [])
  {
    hide Leads, Spells, Bytes;
    SpellsBound(c);
    SizePart(p, c.size, c.extension, |c.data|);
    DataPart(p, c.data);
    LeadsOn(p, c.size + c.extension + CRLF, AfterSize(p, |c.data|), [], [], c.data + CRLF, p.(length := 0),
      Bytes(Body, c.data), []);
    assert NOTHING + Bytes(Body, c.data) == Bytes(Body, c.data) && NOTHING + NOTHING == NOTHING;
  }

  lemma SpellsBound(c: Chunk)
    requires ChunkOk(c)
    ensures 0 < |c.data| < INT64_LIMIT
  {
  }

  lemma {:induction false} ManyChunks(p: Parser, chunks: seq<Chunk>)
    requires Inv(p) && p.state == ChunkSizeStart && forall c | c in chunks :: ChunkOk(c)
    ensures Leads(p, EncodeAll(chunks), if chunks == [] then p else p.(length := 0), Bytes(Body, Payload(chunks)), [])
  {
    hide Encode, ChunkOk, Leads, Bytes;
    if chunks == [] {
      LeadsNowhere(p);
      BytesAppend([], []);
    } else {
      var init, c := chunks[..|chunks| - 1], chunks[|chunks| - 1];
      ManyChunks(p, init);
      var q := if init == [] then p else p.(length := 0);
      OneChunk(q, c);
      LeadsOn(p, EncodeAll(init), q, Bytes(Body, Payload(init)), [], Encode(c), p.(length := 0), Bytes(Body, c.data),
        []);
      BytesAppend(Payload(init), c.data);
      assert NOTHING + NOTHING == NOTHING;
    }
  }

  lemma BytesAppend(a: seq<Byte>, b: seq<Byte>)
    ensures Bytes(Body, a + b) == Bytes(Body, a) + Bytes(Body, b) && Bytes(Body, []) == []
  {
  }

  /** Any list of chunks, in any spelling of their sizes, is delivered as its concatenation; the size
      0 after it leads to the trailer. */
  lemma ChunksRead(p: Parser, chunks: seq<Chunk>, last: seq<Byte>, ext: seq<Byte>)
    requires Inv(p) && p.state == ChunkSizeStart && (forall c | c in chunks :: ChunkOk(c)) && Spells(last, ext, 0)
    ensures Leads(p, EncodeAll(chunks) + (last + ext + CRLF), AfterSize(p, 0), Bytes(Body, Payload(chunks)), [])
  {
    hide Leads, Bytes, Spells, ChunkOk;
    ManyChunks(p, chunks);
    var q := if chunks == [] then p else p.(length := 0);
    SizePart(q, last, ext, 0);
    LeadsOn(p, EncodeAll(chunks), q, Bytes(Body, Payload(chunks)), [], last + ext + CRLF, AfterSize(q, 0), [], []);
    assert Bytes(Body, Payload(chunks)) + [] == Bytes(Body, Payload(chunks)) && NOTHING + NOTHING == NOTHING;
  }

  // ---- where lines and data must end

  lemma OnlyThese(p: Parser, ch: Byte)
    requires p.flags.chunked && p.nread < MAX_HEADER_SIZE
    ensures p.state == ChunkSizeAlmostDone && ch != LF ==> Step(p, ch) == Fail([])
    ensures p.state == ChunkDataAlmostDone && ch != CR ==> Step(p, ch) == Fail([])
    ensures p.state == ChunkDataDone && ch != LF ==> Step(p, ch) == Fail([])
  {
    hide Step;
    if p.state == ChunkSizeAlmostDone || p.state == ChunkDataAlmostDone || p.state == ChunkDataDone {
      StepInChunk(p, ch);
    }
  }

  lemma StopsHere(p: Parser, s: seq<Byte>, q: Parser, ch: Byte)
    requires Run(p, s, |s|) == Reached(q) && Step(q, ch) == Fail([])
    ensures Run(p, s + [ch], |s| + 1) == Stopped(|s|, Fail([]))
  {
    hide Step;
    RunPrefix(p, s, [ch], |s|, false);
    assert (s + [ch])[|s|] == ch;
  }

  lemma StopsAt(p: Parser, s: seq<Byte>, q: Parser, ch: Byte, rest: seq<Byte>)
    requires Run(p, s, |s|) == Reached(q) && Step(q, ch) == Fail([])
    ensures Run(p, s + [ch] + rest, |s| + 1 + |rest|) == Stopped(|s|, Fail([]))
  {
    hide Step, Run, Said;
    StopsHere(p, s, q, ch);
    var t := s + [ch];
    RunPrefix(p, t, rest, |t|, false);
    RunStopped(p, t + rest, |t|, |t + rest|, false);
  }

  /** Where the data of a chunk leads. */
  function DataDone(p: Parser): Parser { p.(state := ChunkDataAlmostDone, length := 0, nread := 0) }

  lemma DataRuns(p: Parser, data: seq<Byte>)
    requires Inv(p) && p.state == ChunkSizeStart && 0 < |data| < INT64_LIMIT
    ensures Run(AfterSize(p, |data|), data, |data|) == Reached(DataDone(p)) && p.flags.chunked
  {
    hide Leads, Bytes, Run;
    DataLeads(AfterSize(p, |data|), data);
    Ran(AfterSize(p, |data|), data, DataDone(p), Bytes(Body, data));
  }

  lemma DataReturns(p: Parser, data: seq<Byte>)
    requires Inv(p) && p.state == ChunkSizeStart && 0 < |data| < INT64_LIMIT
    ensures Run(AfterSize(p, |data|), data + [CR], |data| + 1) == Reached(DataDone(p).(state := ChunkDataDone))
  {
    hide Inv, Step, Run, AfterSize;
    DataRuns(p, data);
    DataReturn(DataDone(p));
    OneStep(AfterSize(p, |data|), data, DataDone(p), CR);
  }

  lemma DataEnds(p: Parser, data: seq<Byte>)
    requires Inv(p) && p.state == ChunkSizeStart && 0 < |data| < INT64_LIMIT
    ensures Run(AfterSize(p, |data|), data + [CR] + [LF], |data| + 2) == Reached(p.(length := 0))
  {
    hide Inv, Leads, Run, Bytes, AfterSize;
    DataPart(p, data);
    Ran(AfterSize(p, |data|), data + CRLF, p.(length := 0), Bytes(Body, data));
    assert data + CRLF == data + [CR] + [LF];
  }

  /** The data of a chunk is followed by carriage return and line feed, or it is refused there. */
  lemma DataExactly(p: Parser, data: seq<Byte>, a: Byte, b: Byte)
    requires Inv(p) && p.state == ChunkSizeStart && 0 < |data| < INT64_LIMIT
    ensures Run(AfterSize(p, |data|), data + [a] + [b], |data| + 2) ==
            if a != CR then Stopped(|data|, Fail([])) else if b != LF then Stopped(|data| + 1, Fail([]))
            else Reached(p.(length := 0))
  {
    hide Inv, Step, Run, AfterSize;
    DataRuns(p, data);
    if a != CR {
      OnlyThese(DataDone(p), a);
      StopsAt(AfterSize(p, |data|), data, DataDone(p), a, [b]);
    } else if b != LF {
      DataReturns(p, data);
      OnlyThese(DataDone(p).(state := ChunkDataDone), b);
      StopsHere(AfterSize(p, |data|), data + [CR], DataDone(p).(state := ChunkDataDone), b);
    } else {
      DataEnds(p, data);
    }
  }

  lemma Ran(p: Parser, s: seq<Byte>, q: Parser, m: seq<Item>)
    requires Leads(p, s, q, m, [])
    ensures Run(p, s, |s|) == Reached(q)
  {
  }

  lemma SizeReturns(p: Parser, size: seq<Byte>, ext: seq<Byte>, n: nat) returns (q: Parser)
    requires p.state == ChunkSizeStart && p.flags.chunked && p.nread == 0 && Spells(size, ext, n)
    ensures Run(p, size + ext + [CR], |size + ext| + 1) == Reached(q)
    ensures q.state == ChunkSizeAlmostDone && q.flags.chunked && q.nread < MAX_HEADER_SIZE
  {
    hide Leads, Step, Run, HexValue, ExtensionOk;
    SizeLine(p, size);
    var a := InSize(p, size);
    var b := ExtensionReads(a, ext);
    LeadsOn(p, size, a, [], [], ext, b, [], []);
    assert NOTHING + NOTHING == NOTHING;
    Ran(p, size + ext, b, []);
    SizeReturn(b);
    OneStep(p, size + ext, b, CR);
    q := b.(state := ChunkSizeAlmostDone, nread := b.nread + 1);
  }

  /** So is the line of a size, after a carriage return. */
  lemma SizeLineExactly(p: Parser, size: seq<Byte>, ext: seq<Byte>, n: nat, ch: Byte)
    requires p.state == ChunkSizeStart && p.flags.chunked && p.nread == 0 && Spells(size, ext, n)
    ensures var s := size + ext + [CR];
            Run(p, s + [ch], |s| + 1) == if ch == LF then Reached(AfterSize(p, n)) else Stopped(|s|, Fail([]))
  {
    hide Leads, Step, Run, Spells, AfterSize;
    var s := size + ext + [CR];
    if ch == LF {
      SizePart(p, size, ext, n);
      assert size + ext + CRLF == s + [LF];
      Ran(p, size + ext + CRLF, AfterSize(p, n), []);
    } else {
      var q := SizeReturns(p, size, ext, n);
      OnlyThese(q, ch);
      StopsHere(p, s, q, ch);
    }
  }
}
