/** Whole requests: what the parser says of a request is what the request consists of. */
module HttpRequest {
  import opened Common
  import opened HttpParser
  import opened HttpRun
  import opened HttpMarks
  import opened HttpExecute
  import opened HttpReads
  import opened HttpChunked
  import opened HttpHeaders
  import opened HttpLine

  // ---- headers and the end of the head

  function EncodeHeaders(hs: seq<Header>): seq<Byte> {
    if hs == [] then [] else EncodeHeaders(hs[..|hs| - 1]) + EncodeHeader(hs[|hs| - 1])
  }

  function HeaderItems(hs: seq<Header>): seq<Item> {
    if hs == [] then [] else
      HeaderItems(hs[..|hs| - 1]) + (Bytes(Field, hs[|hs| - 1].name) + Bytes(Value, ValueOf(hs[|hs| - 1])))
  }

  /** What all headers together mean. */
  function FlagsFrom(flags: Flags, hs: seq<Header>): Flags {
    if hs == [] then flags else FlagsOf(hs[|hs| - 1], FlagsFrom(flags, hs[..|hs| - 1]))
  }

  function LengthFrom(length: int, hs: seq<Header>): int {
    if hs == [] then length else LengthOf(hs[|hs| - 1], LengthFrom(length, hs[..|hs| - 1]))
  }

  function FlagsAll(hs: seq<Header>): Flags { FlagsFrom(NO_FLAGS, hs) }

  function LengthAll(hs: seq<Header>): int { LengthFrom(-1, hs) }

  lemma {:induction false} HeadersRead(p: Parser, hs: seq<Header>) returns (q: Parser)
    requires p.state == HeaderFieldStart
    requires (forall i | 0 <= i < |hs| :: HeaderOk(hs[i])) && p.nread + |EncodeHeaders(hs)| <= MAX_HEADER_SIZE
    ensures Leads(p, EncodeHeaders(hs), q, HeaderItems(hs), [])
    ensures q == p.(hs := q.hs, index := q.index, nread := p.nread + |EncodeHeaders(hs)|,
            flags := FlagsFrom(p.flags, hs), length := LengthFrom(p.length, hs))
    decreases |hs|
  {
    hide Leads, HeaderOk, EncodeHeader, FlagsOf, LengthOf, Bytes;
    if hs == [] {
      q := p;
      LeadsNowhere(p);
    } else {
      var init, h := hs[..|hs| - 1], hs[|hs| - 1];
      var r := HeadersRead(p, init);
      q := HeaderLine(r, h);
      LeadsOn(p, EncodeHeaders(init), r, HeaderItems(init), [], EncodeHeader(h), q,
        Bytes(Field, h.name) + Bytes(Value, ValueOf(h)), []);
      assert NOTHING + NOTHING == NOTHING;
    }
  }

  /** What the empty line leads to, for a request that goes on in HTTP. */
  function AfterHead(p: Parser): Parser {
    var q := p.(nread := 0);
    if p.flags.chunked then q.(state := ChunkSizeStart)
    else if p.length > 0 then q.(state := BodyIdentity)
    else q.(state := NewMessage(q))
  }

  predicate Bodiless(p: Parser) { !p.flags.chunked && p.length <= 0 }

  lemma TwoNotices(p: Parser, ch: Byte, q: Parser)
    requires Step(p, ch) == Next(q, [Raise(HeadersComplete), Raise(MessageComplete)]) && Kinds(q.state) == {}
    ensures Leads(p, [ch], q, [Event(HeadersComplete), Event(MessageComplete)],
            [Event(HeadersComplete), Event(MessageComplete)])
  {
    hide Step, Leads, MarkedByte, Events, Kinds;
    var acts, says := [Raise(HeadersComplete), Raise(MessageComplete)],
      [Event(HeadersComplete), Event(MessageComplete)];
    LeadsByte(p, ch, q, acts);
    NotMarked(q.state, ch);
    TwoRaised(ch, false);
    TwoRaised(ch, true);
    assert says + NOTHING == says;
  }

  lemma TwoRaised(ch: Byte, url: bool)
    ensures Events([Raise(HeadersComplete), Raise(MessageComplete)], ch, url) ==
            [Event(HeadersComplete), Event(MessageComplete)]
  {
    RaiseSays(HeadersComplete, ch, url);
    assert [Raise(HeadersComplete), Raise(MessageComplete)][..1] == [Raise(HeadersComplete)];
  }

  lemma DoneStep(p: Parser)
    requires p.kind == Request && !p.upgraded && !p.flags.upgrade && !p.flags.trailing && p.verb != CONNECT &&
             p.length >= -1
    ensures HeadersDone(p, LF) ==
            Next(AfterHead(p), if Bodiless(p) then [Raise(HeadersComplete), Raise(MessageComplete)]
              else [Raise(HeadersComplete)])
    ensures Kinds(AfterHead(p).state) == {}
  {
  }

  function HeadNotices(both: bool): seq<Item> {
    if both then [Event(HeadersComplete), Event(MessageComplete)] else [Event(HeadersComplete)]
  }

  /** The empty line, whatever it leads to. */
  lemma BlankLeads(p: Parser, e: Eol, q: Parser, both: bool)
    requires p.state == HeaderFieldStart && p.nread + |EolText(e)| <= MAX_HEADER_SIZE && Kinds(q.state) == {}
    requires HeadersDone(p.(state := HeadersAlmostDone, nread := p.nread + |EolText(e)|), LF) ==
             Next(q, if both then [Raise(HeadersComplete), Raise(MessageComplete)] else [Raise(HeadersComplete)])
    ensures Leads(p, EolText(e), q, HeadNotices(both), HeadNotices(both))
  {
    hide Leads, Step, HeadersDone, Kinds;
    BlankSteps(p);
    if e.Lf? {
      if both { TwoNotices(p, LF, q); } else { NoticeByte(p, LF, q, HeadersComplete); }
    } else {
      var a := p.(state := HeadersAlmostDone, nread := p.nread + 1);
      AlmostDone(a.state);
      QuietByte(p, CR, a);
      if both { TwoNotices(a, LF, q); } else { NoticeByte(a, LF, q, HeadersComplete); }
      LeadsOn(p, [CR], a, [], [], [LF], q, HeadNotices(both), HeadNotices(both));
      assert [CR] + [LF] == CRLF && NOTHING + HeadNotices(both) == HeadNotices(both);
    }
  }

  lemma BlankLine(p: Parser, e: Eol)
    requires p.state == HeaderFieldStart && p.nread + |EolText(e)| <= MAX_HEADER_SIZE
    requires p.kind == Request && !p.upgraded && !p.flags.upgrade && !p.flags.trailing && p.verb != CONNECT &&
             p.length >= -1
    ensures Leads(p, EolText(e), AfterHead(p), HeadNotices(Bodiless(p)), HeadNotices(Bodiless(p)))
  {
    hide Leads, HeadersDone, Kinds;
    var b := p.(state := HeadersAlmostDone, nread := p.nread + |EolText(e)|);
    DoneStep(b);
    assert AfterHead(b) == AfterHead(p);
    BlankLeads(p, e, AfterHead(p), Bodiless(p));
  }

  lemma TrailerDone(p: Parser)
    requires p.flags.trailing
    ensures HeadersDone(p, LF) == Next(p.(state := NewMessage(p)), [Raise(MessageComplete)]) &&
            Kinds(NewMessage(p)) == {}
  {
  }

  /** The empty line after the trailer completes the message. */
  lemma TrailerEnd(p: Parser, e: Eol)
    requires p.state == HeaderFieldStart && p.nread + |EolText(e)| <= MAX_HEADER_SIZE && p.flags.trailing
    ensures Leads(p, EolText(e), p.(state := NewMessage(p), nread := p.nread + |EolText(e)|),
            [Event(MessageComplete)], [Event(MessageComplete)])
  {
    hide Leads, Step, HeadersDone, Kinds;
    var r, done := p.(state := NewMessage(p), nread := p.nread + |EolText(e)|), [Event(MessageComplete)];
    BlankSteps(p);
    TrailerDone(r.(state := HeadersAlmostDone));
    if e.Lf? {
      NoticeByte(p, LF, r, MessageComplete);
    } else {
      var q := p.(state := HeadersAlmostDone, nread := p.nread + 1);
      AlmostDone(q.state);
      QuietByte(p, CR, q);
      NoticeByte(q, LF, r, MessageComplete);
      LeadsOn(p, [CR], q, [], [], [LF], r, done, done);
      assert [CR] + [LF] == CRLF && NOTHING + done == done;
    }
  }

  // ---- chunked content

  lemma OneTrailing(h: Header, flags: Flags)
    ensures FlagsOf(h, flags.(trailing := true)) == FlagsOf(h, flags).(trailing := true)
  {
    hide FieldOf, Spaced, LoweredText;
  }

  lemma {:induction false} StillTrailing(flags: Flags, hs: seq<Header>)
    ensures FlagsFrom(flags.(trailing := true), hs) == FlagsFrom(flags, hs).(trailing := true)
  {
    hide FlagsOf;
    if hs != [] {
      StillTrailing(flags, hs[..|hs| - 1]);
      OneTrailing(hs[|hs| - 1], FlagsFrom(flags, hs[..|hs| - 1]));
    }
  }

  /** A list of chunks is delivered as its concatenation, the headers of the trailer are called back
      and noted like any others, and the message completes once. */
  lemma ChunkedBody(p: Parser, chunks: seq<Chunk>, last: seq<Byte>, ext: seq<Byte>, trailer: seq<Header>, e: Eol)
      returns (q: Parser)
    requires Inv(p) && p.state == ChunkSizeStart && (forall c | c in chunks :: ChunkOk(c)) && Spells(last, ext, 0)
    requires (forall i | 0 <= i < |trailer| :: HeaderOk(trailer[i])) &&
             |EncodeHeaders(trailer)| + |EolText(e)| <= MAX_HEADER_SIZE
    ensures Leads(p, EncodeAll(chunks) + (last + ext + CRLF) + (EncodeHeaders(trailer) + EolText(e)), q,
                  Bytes(Body, Payload(chunks)) + (HeaderItems(trailer) + [Event(MessageComplete)]),
                    [Event(MessageComplete)])
    ensures q == p.(state := q.state, hs := q.hs, index := q.index, length := q.length,
                    nread := |EncodeHeaders(trailer)| + |EolText(e)|,
                      flags := FlagsFrom(p.flags, trailer).(trailing := true))
    ensures q.state == if FlagsFrom(p.flags, trailer).keepAlive then StartState(p) else Dead
  {
    hide Leads, Bytes, Spells, ChunkOk, HeaderItems, EncodeHeaders, EncodeAll, Payload, EolText, FlagsFrom,
         LengthFrom, HeaderOk, Inv;
    ChunksRead(p, chunks, last, ext);
    var a := AfterSize(p, 0);
    var b := HeadersRead(a, trailer);
    StillTrailing(p.flags, trailer);
    TrailerEnd(b, e);
    q := b.(state := NewMessage(b), nread := b.nread + |EolText(e)|);
    var done := [Event(MessageComplete)];
    LeadsOn(a, EncodeHeaders(trailer), b, HeaderItems(trailer), [], EolText(e), q, done, done);
    assert NOTHING + done == done;
    LeadsOn(p, EncodeAll(chunks) + (last + ext + CRLF), a, Bytes(Body, Payload(chunks)), [],
            EncodeHeaders(trailer) + EolText(e), q, HeaderItems(trailer) + done, done);
  }

  lemma AlmostDone(s: State)
    requires s == HeadersAlmostDone
    ensures Kinds(s) == {}
  {
  }

  // ---- whole requests

  datatype Content =
    | Nothing
    | Sized(data: seq<Byte>)
    | Chunks(chunks: seq<Chunk>, last: seq<Byte>, extension: seq<Byte>, trailer: seq<Header>, end: Eol)

  /** Spacing that means nothing: line breaks before the request line, and extra spaces around the URL. */
  datatype Layout = Layout(breaks: seq<Byte>, before: nat, after: nat)

  /** A request; one without a version ends its first line after the URL. */
  datatype Message = Message(
    layout: Layout, verb: Method, target: Target, version: Option<Version>, lineEnd: Eol,
    headers: seq<Header>, headEnd: Eol, content: Content)

  /** What follows the method and its space. */
  function RestOfLine(r: Message): seq<Byte> {
    match r.version
    case None => TargetText(r.target) + EolText(r.lineEnd)
    case Some(v) => TargetText(r.target) + [' '] + (Spaces(r.layout.after) + VersionText(v, r.lineEnd))
  }

  function LineText(r: Message): seq<Byte> {
    r.layout.breaks + (MethodName(r.verb) + [' '] + (Spaces(r.layout.before) + RestOfLine(r)))
  }

  function HeadText(r: Message): seq<Byte> { LineText(r) + EncodeHeaders(r.headers) + EolText(r.headEnd) }

  function ContentText(c: Content): seq<Byte> {
    match c
    case Nothing => []
    case Sized(data) => data
    case Chunks(chunks, last, ext, trailer, e) =>
      EncodeAll(chunks) + (last + ext + CRLF) + (EncodeHeaders(trailer) + EolText(e))
  }

  /** A request as it is sent. */
  function RequestText(r: Message): seq<Byte> { HeadText(r) + ContentText(r.content) }

  function ContentBytes(c: Content): seq<Byte> {
    match c case Nothing => [] case Sized(data) => data case Chunks(chunks, _, _, _, _) => Payload(chunks)
  }

  function Trailer(c: Content): seq<Header> { if c.Chunks? then c.trailer else [] }

  /** How much of the header limit the end of a message uses up for the next one. */
  function TrailerRead(c: Content): nat { if c.Chunks? then |EncodeHeaders(c.trailer)| + |EolText(c.end)| else 0 }

  /** The content is sent as the headers announce it. */
  predicate ContentOk(c: Content, flags: Flags, length: int) {
    match c
    case Nothing => !flags.chunked && length <= 0
    case Sized(data) => !flags.chunked && length == |data| > 0
    case Chunks(chunks, last, ext, trailer, e) =>
      && flags.chunked && (forall k | k in chunks :: ChunkOk(k)) && Spells(last, ext, 0)
      && (forall i | 0 <= i < |trailer| :: HeaderOk(trailer[i])) &&
        |EncodeHeaders(trailer)| + |EolText(e)| <= MAX_HEADER_SIZE
  }

  predicate LineOk(r: Message) {
    LineBreaks(r.layout.breaks) &&
      TargetOk(r.target) && if r.version.None? then r.target.path != [] else VersionOk(r.version.value)
  }

  predicate HeadOk(r: Message) { LineOk(r) && forall i | 0 <= i < |r.headers| :: HeaderOk(r.headers[i]) }

  /** After the head of such a request the connection leaves HTTP. */
  predicate LeavesHttp(r: Message) { r.verb == CONNECT || FlagsAll(r.headers).upgrade }

  /** A request that stays within HTTP. */
  predicate MessageOk(r: Message) {
    HeadOk(r) && !LeavesHttp(r) && ContentOk(r.content, FlagsAll(r.headers), LengthAll(r.headers))
  }

  function MajorOf(r: Message): nat
    requires LineOk(r)
  {
    if r.version.None? then 0 else Number(r.version.value.major)
  }

  function MinorOf(r: Message): nat
    requires LineOk(r)
  {
    if r.version.None? then 9 else Number(r.version.value.minor)
  }

  /** Headers and trailer decide whether the connection is kept. */
  predicate KeepsConnection(r: Message) { FlagsFrom(FlagsAll(r.headers), Trailer(r.content)).keepAlive }

  /** Everything that a request consists of, in its order. */
  function Says(r: Message): seq<Item> {
    [Event(MessageBegin)] + TargetItems(r.target) + HeaderItems(r.headers) + [Event(HeadersComplete)] +
    Bytes(Body, ContentBytes(r.content)) + HeaderItems(Trailer(r.content)) + [Event(MessageComplete)]
  }

  function SaysUrl(r: Message): seq<Item> {
    [Event(MessageBegin)] + Bytes(Url, TargetText(r.target)) + [Event(HeadersComplete)] + [Event(MessageComplete)]
  }

  lemma RestOfLineReads(p: Parser, r: Message) returns (q: Parser)
    requires p.state == ReqSpaces && LineOk(r) && p.nread + |RestOfLine(r)| <= MAX_HEADER_SIZE
    ensures Leads(p, RestOfLine(r), q, TargetItems(r.target), Bytes(Url, TargetText(r.target)))
    ensures q == p.(state := HeaderFieldStart, nread := p.nread + |RestOfLine(r)|, major := MajorOf(r),
            minor := MinorOf(r))
  {
    hide Leads, TargetOk, VersionOk, TargetText, VersionText, TargetItems, Bytes, EolText, UrlEnds, Number, Spaces,
         LineBreaks;
    var t, items, url := TargetText(r.target), TargetItems(r.target), Bytes(Url, TargetText(r.target));
    match r.version {
      case None =>
        var a := TargetReads(p, r.target);
        q := OldLineEnds(a, r.lineEnd);
        QuietThen(p, t, a, items, url, EolText(r.lineEnd), q);
      case Some(v) =>
        var a := TargetSpace(p, r.target);
        var n, text := r.layout.after, VersionText(v, r.lineEnd);
        SpacesLength(n);
        SpacesRead(a, n);
        var b := a.(nread := a.nread + n);
        q := VersionReads(b, v, r.lineEnd);
        QuietThen(a, Spaces(n), b, [], [], text, q);
        QuietThen(p, t + [' '], a, items, url, Spaces(n) + text, q);
    }
  }

  lemma LineReads(p: Parser, r: Message) returns (q: Parser)
    requires p.state == StartReq && LineOk(r) && p.nread + |LineText(r)| <= MAX_HEADER_SIZE
    ensures Leads(p, LineText(r), q, [Event(MessageBegin)] + TargetItems(r.target),
            [Event(MessageBegin)] + Bytes(Url, TargetText(r.target)))
    ensures q == Begun(p).(state := HeaderFieldStart, verb := r.verb, index := q.index,
            nread := p.nread + |LineText(r)|,
                           major := MajorOf(r), minor := MinorOf(r))
  {
    hide Leads, LineOk, MethodName, TargetText, RestOfLine, TargetItems, Bytes, MajorOf, MinorOf, Spaces;
    var begin, items, url := [Event(MessageBegin)], TargetItems(r.target), Bytes(Url, TargetText(r.target));
    var breaks, name, n := r.layout.breaks, MethodName(r.verb) + [' '], r.layout.before;
    SpacesLength(n);
    BreaksAre(r);
    BreaksRead(p, breaks);
    var o := p.(nread := p.nread + |breaks|);
    var a := MethodReads(o, r.verb);
    SpacesRead(a, n);
    var b := a.(nread := a.nread + n);
    q := RestOfLineReads(b, r);
    LeadsOn(a, Spaces(n), b, [], [], RestOfLine(r), q, items, url);
    assert NOTHING + items == items && NOTHING + url == url;
    LeadsOn(o, name, a, begin, begin, Spaces(n) + RestOfLine(r), q, items, url);
    LeadsOn(p, breaks, o, [], [], name + (Spaces(n) + RestOfLine(r)), q, begin + items, begin + url);
    assert NOTHING + (begin + items) == begin + items && NOTHING + (begin + url) == begin + url;
  }

  lemma SpacesLength(n: nat)
    ensures |Spaces(n)| == n
  {
  }

  lemma BreaksAre(r: Message)
    requires LineOk(r)
    ensures LineBreaks(r.layout.breaks)
  {
  }

  lemma {:induction false} NeverTrailing(hs: seq<Header>)
    ensures !FlagsAll(hs).trailing && LengthAll(hs) >= -1
  {
    hide FieldOf, Spaced, Number, LoweredText;
    if hs != [] { NeverTrailing(hs[..|hs| - 1]); }
  }

  /** The parser before the empty line. */
  function BeforeBlank(p: Parser, r: Message): Parser
    requires LineOk(r)
  {
    p.(state := HeaderFieldStart, verb := r.verb, flags := FlagsAll(r.headers), length := LengthAll(r.headers),
       major := MajorOf(r), minor := MinorOf(r), nread := p.nread + |LineText(r) + EncodeHeaders(r.headers)|)
  }

  /** Request line and headers. */
  lemma LinesLead(p: Parser, r: Message) returns (q: Parser)
    requires p.state == StartReq && HeadOk(r) && p.nread + |LineText(r) + EncodeHeaders(r.headers)| <= MAX_HEADER_SIZE
    ensures Leads(p, LineText(r) + EncodeHeaders(r.headers), q,
            [Event(MessageBegin)] + TargetItems(r.target) + HeaderItems(r.headers),
                  [Event(MessageBegin)] + Bytes(Url, TargetText(r.target)))
    ensures q == BeforeBlank(p, r).(index := q.index, hs := q.hs) && !q.flags.trailing && q.length >= -1
  {
    hide Leads, LineOk, LineText, TargetText, TargetItems, Bytes, HeaderOk, HeaderItems, EncodeHeaders, FlagsFrom,
         LengthFrom, MajorOf, MinorOf;
    var begin := [Event(MessageBegin)];
    var url := begin + Bytes(Url, TargetText(r.target));
    var a := LineReads(p, r);
    q := HeadersRead(a, r.headers);
    LeadsOn(p, LineText(r), a, begin + TargetItems(r.target), url, EncodeHeaders(r.headers), q,
      HeaderItems(r.headers), []);
    assert url + [] == url;
    NeverTrailing(r.headers);
  }

  function HeadEnd(r: Message): seq<Item> { HeadNotices(r.content.Nothing?) }

  lemma HeadLeads(p: Parser, r: Message) returns (q: Parser)
    requires p.state == StartReq && p.kind == Request && !p.upgraded && MessageOk(r) &&
             p.nread + |HeadText(r)| <= MAX_HEADER_SIZE
    ensures Leads(p, HeadText(r), q,
            [Event(MessageBegin)] + TargetItems(r.target) + HeaderItems(r.headers) + HeadEnd(r),
                  [Event(MessageBegin)] + Bytes(Url, TargetText(r.target)) + HeadEnd(r))
    ensures q == AfterHead(BeforeBlank(p, r)).(index := q.index, hs := q.hs)
  {
    hide Leads, LineOk, HeadOk, LineText, TargetText, TargetItems, Bytes, HeaderItems, EncodeHeaders, EolText,
         FlagsFrom, LengthFrom, MajorOf, MinorOf, ChunkOk, Spells, HeaderOk;
    HeadIsOk(r);
    var b := LinesLead(p, r);
    BlankLine(b, r.headEnd);
    q := AfterHead(b);
    LeadsOn(p, LineText(r) + EncodeHeaders(r.headers), b,
      [Event(MessageBegin)] + TargetItems(r.target) + HeaderItems(r.headers),
            [Event(MessageBegin)] + Bytes(Url, TargetText(r.target)), EolText(r.headEnd), q, HeadNotices(Bodiless(b)),
      HeadNotices(Bodiless(b)));
  }

  lemma HeadIsOk(r: Message)
    requires HeadOk(r)
    ensures LineOk(r)
  {
  }

  // ---- leaving HTTP

  lemma LeaveSteps(p: Parser)
    requires p.flags.upgrade || p.verb == CONNECT
    requires !p.flags.trailing
    ensures HeadersDone(p, LF) ==
            Exit(p.(nread := 0, upgraded := true), [Raise(HeadersComplete), Raise(MessageComplete)])
  {
  }

  /** A byte after which the connection leaves HTTP. */
  lemma ExitByte(p: Parser, s: seq<Byte>, q: Parser, m: seq<Item>, u: seq<Item>, ch: Byte, r: Parser)
    requires Leads(p, s, q, m, u) && Step(q, ch) == Exit(r, [Raise(HeadersComplete), Raise(MessageComplete)])
    ensures Left(p, s + [ch], r, m + [Event(HeadersComplete), Event(MessageComplete)],
            u + [Event(HeadersComplete), Event(MessageComplete)])
  {
    hide Step, Events;
    RunPrefix(p, s, [ch], |s|, false);
    RunPrefix(p, s, [ch], |s|, true);
    assert (s + [ch])[|s|] == ch;
    TwoRaised(ch, false);
    TwoRaised(ch, true);
  }

  /** Reading `s` stops at its last byte in an exit to another protocol. */
  predicate Left(p: Parser, s: seq<Byte>, q: Parser, main: seq<Item>, url: seq<Item>) {
    && s != [] && Run(p, s, |s|) == Stopped(|s| - 1, Exit(q, [Raise(HeadersComplete), Raise(MessageComplete)]))
    && Said(p, s, |s|, false) == main && Said(p, s, |s|, true) == url
  }

  /** The head of a CONNECT or of a request with an Upgrade header is read as what it consists of;
      then both notices are raised and the parser hands the connection over, whatever content the
      headers announce. */
  lemma HandoverReads(p: Parser, r: Message) returns (q: Parser)
    requires p.state == StartReq && p.kind == Request && !p.upgraded
    requires HeadOk(r) && LeavesHttp(r) && p.nread + |HeadText(r)| <= MAX_HEADER_SIZE
    ensures q.upgraded && q.verb == r.verb && q.major == MajorOf(r) && q.minor == MinorOf(r)
    ensures Left(p, HeadText(r), q,
            [Event(MessageBegin)] + TargetItems(r.target) + HeaderItems(r.headers) +
            [Event(HeadersComplete), Event(MessageComplete)],
                 [Event(MessageBegin)] + Bytes(Url, TargetText(r.target)) +
                   [Event(HeadersComplete), Event(MessageComplete)])
  {
    hide Leads, Left, Step, Kinds, HeadersDone, HeadOk, LineOk, LineText, TargetText, TargetItems, Bytes, HeaderItems,
         EncodeHeaders, FlagsFrom,
         LengthFrom, MajorOf, MinorOf;
    HeadIsOk(r);
    var b := LinesLead(p, r);
    var s := LineText(r) + EncodeHeaders(r.headers);
    var m, u := [Event(MessageBegin)] + TargetItems(r.target) + HeaderItems(r.headers),
      [Event(MessageBegin)] + Bytes(Url, TargetText(r.target));
    BlankSteps(b);
    q := b.(state := HeadersAlmostDone, nread := 0, upgraded := true);
    LeaveSteps(b.(state := HeadersAlmostDone, nread := b.nread + |EolText(r.headEnd)|));
    if r.headEnd.Lf? {
      ExitByte(p, s, b, m, u, LF, q);
    } else {
      var a := b.(state := HeadersAlmostDone, nread := b.nread + 1);
      AlmostDone(a.state);
      ThenQuiet(p, s, b, m, u, CR, a);
      ExitByte(p, s + [CR], a, m, u, LF, q);
      assert s + [CR] + [LF] == s + CRLF;
    }
  }

  // ---- content

  /** Content of a known length. */
  lemma SizedLeads(p: Parser, data: seq<Byte>)
    requires p.state == BodyIdentity && p.length == |data| > 0 && Inv(p)
    ensures Leads(p, data, p.(length := 0, state := NewMessage(p)), Bytes(Body, data) + [Event(MessageComplete)],
            [Event(MessageComplete)])
  {
    hide Step, Run, Said, Bytes, Inv, Spoken;
    var n := |data|;
    NothingRun(p, data, false);
    NothingRun(p, data, true);
    BodyRun(p, data, 0, n, false);
    BodyRun(p, data, 0, n, true);
    assert data[0..0 + n] == data && 0 + n == n;
    var done := [Event(MessageComplete)];
    assert NOTHING + (Bytes(Body, data) + done) == Bytes(Body, data) + done && NOTHING + (NOTHING + done) == done;
  }

  /** What is said after the head. */
  function ContentItems(c: Content): seq<Item> {
    if c.Nothing? then [] else Bytes(Body, ContentBytes(c)) + (HeaderItems(Trailer(c)) + [Event(MessageComplete)])
  }

  function ContentUrl(c: Content): seq<Item> { if c.Nothing? then [] else [Event(MessageComplete)] }

  lemma ContentLeads(p: Parser, c: Content) returns (q: Parser)
    requires ContentOk(c, p.flags, p.length) && p.nread == 0 && p.index <= 17 && -1 <= p.length < INT64_LIMIT
    requires p.state == if p.flags.chunked then ChunkSizeStart else if p.length > 0 then BodyIdentity else NewMessage(p)
    ensures Leads(p, ContentText(c), q, ContentItems(c), ContentUrl(c))
    ensures q == p.(state := q.state, length := q.length, hs := q.hs, index := q.index, nread := TrailerRead(c),
            flags := q.flags)
    ensures q.state == if FlagsFrom(p.flags, Trailer(c)).keepAlive then StartState(p) else Dead
  {
    hide Leads, ChunkOk, Spells, EncodeAll, EncodeHeaders, HeaderItems, Payload, Bytes, HeaderOk, EolText;
    match c {
      case Nothing =>
        q := p;
        LeadsNowhere(p);
      case Sized(data) =>
        SizedLeads(p, data);
        q := p.(length := 0, state := NewMessage(p));
        NoItems();
        assert [] + [Event(MessageComplete)] == [Event(MessageComplete)];
      case Chunks(chunks, last, ext, trailer, e) =>
        hide FlagsFrom;
        q := ChunkedBody(p, chunks, last, ext, trailer, e);
    }
  }

  lemma NoItems()
    ensures HeaderItems([]) == []
  {
  }

  lemma {:induction false} LengthFits(hs: seq<Header>)
    requires forall i | 0 <= i < |hs| :: HeaderOk(hs[i])
    ensures -1 <= LengthAll(hs) < INT64_LIMIT
  {
    hide FieldOf, Number, NameOk;
    if hs != [] {
      LengthFits(hs[..|hs| - 1]);
      assert HeaderOk(hs[|hs| - 1]);
    }
  }

  /** A request is read as what it consists of, and the parser is then ready for the next one exactly
      if the request asked to keep the connection. */
  lemma RequestReads(p: Parser, r: Message) returns (q: Parser)
    requires p.state == StartReq && p.kind == Request && !p.upgraded && Inv(p)
    requires MessageOk(r) && p.nread + |HeadText(r)| <= MAX_HEADER_SIZE
    ensures Leads(p, RequestText(r), q, Says(r), SaysUrl(r))
    ensures q.state == if KeepsConnection(r) then StartReq else Dead
    ensures q.kind == Request && !q.upgraded && q.nread == TrailerRead(r.content) && Inv(q)
    ensures q.verb == r.verb && q.major == MajorOf(r) && q.minor == MinorOf(r)
  {
    hide Leads, HeadText, ContentText, TargetText, TargetItems, HeaderItems, Bytes, FlagsFrom, LengthFrom, HeadOk,
         LineOk, MajorOf, MinorOf,
         ContentBytes, HeaderOk, ChunkOk, Spells, TrailerRead, EncodeHeaders, EolText, LineText;
    HeadIsOk(r);
    var a := HeadLeads(p, r);
    HeadersFit(r);
    HeadInv(p, r, a);
    q := ContentLeads(a, r.content);
    var begin := [Event(MessageBegin)];
    var m, u := begin + TargetItems(r.target) + HeaderItems(r.headers), begin + Bytes(Url, TargetText(r.target));
    LeadsOn(p, HeadText(r), a, m + HeadEnd(r), u + HeadEnd(r), ContentText(r.content), q, ContentItems(r.content),
      ContentUrl(r.content));
    EndsMeet(m, u, r);
    LeadsInv(p, RequestText(r), q, Says(r), SaysUrl(r));
  }

  lemma HeadersFit(r: Message)
    requires HeadOk(r)
    ensures -1 <= LengthAll(r.headers) < INT64_LIMIT
  {
    LengthFits(r.headers);
  }

  lemma LeadsInv(p: Parser, s: seq<Byte>, q: Parser, m: seq<Item>, u: seq<Item>)
    requires Leads(p, s, q, m, u) && Inv(p)
    ensures Inv(q)
  {
    hide Run, Said, Inv;
    RunInv(p, s, |s|);
  }

  lemma HeadInv(p: Parser, r: Message, q: Parser)
    requires Inv(p) &&
             Leads(p, HeadText(r), q,
             [Event(MessageBegin)] + TargetItems(r.target) + HeaderItems(r.headers) + HeadEnd(r),
                  [Event(MessageBegin)] + Bytes(Url, TargetText(r.target)) + HeadEnd(r))
    ensures q.index <= 17
  {
    hide Leads, HeadText;
    LeadsInv(p, HeadText(r), q, [Event(MessageBegin)] + TargetItems(r.target) + HeaderItems(r.headers) + HeadEnd(r),
             [Event(MessageBegin)] + Bytes(Url, TargetText(r.target)) + HeadEnd(r));
  }

  lemma EndsMeet(m: seq<Item>, u: seq<Item>, r: Message)
    ensures m + HeadEnd(r) + ContentItems(r.content) ==
            m + [Event(HeadersComplete)] + Bytes(Body, ContentBytes(r.content)) + HeaderItems(Trailer(r.content)) +
              [Event(MessageComplete)]
    ensures u + HeadEnd(r) + ContentUrl(r.content) == u + [Event(HeadersComplete)] + [Event(MessageComplete)]
  {
  }

  // ---- one request after another

  function AllText(rs: seq<Message>): seq<Byte> { if rs == [] then [] else RequestText(rs[0]) + AllText(rs[1..]) }

  function AllSays(rs: seq<Message>): seq<Item> { if rs == [] then [] else Says(rs[0]) + AllSays(rs[1..]) }

  function AllUrls(rs: seq<Message>): seq<Item> { if rs == [] then [] else SaysUrl(rs[0]) + AllUrls(rs[1..]) }

  /** Each head stays within the limit, of which the trailer of the message before has used some. */
  predicate HeadsFit(used: nat, rs: seq<Message>)
    decreases |rs|
  {
    rs != [] ==> used + |HeadText(rs[0])| <= MAX_HEADER_SIZE && HeadsFit(TrailerRead(rs[0].content), rs[1..])
  }

  /** Requests sent without waiting for answers, all but the last of which keep the connection, are
      read one after another. The trailer of one counts against the header limit of the next. */
  lemma {:induction false} PipelineReads(p: Parser, rs: seq<Message>) returns (q: Parser)
    requires p.state == StartReq && p.kind == Request && !p.upgraded && Inv(p)
    requires (forall i | 0 <= i < |rs| :: MessageOk(rs[i])) && HeadsFit(p.nread, rs)
    requires forall i | 0 <= i < |rs| - 1 :: KeepsConnection(rs[i])
    ensures Leads(p, AllText(rs), q, AllSays(rs), AllUrls(rs))
    ensures q.state == if rs == [] || KeepsConnection(rs[|rs| - 1]) then StartReq else Dead
    decreases |rs|
  {
    hide Leads, MessageOk, RequestText, HeadText, Says, SaysUrl, KeepsConnection, Inv, TrailerRead, AllText, AllSays,
         AllUrls;
    AllCons(rs);
    if rs == [] {
      q := p;
      LeadsNowhere(p);
    } else {
      var a := RequestReads(p, rs[0]);
      if |rs| == 1 {
        q := a;
        assert rs[1..] == [];
        AllCons([]);
        LeadsNowhere(q);
      } else {
        q := PipelineReads(a, rs[1..]);
      }
      LeadsOn(p, RequestText(rs[0]), a, Says(rs[0]), SaysUrl(rs[0]), AllText(rs[1..]), q, AllSays(rs[1..]),
        AllUrls(rs[1..]));
    }
  }

  lemma AllCons(rs: seq<Message>)
    ensures rs == [] ==> AllText(rs) == [] && AllSays(rs) == [] && AllUrls(rs) == []
    ensures rs != [] ==> AllText(rs) == RequestText(rs[0]) + AllText(rs[1..])
    ensures rs != [] ==>
            AllSays(rs) == Says(rs[0]) + AllSays(rs[1..]) && AllUrls(rs) == SaysUrl(rs[0]) + AllUrls(rs[1..])
  {
    hide RequestText, Says, SaysUrl;
  }

  /** Requests that arrive in any pieces: the parser accepts every byte, calls back exactly what the
      requests consist of, in their order, and is ready for another one exactly if the last one asked
      to keep the connection. */
  method ReceiveRequests(ghost rs: seq<Message>, pieces: seq<seq<Byte>>) returns (log: seq<Call>, n: nat, state: State)
    requires (forall i | 0 <= i < |rs| :: MessageOk(rs[i])) && HeadsFit(0, rs)
    requires forall i | 0 <= i < |rs| - 1 :: KeepsConnection(rs[i])
    requires Concat(pieces) == AllText(rs) && forall k | 0 <= k < |pieces| :: pieces[k] != []
    ensures n == |AllText(rs)| && Trace(log, false) == AllSays(rs) && Trace(log, true) == AllUrls(rs)
    ensures state == if rs == [] || KeepsConnection(rs[|rs| - 1]) then StartReq else Dead
  {
    hide MessageOk, HeadsFit, AllText, AllSays, AllUrls, KeepsConnection, Leads, Fed, Trace, Concat, Inv;
    var e := new Executor(Request);
    ghost var p := e.parser;
    ghost var q := PipelineReads(p, rs);
    n := e.FeedAll(pieces);
    CutsSay(p, [], AllText(rs), e.parser, e.log, n, q, AllSays(rs), AllUrls(rs));
    NothingTraced();
    log, state := e.log, e.parser.state;
  }

  /** What a text says is what the callbacks get, however the text is cut into calls. */
  lemma CutsSay(p0: Parser, log0: seq<Call>, data: seq<Byte>, p1: Parser, log1: seq<Call>, n: nat, q: Parser,
      m: seq<Item>, u: seq<Item>)
    requires Fed(p0, log0, data, p1, log1, n) && Leads(p0, data, q, m, u)
    ensures n == |data| && p1 == q && Trace(log1, false) == Trace(log0, false) + m &&
            Trace(log1, true) == Trace(log0, true) + u
  {
    hide Run, Said, Trace;
    assert Trace(log1, true) == Trace(log0, true) + Said(p0, data, |data|, true);
  }

  lemma NothingTraced()
    ensures Trace([], false) == [] && Trace([], true) == []
    ensures forall m: seq<Item> :: NOTHING + m == m
  {
  }

  // ---- a connection that is not kept

  const PLAIN: Message := Message(
    Layout([], 0, 0), GET, Target(None, ['/'], None, None), Some(Version(['1'], ['1'])), Crlf, [], Crlf, Nothing)

  lemma PlainText()
    ensures RequestText(PLAIN) == "GET / HTTP/1.1\r\n\r\n"
  {
    PlainLine();
    hide LineText;
    assert EncodeHeaders([]) == [];
    assert HeadText(PLAIN) == "GET / HTTP/1.1\r\n\r\n";
  }

  lemma PlainLine()
    ensures LineText(PLAIN) == "GET / HTTP/1.1\r\n"
  {
    PlainRest();
    hide RestOfLine;
    assert Spaces(0) == [];
    assert MethodName(GET) + [' '] == "GET ";
  }

  lemma PlainRest()
    ensures RestOfLine(PLAIN) == "/ HTTP/1.1\r\n"
  {
    PlainTarget();
    PlainVersion();
    hide TargetText, VersionText;
    assert Spaces(0) == [];
  }

  lemma PlainTarget()
    ensures TargetText(PLAIN.target) == ['/']
  {
  }

  lemma PlainVersion()
    ensures VersionText(Version(['1'], ['1']), Crlf) == "HTTP/1.1\r\n"
  {
  }

  lemma PlainOk()
    ensures MessageOk(PLAIN) && !KeepsConnection(PLAIN)
  {
    NumberOne('1');
  }

  /** A request of HTTP/1.1 without headers, which by section 8.1.2 of RFC 2616 keeps the connection,
      is read in full and leaves the parser dead. */
  lemma PlainIsNotKept(p: Parser) returns (q: Parser)
    requires p.state == StartReq && p.kind == Request && !p.upgraded && Inv(p) && p.nread + 18 <= MAX_HEADER_SIZE
    ensures Leads(p, "GET / HTTP/1.1\r\n\r\n", q, Says(PLAIN), SaysUrl(PLAIN)) && q.state == Dead
  {
    PlainText();
    PlainOk();
    assert HeadText(PLAIN) + [] == HeadText(PLAIN) == RequestText(PLAIN);
    hide RequestText, HeadText, MessageOk, KeepsConnection, Leads, Says, SaysUrl, Inv;
    q := RequestReads(p, PLAIN);
  }
}
