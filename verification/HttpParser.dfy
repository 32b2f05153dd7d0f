/** The states, fields and per-byte transitions of `http_parser_execute`, with a reference semantics
    that knows no marks. Bytes are characters below 256; the strict build is modelled, callbacks
    return 0, and plain `char` is signed (a hexadecimal table entry of -1 compares equal to -1). */
module HttpParser {
  type Byte = c: char | c as int < 256 witness '\0'

  const MAX_HEADER_SIZE := 80 * 1024
  const INT64_LIMIT := 0x8000_0000_0000_0000
  const CR := '\r'
  const LF := '\n'

  datatype State =
    | Dead
    | StartReqOrRes | ResOrRespH
    | StartRes | ResH | ResHT | ResHTT | ResHTTP
    | ResFirstMajor | ResMajor | ResFirstMinor | ResMinor
    | ResFirstStatus | ResStatusCode | ResStatus | ResLineAlmostDone
    | StartReq | ReqMethod | ReqSpaces
    | ReqSchema | ReqSchemaSlash | ReqSchemaSlashSlash | ReqHost | ReqPort | ReqPath
    | ReqQueryStart | ReqQuery | ReqFragmentStart | ReqFragment
    | ReqHttpStart | ReqH | ReqHT | ReqHTT | ReqHTTP
    | ReqFirstMajor | ReqMajor | ReqFirstMinor | ReqMinor | ReqLineAlmostDone
    | HeaderFieldStart | HeaderField | HeaderValueStart | HeaderValue | HeaderAlmostDone
    | ChunkSizeStart | ChunkSize | ChunkParameters | ChunkSizeAlmostDone
    | HeadersAlmostDone
    | ChunkData | ChunkDataAlmostDone | ChunkDataDone
    | BodyIdentity | BodyIdentityEof

  datatype HeaderState =
    | General | C | CO | CON
    | MatchingConnection | MatchingProxyConnection | MatchingContentLength
    | MatchingTransferEncoding | MatchingUpgrade
    | Connection | ContentLength | TransferEncoding | Upgrade
    | MatchingChunked | MatchingKeepAlive | MatchingClose
    | Chunked | KeepAlive | Close

  datatype Method =
    | DELETE | GET | HEAD | POST | PUT | CONNECT | OPTIONS | TRACE | COPY | LOCK | MKCOL | MOVE
    | PROPFIND | PROPPATCH | UNLOCK | REPORT | MKACTIVITY | CHECKOUT | MERGE | MSEARCH | NOTIFY
    | SUBSCRIBE | UNSUBSCRIBE

  function MethodName(m: Method): seq<Byte> {
    match m
    case DELETE => "DELETE" case GET => "GET" case HEAD => "HEAD" case POST => "POST"
    case PUT => "PUT" case CONNECT => "CONNECT" case OPTIONS => "OPTIONS" case TRACE => "TRACE"
    case COPY => "COPY" case LOCK => "LOCK" case MKCOL => "MKCOL" case MOVE => "MOVE"
    case PROPFIND => "PROPFIND" case PROPPATCH => "PROPPATCH" case UNLOCK => "UNLOCK"
    case REPORT => "REPORT" case MKACTIVITY => "MKACTIVITY" case CHECKOUT => "CHECKOUT"
    case MERGE => "MERGE" case MSEARCH => "M-SEARCH" case NOTIFY => "NOTIFY"
    case SUBSCRIBE => "SUBSCRIBE" case UNSUBSCRIBE => "UNSUBSCRIBE"
  }

  datatype Type = Request | Response | Both

  datatype Flags = Flags(chunked: bool, keepAlive: bool, close: bool, trailing: bool, upgrade: bool)

  const NO_FLAGS := Flags(false, false, false, false, false)

  datatype Parser = Parser(
    state: State, hs: HeaderState, index: nat, nread: nat,
    kind: Type, flags: Flags, length: int,
    major: nat, minor: nat, status: nat, verb: Method, upgraded: bool)

  /** What a data callback receives: one of the marked pieces, or the body. */
  datatype Piece = Field | Value | Fragment | Query | Path | Url | Body

  datatype Notice = MessageBegin | HeadersComplete | MessageComplete

  /** What the code does at one byte: set a mark, call back with the bytes since a mark and clear it,
      raise a notice, or pass the byte itself on as body. */
  datatype Action = Mark(piece: Piece) | Flush(piece: Piece) | Raise(notice: Notice) | Deliver

  /** `Undefined`: an overrun of a method name or a signed overflow. `Trips`: an assertion fails. */
  datatype Outcome =
    | Next(q: Parser, acts: seq<Action>)
    | Fail(acts: seq<Action>)
    | Exit(q: Parser, acts: seq<Action>)
    | Undefined
    | Trips

  // ---- character classes

  predicate Digit(ch: char) { '0' <= ch <= '9' }

  function DigitValue(ch: char): nat
    requires Digit(ch)
  {
    ch as int - '0' as int
  }

  /** `c | 0x20` */
  function Lower(ch: Byte): char {
    if ch as int / 32 % 2 == 1 then ch else (ch as int + 32) as char
  }

  predicate Letter(ch: char) { 'a' <= ch <= 'z' || 'A' <= ch <= 'Z' }

  /** The `tokens` table; '\0' marks the bytes that are no token. */
  function Token(ch: Byte): char {
    if 'A' <= ch <= 'Z' then (ch as int + 32) as char
    else if ch < ' ' || ch > '~' || ch in "(),:;<=>?@[\\]{" then '\0'
    else ch
  }

  predicate NormalUrl(ch: char) { '!' <= ch <= '~' && ch != '#' && ch != '?' }

  /** The `unhex` table. It has 128 entries, so that every byte from 128 on counts as the digit 0. */
  function Unhex(ch: char): int {
    if Digit(ch) then ch as int - '0' as int
    else if 'a' <= ch <= 'f' then ch as int - 'a' as int + 10
    else if 'A' <= ch <= 'F' then ch as int - 'A' as int + 10
    else if ch as int >= 128 then 0
    else -1
  }

  // ---- transitions

  function Goto(p: Parser, s: State): Outcome { Next(p.(state := s), []) }

  function Expect(p: Parser, ch: char, want: char, s: State): Outcome {
    if ch == want then Goto(p, s) else Fail([])
  }

  function StartState(p: Parser): State { if p.kind == Request then StartReq else StartRes }

  function NewMessage(p: Parser): State { if p.flags.keepAlive then StartState(p) else Dead }

  function Begun(p: Parser): Parser { p.(flags := NO_FLAGS, length := -1) }

  function StartMethod(p: Parser, ch: char): Outcome {
    var q := p.(index := 1, state := ReqMethod);
    var begin := [Raise(MessageBegin)];
    match ch
    case 'C' => Next(q.(verb := CONNECT), begin)
    case 'D' => Next(q.(verb := DELETE), begin)
    case 'G' => Next(q.(verb := GET), begin)
    case 'H' => Next(q.(verb := HEAD), begin)
    case 'L' => Next(q.(verb := LOCK), begin)
    case 'M' => Next(q.(verb := MKCOL), begin)
    case 'N' => Next(q.(verb := NOTIFY), begin)
    case 'O' => Next(q.(verb := OPTIONS), begin)
    case 'P' => Next(q.(verb := POST), begin)
    case 'R' => Next(q.(verb := REPORT), begin)
    case 'S' => Next(q.(verb := SUBSCRIBE), begin)
    case 'T' => Next(q.(verb := TRACE), begin)
    case 'U' => Next(q.(verb := UNLOCK), begin)
    case _ => Fail(begin)
  }

  function StartMove(p: Parser, ch: char): Outcome {
    match p.state
    case StartReqOrRes =>
      if ch == CR || ch == LF then Next(p, [])
      else if ch == 'H' then Next(Begun(p).(state := ResOrRespH), [Raise(MessageBegin)])
      else StartMethod(Begun(p).(kind := Request), ch)
    case ResOrRespH =>
      if ch == 'T' then Goto(p.(kind := Response), ResHT)
      else if ch == 'E' then Goto(p.(kind := Request, verb := HEAD, index := 2), ReqMethod)
      else Fail([])
    case StartRes =>
      if ch == 'H' then Next(Begun(p).(state := ResH), [Raise(MessageBegin)])
      else if ch == CR || ch == LF then Next(Begun(p), [Raise(MessageBegin)])
      else Fail([Raise(MessageBegin)])
    case StartReq =>
      if ch == CR || ch == LF then Next(p, []) else StartMethod(Begun(p), ch)
    case _ => Fail([])
  }

  /** The method that a byte off the expected name turns to, if any. */
  function OtherMethod(m: Method, index: nat, ch: char): (r: (bool, Method)) {
    match m
    case CONNECT => (true, if index == 1 && ch == 'H' then CHECKOUT else if index == 2 && ch == 'P' then COPY else m)
    case MKCOL =>
      (true, if index == 1 && ch == 'O' then MOVE else if index == 1 && ch == 'E' then MERGE
             else if index == 1 && ch == '-' then MSEARCH else if index == 2 && ch == 'A' then MKACTIVITY else m)
    case POST =>
      if index == 1 && ch == 'R' then (true, PROPFIND) else if index == 1 && ch == 'U' then (true, PUT) else (false, m)
    case UNLOCK => if index == 2 && ch == 'S' then (true, UNSUBSCRIBE) else (false, m)
    case PROPFIND => if index == 4 && ch == 'P' then (true, PROPPATCH) else (false, m)
    case _ => (false, m)
  }

  function MethodMove(p: Parser, ch: char): Outcome {
    var name := MethodName(p.verb);
    if ch == '\0' then Fail([])
    else if p.index > |name| then Undefined
    else
      var q := p.(index := p.index + 1);
      if ch == ' ' && p.index == |name| then Goto(q, ReqSpaces)
      else if p.index < |name| && ch == name[p.index] then Next(q, [])
      else
        var (known, m) := OtherMethod(p.verb, p.index, ch);
        if known then Next(q.(verb := m), []) else Fail([])
  }

  function VersionMove(p: Parser, ch: char): Outcome {
    match p.state
    case ResFirstMajor => if '1' <= ch <= '9' then Goto(p.(major := DigitValue(ch)), ResMajor) else Fail([])
    case ReqFirstMajor => if '1' <= ch <= '9' then Goto(p.(major := DigitValue(ch)), ReqMajor) else Fail([])
    case ResMajor => if ch == '.' then Goto(p, ResFirstMinor) else MoreMajor(p, ch)
    case ReqMajor => if ch == '.' then Goto(p, ReqFirstMinor) else MoreMajor(p, ch)
    case ResFirstMinor => if Digit(ch) then Goto(p.(minor := DigitValue(ch)), ResMinor) else Fail([])
    case ReqFirstMinor => if Digit(ch) then Goto(p.(minor := DigitValue(ch)), ReqMinor) else Fail([])
    case ResMinor => if ch == ' ' then Goto(p, ResFirstStatus) else MoreMinor(p, ch)
    case ReqMinor =>
      if ch == CR then Goto(p, ReqLineAlmostDone) else if ch == LF then Goto(p, HeaderFieldStart) else MoreMinor(p, ch)
    case _ => Fail([])
  }

  function MoreMajor(p: Parser, ch: char): Outcome {
    if !Digit(ch) then Fail([]) else
      var v := p.major * 10 + DigitValue(ch);
      if v > 999 then Fail([]) else Next(p.(major := v), [])
  }

  function MoreMinor(p: Parser, ch: char): Outcome {
    if !Digit(ch) then Fail([]) else
      var v := p.minor * 10 + DigitValue(ch);
      if v > 999 then Fail([]) else Next(p.(minor := v), [])
  }

  function ResponseMove(p: Parser, ch: char): Outcome {
    match p.state
    case ResH => Expect(p, ch, 'T', ResHT)
    case ResHT => Expect(p, ch, 'T', ResHTT)
    case ResHTT => Expect(p, ch, 'P', ResHTTP)
    case ResHTTP => Expect(p, ch, '/', ResFirstMajor)
    case ResFirstStatus =>
      if Digit(ch) then Goto(p.(status := DigitValue(ch)), ResStatusCode)
      else if ch == ' ' then Next(p, []) else Fail([])
    case ResStatusCode =>
      if Digit(ch) then
        var v := p.status * 10 + DigitValue(ch);
        if v > 999 then Fail([]) else Next(p.(status := v), [])
      else if ch == ' ' then Goto(p, ResStatus)
      else if ch == CR then Goto(p, ResLineAlmostDone)
      else Expect(p, ch, LF, HeaderFieldStart)
    case ResStatus =>
      if ch == CR then Goto(p, ResLineAlmostDone) else if ch == LF then Goto(p, HeaderFieldStart) else Next(p, [])
    case ResLineAlmostDone => Expect(p, ch, LF, HeaderFieldStart)
    case _ => Fail([])
  }

  /** The request line ends after the URL: on to the version, or HTTP/0.9 without one. */
  function UrlEnd(p: Parser, ch: char, acts: seq<Action>): Outcome {
    if ch == ' ' then Next(p.(state := ReqHttpStart), acts)
    else if ch == CR then Next(p.(major := 0, minor := 9, state := ReqLineAlmostDone), acts)
    else if ch == LF then Next(p.(major := 0, minor := 9, state := HeaderFieldStart), acts)
    else Fail([])
  }

  function HostMove(p: Parser, ch: char): Outcome {
    match p.state
    case ReqSpaces =>
      if ch == ' ' then Next(p, [])
      else if ch == '/' || ch == '*' then Next(p.(state := ReqPath), [Mark(Url), Mark(Path)])
      else if Letter(ch) then Next(p.(state := ReqSchema), [Mark(Url)])
      else Fail([])
    case ReqSchema =>
      if Letter(ch) then Next(p, [])
      else if ch == ':' then Goto(p, ReqSchemaSlash)
      else if ch == '.' || Digit(ch) then Goto(p, ReqHost)
      else Fail([])
    case ReqSchemaSlash => Expect(p, ch, '/', ReqSchemaSlashSlash)
    case ReqSchemaSlashSlash => Expect(p, ch, '/', ReqHost)
    case ReqHost =>
      if Letter(ch) || Digit(ch) || ch == '.' || ch == '-' then Next(p, [])
      else if ch == ':' then Goto(p, ReqPort)
      else HostEnd(p, ch)
    case ReqPort => if Digit(ch) then Next(p, []) else HostEnd(p, ch)
    case _ => Fail([])
  }

  function HostEnd(p: Parser, ch: char): Outcome {
    if ch == '/' then Next(p.(state := ReqPath), [Mark(Path)])
    else if ch == ' ' then Next(p.(state := ReqHttpStart), [Flush(Url)])
    else Fail([])
  }

  function UrlMove(p: Parser, ch: char): Outcome {
    match p.state
    case ReqPath =>
      if NormalUrl(ch) then Next(p, [])
      else if ch == '?' then Next(p.(state := ReqQueryStart), [Flush(Path)])
      else if ch == '#' then Next(p.(state := ReqFragmentStart), [Flush(Path)])
      else UrlEnd(p, ch, [Flush(Url), Flush(Path)])
    case ReqQueryStart =>
      if NormalUrl(ch) then Next(p.(state := ReqQuery), [Mark(Query)])
      else if ch == '?' then Next(p, [])
      else if ch == '#' then Goto(p, ReqFragmentStart)
      else UrlEnd(p, ch, [Flush(Url)])
    case ReqQuery =>
      if NormalUrl(ch) || ch == '?' then Next(p, [])
      else if ch == '#' then Next(p.(state := ReqFragmentStart), [Flush(Query)])
      else UrlEnd(p, ch, [Flush(Url), Flush(Query)])
    case ReqFragmentStart =>
      if NormalUrl(ch) || ch == '?' then Next(p.(state := ReqFragment), [Mark(Fragment)])
      else if ch == '#' then Next(p, [])
      else UrlEnd(p, ch, [Flush(Url)])
    case ReqFragment =>
      if NormalUrl(ch) || ch == '?' || ch == '#' then Next(p, [])
      else UrlEnd(p, ch, [Flush(Url), Flush(Fragment)])
    case _ => Fail([])
  }

  function ProtocolMove(p: Parser, ch: char): Outcome {
    match p.state
    case ReqHttpStart => if ch == ' ' then Next(p, []) else Expect(p, ch, 'H', ReqH)
    case ReqH => Expect(p, ch, 'T', ReqHT)
    case ReqHT => Expect(p, ch, 'T', ReqHTT)
    case ReqHTT => Expect(p, ch, 'P', ReqHTTP)
    case ReqHTTP => Expect(p, ch, '/', ReqFirstMajor)
    case ReqLineAlmostDone => Expect(p, ch, LF, HeaderFieldStart)
    case _ => Fail([])
  }

  /** Character `i` of a C string. */
  function At(word: string, i: nat): char
    requires i <= |word|
  {
    if i < |word| then word[i] else '\0'
  }

  /** One more byte of a name or value that has matched `word` up to `p.index`. */
  function Matched(p: Parser, c: char, word: string, done: HeaderState): Parser {
    var i := p.index + 1;
    var hs := if i > |word| || c != At(word, i) then General else if i == |word| - 1 then done else p.hs;
    p.(index := i, hs := hs)
  }

  /** The word being matched in a header state, and the state that a full match leads to. */
  function Sought(hs: HeaderState): (r: (string, HeaderState))
    ensures |r.0| <= 17
  {
    match hs
    case MatchingConnection => ("connection", Connection)
    case MatchingProxyConnection => ("proxy-connection", Connection)
    case MatchingContentLength => ("content-length", ContentLength)
    case MatchingTransferEncoding => ("transfer-encoding", TransferEncoding)
    case MatchingUpgrade => ("upgrade", Upgrade)
    case MatchingChunked => ("chunked", Chunked)
    case MatchingKeepAlive => ("keep-alive", KeepAlive)
    case MatchingClose => ("close", Close)
    case _ => ("", General)
  }

  predicate MatchingField(hs: HeaderState) {
    hs.MatchingConnection? || hs.MatchingProxyConnection? || hs.MatchingContentLength? ||
    hs.MatchingTransferEncoding? || hs.MatchingUpgrade?
  }

  predicate MatchingValue(hs: HeaderState) { hs.MatchingChunked? || hs.MatchingKeepAlive? || hs.MatchingClose? }

  predicate FullField(hs: HeaderState) {
    hs.Connection? || hs.ContentLength? || hs.TransferEncoding? || hs.Upgrade?
  }

  predicate FullValue(hs: HeaderState) { hs.Chunked? || hs.KeepAlive? || hs.Close? }

  function FieldStartMove(p: Parser, ch: Byte): Outcome {
    if ch == CR then Goto(p, HeadersAlmostDone)
    else if ch == LF then HeadersDone(p.(state := HeadersAlmostDone), ch)
    else
      var c := Token(ch);
      if c == '\0' then Fail([]) else
        var hs := if c == 'c' then C else if c == 'p' then MatchingProxyConnection
                  else if c == 't' then MatchingTransferEncoding else if c == 'u' then MatchingUpgrade else General;
        Next(p.(index := 0, state := HeaderField, hs := hs), [Mark(Field)])
  }

  function FieldByte(p: Parser, ch: char, c: char): Outcome {
    if p.hs == General then Next(p, [])
    else if p.hs == C then Next(p.(index := p.index + 1, hs := if c == 'o' then CO else General), [])
    else if p.hs == CO then Next(p.(index := p.index + 1, hs := if c == 'n' then CON else General), [])
    else if p.hs == CON then
      var hs := if c == 'n' then MatchingConnection else if c == 't' then MatchingContentLength else General;
      Next(p.(index := p.index + 1, hs := hs), [])
    else if MatchingField(p.hs) then Next(Matched(p, c, Sought(p.hs).0, Sought(p.hs).1), [])
    else if FullField(p.hs) then Next(if ch == ' ' then p else p.(hs := General), [])
    else Trips
  }

  function FieldMove(p: Parser, ch: Byte): Outcome {
    var c := Token(ch);
    if c != '\0' then FieldByte(p, ch, c)
    else if ch == ':' then Next(p.(state := HeaderValueStart), [Flush(Field)])
    else if ch == CR then Next(p.(state := HeaderAlmostDone), [Flush(Field)])
    else if ch == LF then Next(p.(state := HeaderFieldStart), [Flush(Field)])
    else Fail([])
  }

  function ValueStartMove(p: Parser, ch: Byte): Outcome {
    if ch == ' ' then Next(p, [])
    else
      var q, c := p.(state := HeaderValue, index := 0), Lower(ch);
      if ch == CR then Next(q.(hs := General, state := HeaderAlmostDone), [Mark(Value), Flush(Value)])
      else if ch == LF then Next(q.(state := HeaderFieldStart), [Mark(Value), Flush(Value)])
      else match p.hs
        case Upgrade => Next(q.(flags := p.flags.(upgrade := true), hs := General), [Mark(Value)])
        case TransferEncoding => Next(q.(hs := if c == 'c' then MatchingChunked else General), [Mark(Value)])
        case ContentLength => if Digit(ch) then Next(q.(length := DigitValue(ch)), [Mark(Value)]) else Fail([])
        case Connection =>
          Next(q.(hs := if c == 'k' then MatchingKeepAlive else if c == 'c' then MatchingClose else General),
            [Mark(Value)])
        case _ => Next(q.(hs := General), [Mark(Value)])
  }

  function ValueByte(p: Parser, ch: char, c: char): Outcome {
    if p.hs == General then Next(p, [])
    else if p.hs == Connection || p.hs == TransferEncoding then Trips
    else if p.hs == ContentLength then
      if ch == ' ' then Next(p, [])
      else if !Digit(ch) then Fail([])
      else if p.length * 10 + DigitValue(ch) >= INT64_LIMIT then Undefined
      else Next(p.(length := p.length * 10 + DigitValue(ch)), [])
    else if MatchingValue(p.hs) then Next(Matched(p, c, Sought(p.hs).0, Sought(p.hs).1), [])
    else if FullValue(p.hs) then Next(if ch == ' ' then p else p.(hs := General), [])
    else Next(p.(hs := General), [])
  }

  function ValueMove(p: Parser, ch: Byte): Outcome {
    if ch == CR then Next(p.(state := HeaderAlmostDone), [Flush(Value)])
    else if ch == LF then HeaderDone(p, ch, [Flush(Value)])
    else ValueByte(p, ch, Lower(ch))
  }

  /** A header line is complete: its recognised value sets a flag. */
  function HeaderDone(p: Parser, ch: char, acts: seq<Action>): Outcome {
    if ch != LF then Fail([])
    else
      var flags :=
        match p.hs
        case KeepAlive => p.flags.(keepAlive := true)
        case Close => p.flags.(close := true)
        case Chunked => p.flags.(chunked := true)
        case _ => p.flags;
      Next(p.(flags := flags, state := HeaderFieldStart), acts)
  }

  /** The empty line: what follows is the end of a trailer, another protocol, a body or a message. */
  function HeadersDone(p: Parser, ch: char): Outcome {
    if ch != LF then Fail([])
    else if p.flags.trailing then Next(p.(state := NewMessage(p)), [Raise(MessageComplete)])
    else
      var q := p.(nread := 0, upgraded := p.upgraded || p.flags.upgrade || p.verb == CONNECT);
      var complete := [Raise(HeadersComplete), Raise(MessageComplete)];
      if q.upgraded then Exit(q, complete)
      else if q.flags.chunked then Next(q.(state := ChunkSizeStart), [Raise(HeadersComplete)])
      else if q.length == 0 then Next(q.(state := NewMessage(q)), complete)
      else if q.length > 0 then Next(q.(state := BodyIdentity), [Raise(HeadersComplete)])
      else if q.kind == Request || q.flags.keepAlive then Next(q.(state := NewMessage(q)), complete)
      else Next(q.(state := BodyIdentityEof), [Raise(HeadersComplete)])
  }

  function ChunkMove(p: Parser, ch: char): Outcome {
    if !p.flags.chunked then Trips else
      match p.state
      case ChunkSizeStart =>
        if p.nread != 1 then Trips
        else if Unhex(ch) == -1 then Fail([]) else Goto(p.(length := Unhex(ch)), ChunkSize)
      case ChunkSize =>
        if ch == CR then Goto(p, ChunkSizeAlmostDone)
        else if Unhex(ch) == -1 then
          if ch == ';' || ch == ' ' then Goto(p, ChunkParameters) else Fail([])
        else if p.length * 16 + Unhex(ch) >= INT64_LIMIT then Undefined
        else Next(p.(length := p.length * 16 + Unhex(ch)), [])
      case ChunkParameters => if ch == CR then Goto(p, ChunkSizeAlmostDone) else Next(p, [])
      case ChunkSizeAlmostDone =>
        if ch != LF then Fail([])
        else if p.length == 0 then
          Goto(p.(nread := 0, flags := p.flags.(trailing := true)), HeaderFieldStart)
        else Goto(p.(nread := 0), ChunkData)
      case ChunkDataAlmostDone => Expect(p, ch, CR, ChunkDataDone)
      case ChunkDataDone => Expect(p, ch, LF, ChunkSizeStart)
      case _ => Fail([])
  }

  /** One byte of body; `http_parser_execute` takes as many at once as it has. */
  function BodyMove(p: Parser): Outcome {
    match p.state
    case BodyIdentity =>
      var q := p.(length := p.length - 1);
      if q.length == 0 then Next(q.(state := NewMessage(q)), [Deliver, Raise(MessageComplete)]) else Next(q, [Deliver])
    case ChunkData =>
      Next(p.(length := p.length - 1, state := if p.length == 1 then ChunkDataAlmostDone else ChunkData), [Deliver])
    case _ => Next(p, [Deliver])
  }

  predicate InBody(s: State) { s.BodyIdentity? || s.BodyIdentityEof? || s.ChunkData? }

  /** `PARSING_HEADER` */
  predicate Counted(s: State) { !InBody(s) && !s.ChunkDataAlmostDone? && !s.ChunkDataDone? }

  function Move(p: Parser, ch: Byte): Outcome {
    match p.state
    case Dead => Fail([])
    case StartReqOrRes | ResOrRespH | StartRes | StartReq => StartMove(p, ch)
    case ResFirstMajor | ResMajor | ResFirstMinor | ResMinor => VersionMove(p, ch)
    case ReqFirstMajor | ReqMajor | ReqFirstMinor | ReqMinor => VersionMove(p, ch)
    case ResH | ResHT | ResHTT | ResHTTP | ResFirstStatus => ResponseMove(p, ch)
    case ResStatusCode | ResStatus | ResLineAlmostDone => ResponseMove(p, ch)
    case ReqMethod => MethodMove(p, ch)
    case ReqSpaces | ReqSchema | ReqSchemaSlash | ReqSchemaSlashSlash | ReqHost | ReqPort => HostMove(p, ch)
    case ReqPath | ReqQueryStart | ReqQuery | ReqFragmentStart | ReqFragment => UrlMove(p, ch)
    case ReqHttpStart | ReqH | ReqHT | ReqHTT | ReqHTTP | ReqLineAlmostDone => ProtocolMove(p, ch)
    case HeaderFieldStart => FieldStartMove(p, ch)
    case HeaderField => FieldMove(p, ch)
    case HeaderValueStart => ValueStartMove(p, ch)
    case HeaderValue => ValueMove(p, ch)
    case HeaderAlmostDone => HeaderDone(p, ch, [])
    case HeadersAlmostDone => HeadersDone(p, ch)
    case ChunkSizeStart | ChunkSize | ChunkParameters | ChunkSizeAlmostDone => ChunkMove(p, ch)
    case ChunkDataAlmostDone | ChunkDataDone => ChunkMove(p, ch)
    case BodyIdentity | BodyIdentityEof | ChunkData => BodyMove(p)
  }

  /** One byte, the count of header bytes included. */
  function Step(p: Parser, ch: Byte): Outcome {
    if Counted(p.state) then
      if p.nread >= MAX_HEADER_SIZE then Fail([]) else Move(p.(nread := p.nread + 1), ch)
    else Move(p, ch)
  }
}
