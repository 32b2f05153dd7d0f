/** What `http_parser_execute` keeps at every byte, and what it says for a whole input. */
module HttpRun {
  import opened HttpParser

  /** How far a header name has matched. */
  predicate FieldOk(p: Parser) {
    || p.hs == General || FullField(p.hs)
    || (p.hs == C && p.index == 0) || (p.hs == CO && p.index == 1) || (p.hs == CON && p.index == 2)
    || (MatchingField(p.hs) && p.index + 2 <= |Sought(p.hs).0|)
  }

  predicate ValueOk(p: Parser) {
    || p.hs == General || FullValue(p.hs) || (p.hs == ContentLength && p.length >= 0)
    || (MatchingValue(p.hs) && p.index + 2 <= |Sought(p.hs).0|)
  }

  predicate StateOk(p: Parser) {
    match p.state
    case HeaderField => FieldOk(p)
    case HeaderValue => ValueOk(p)
    case ChunkSizeStart | ChunkDataAlmostDone | ChunkDataDone => p.flags.chunked && p.nread == 0
    case ChunkData => p.flags.chunked && p.nread == 0 && p.length > 0
    case ChunkSize | ChunkParameters | ChunkSizeAlmostDone => p.flags.chunked && p.length >= 0
    case BodyIdentity => p.length > 0
    case ReqMethod => p.index <= 12
    case _ => true
  }

  /** The counters fit the bytes and words they are saved in, and each state's assertions will hold. */
  predicate Inv(p: Parser) {
    p.nread <= MAX_HEADER_SIZE && p.index <= 17 && -1 <= p.length < INT64_LIMIT && StateOk(p)
  }

  predicate Bounded(p: Parser) {
    p.nread <= MAX_HEADER_SIZE && p.index <= 17 && -1 <= p.length < INT64_LIMIT
  }

  /** The outcome trips no assertion and leads to a state that keeps the invariant. */
  predicate Keeps(out: Outcome) { !out.Trips? && (out.Next? ==> Inv(out.q)) }

  lemma StartMethodInv(p: Parser, ch: Byte)
    requires Bounded(p)
    ensures Keeps(StartMethod(p, ch))
  {
  }

  lemma StartInv(p: Parser, ch: Byte)
    requires Bounded(p)
    ensures Keeps(StartMove(p, ch))
  {
    hide StartMethod;
    StartMethodInv(Begun(p), ch);
    StartMethodInv(Begun(p).(kind := Request), ch);
  }

  lemma ResponseInv(p: Parser, ch: Byte)
    requires Bounded(p)
    ensures Keeps(ResponseMove(p, ch)) && Keeps(ProtocolMove(p, ch))
  {
  }

  lemma VersionInv(p: Parser, ch: Byte)
    requires Bounded(p)
    ensures Keeps(VersionMove(p, ch))
  {
  }

  lemma UrlInv(p: Parser, ch: Byte)
    requires Bounded(p)
    ensures p.state.ReqSpaces? || p.state.ReqSchema? || p.state.ReqHost? || p.state.ReqPort? ||
            p.state.ReqSchemaSlash? || p.state.ReqSchemaSlashSlash? ==>
              Keeps(HostMove(p, ch))
  {
  }

  lemma PathInv(p: Parser, ch: Byte)
    requires Bounded(p)
    ensures p.state.ReqPath? || p.state.ReqQueryStart? || p.state.ReqQuery? || p.state.ReqFragmentStart? ||
            p.state.ReqFragment? ==>
              Keeps(UrlMove(p, ch))
  {
  }

  lemma MethodInv(p: Parser, ch: Byte)
    requires Bounded(p) && p.state == ReqMethod
    ensures Keeps(MethodMove(p, ch))
  {
  }

  lemma LineInv(p: Parser, ch: Byte, acts: seq<Action>)
    requires Bounded(p)
    ensures Keeps(HeadersDone(p, ch)) && Keeps(HeaderDone(p, ch, acts))
  {
  }

  lemma FieldStartInv(p: Parser, ch: Byte)
    requires Bounded(p)
    ensures Keeps(FieldStartMove(p, ch))
  {
    hide HeadersDone, Token;
    LineInv(p.(state := HeadersAlmostDone), ch, []);
  }

  lemma FieldByteInv(p: Parser, ch: Byte, c: char)
    requires Bounded(p) && p.state == HeaderField && FieldOk(p)
    ensures Keeps(FieldByte(p, ch, c))
  {
  }

  lemma FieldInv(p: Parser, ch: Byte)
    requires Bounded(p) && p.state == HeaderField && FieldOk(p)
    ensures Keeps(FieldMove(p, ch))
  {
    hide FieldByte, FieldOk, Token;
    FieldByteInv(p, ch, Token(ch));
  }

  lemma ValueStartInv(p: Parser, ch: Byte)
    requires Bounded(p) && p.state == HeaderValueStart
    ensures Keeps(ValueStartMove(p, ch))
  {
    hide Lower;
  }

  lemma ValueInv(p: Parser, ch: Byte)
    requires Bounded(p) && p.state == HeaderValue && ValueOk(p)
    ensures Keeps(ValueMove(p, ch))
  {
    hide HeaderDone, Lower;
    LineInv(p, ch, [Flush(Value)]);
  }

  lemma ChunkInv(p: Parser, ch: Byte)
    requires Bounded(p) && p.flags.chunked
    requires p.state == ChunkSizeStart ==> p.nread == 1
    requires p.state == ChunkSize || p.state == ChunkParameters || p.state == ChunkSizeAlmostDone ==> p.length >= 0
    requires p.state == ChunkDataAlmostDone || p.state == ChunkDataDone ==> p.nread == 0
    ensures Keeps(ChunkMove(p, ch))
  {
    UnhexRange(ch);
    hide Unhex;
  }

  lemma UnhexRange(ch: Byte)
    ensures -1 <= Unhex(ch) < 16
  {
  }

  lemma BodyInv(p: Parser)
    requires Inv(p) && InBody(p.state)
    ensures Keeps(BodyMove(p))
  {
  }

  /** Every byte keeps the invariant, and no assertion of the code can fail. */
  lemma StepInv(p: Parser, ch: Byte)
    requires Inv(p)
    ensures Keeps(Step(p, ch))
  {
    hide StartMove, ProtocolMove, ResponseMove, VersionMove, HostMove, UrlMove, MethodMove, FieldStartMove,
         HeadersDone, HeaderDone, FieldMove, ValueStartMove, ValueMove, ChunkMove, BodyMove, FieldOk, ValueOk;
    if Counted(p.state) {
      if p.nread < MAX_HEADER_SIZE { MoveInv(p, p.(nread := p.nread + 1), ch); }
    } else {
      MoveInv(p, p, ch);
    }
  }

  lemma MoveInv(p: Parser, q: Parser, ch: Byte)
    requires Inv(p) && q == p.(nread := q.nread) && q.nread <= MAX_HEADER_SIZE
    requires q.nread == if Counted(p.state) then p.nread + 1 else p.nread
    ensures Keeps(Move(q, ch))
  {
    hide StartMove, ProtocolMove, ResponseMove, VersionMove, HostMove, UrlMove, MethodMove, FieldStartMove,
         HeadersDone, HeaderDone, FieldMove, ValueStartMove, ValueMove, ChunkMove, BodyMove, Keeps;
    match q.state {
      case ReqMethod => MethodInv(q, ch);
      case HeaderFieldStart => FieldStartInv(q, ch);
      case HeaderField => FieldInv(q, ch);
      case HeaderAlmostDone | HeadersAlmostDone => LineInv(q, ch, []);
      case HeaderValueStart => ValueStartInv(q, ch);
      case HeaderValue => ValueInv(q, ch);
      case ChunkSizeStart | ChunkSize | ChunkParameters | ChunkSizeAlmostDone
        | ChunkDataAlmostDone | ChunkDataDone => ChunkInv(q, ch);
      case BodyIdentity | BodyIdentityEof | ChunkData => BodyInv(q);
      case Dead => FailKeeps();
      case _ => StartInv(q, ch); ResponseInv(q, ch); VersionInv(q, ch); UrlInv(q, ch); PathInv(q, ch);
    }
  }

  lemma FailKeeps()
    ensures Keeps(Fail([]))
  {
  }

  // ---- the reference: what is said, byte by byte

  /** What the callbacks get to see of one byte. */
  datatype Item = Datum(piece: Piece, ch: Byte) | Event(notice: Notice)

  datatype Marked = Unmarked | As(piece: Piece)

  /** The marks that a call starts with, as given by the saved state alone. */
  function Kinds(s: State): set<Piece> {
    match s
    case HeaderField => {Field}
    case HeaderValue => {Value}
    case ReqPath => {Url, Path}
    case ReqQuery => {Url, Query}
    case ReqFragment => {Url, Fragment}
    case ReqSchema | ReqSchemaSlash | ReqSchemaSlashSlash | ReqHost | ReqPort => {Url}
    case ReqQueryStart | ReqFragmentStart => {Url}
    case _ => {}
  }

  /** The URL overlaps its parts, so it is followed apart from all other pieces. */
  function Active(kinds: set<Piece>, url: bool): Marked {
    if url then if Url in kinds then As(Url) else Unmarked
    else if Field in kinds then As(Field)
    else if Value in kinds then As(Value)
    else if Fragment in kinds then As(Fragment)
    else if Query in kinds then As(Query)
    else if Path in kinds then As(Path)
    else Unmarked
  }

  function Events(acts: seq<Action>, ch: Byte, url: bool): seq<Item> {
    if acts == [] then [] else
      Events(acts[..|acts| - 1], ch, url) +
      match acts[|acts| - 1]
      case Raise(n) => [Event(n)]
      case Deliver => if url then [] else [Datum(Body, ch)]
      case _ => []
  }

  function MarkedByte(s: State, ch: Byte, url: bool): seq<Item> {
    match Active(Kinds(s), url) case Unmarked => [] case As(k) => [Datum(k, ch)]
  }

  /** A byte belongs to the piece that the state after it names. */
  function Spoken(out: Outcome, ch: Byte, url: bool): seq<Item> {
    match out
    case Next(q, acts) => Events(acts, ch, url) + MarkedByte(q.state, ch, url)
    case Fail(acts) => Events(acts, ch, url)
    case Exit(_, acts) => Events(acts, ch, url)
    case _ => []
  }

  datatype Progress = Reached(q: Parser) | Stopped(at: nat, out: Outcome)

  /** The first `i` bytes of `data`, one at a time. */
  function Run(p: Parser, data: seq<Byte>, i: nat): Progress
    requires i <= |data|
  {
    if i == 0 then Reached(p) else
      match Run(p, data, i - 1)
      case Stopped(at, out) => Stopped(at, out)
      case Reached(q) => match Step(q, data[i - 1]) case Next(q', _) => Reached(q') case out => Stopped(i - 1, out)
  }

  function Said(p: Parser, data: seq<Byte>, i: nat, url: bool): seq<Item>
    requires i <= |data|
  {
    if i == 0 then [] else
      match Run(p, data, i - 1)
      case Stopped(_, _) => Said(p, data, i - 1, url)
      case Reached(q) => Said(p, data, i - 1, url) + Spoken(Step(q, data[i - 1]), data[i - 1], url)
  }

  lemma {:induction false} RunInv(p: Parser, data: seq<Byte>, i: nat)
    requires Inv(p) && i <= |data|
    ensures match Run(p, data, i)
            case Reached(q) => Inv(q)
            case Stopped(at, out) => at < i && !out.Next? && !out.Trips?
  {
    hide Step, Inv;
    if i > 0 {
      RunInv(p, data, i - 1);
      match Run(p, data, i - 1) {
        case Reached(q) => StepInv(q, data[i - 1]);
        case Stopped(_, _) =>
      }
    }
  }

  lemma {:induction false} RunPrefix(p: Parser, a: seq<Byte>, b: seq<Byte>, i: nat, url: bool)
    requires i <= |a|
    ensures Run(p, a + b, i) == Run(p, a, i) && Said(p, a + b, i, url) == Said(p, a, i, url)
  {
    hide Step, Spoken;
    if i > 0 { RunPrefix(p, a, b, i - 1, url); }
  }

  function Shift(r: Progress, n: nat): Progress {
    match r case Reached(q) => r case Stopped(at, out) => Stopped(at + n, out)
  }

  /** A run over two pieces is the run over the second from where the first led. */
  lemma {:induction false} RunAppend(p: Parser, a: seq<Byte>, b: seq<Byte>, j: nat, url: bool)
    requires j <= |b| && Run(p, a, |a|).Reached?
    ensures var q := Run(p, a, |a|).q;
            && Run(p, a + b, |a| + j) == Shift(Run(q, b, j), |a|)
            && Said(p, a + b, |a| + j, url) == Said(p, a, |a|, url) + Said(q, b, j, url)
  {
    hide Step, Spoken;
    if j == 0 {
      RunPrefix(p, a, b, |a|, url);
    } else {
      RunAppend(p, a, b, j - 1, url);
      assert (a + b)[|a| + j - 1] == b[j - 1];
    }
  }

  lemma {:induction false} RunStopped(p: Parser, data: seq<Byte>, i: nat, j: nat, url: bool)
    requires i <= j <= |data| && Run(p, data, i).Stopped?
    ensures Run(p, data, j) == Run(p, data, i) && Said(p, data, j, url) == Said(p, data, i, url)
  {
    hide Step, Spoken;
    if i < j { RunStopped(p, data, i, j - 1, url); }
  }
}
