/** The request line: method, URL and version. */
module HttpLine {
  import opened Common
  import opened HttpParser
  import opened HttpRun
  import opened HttpMarks
  import opened HttpReads
  import opened HttpHeaders

  // ---- the method

  /** The method that the parser has in mind after `i` letters of a name. */
  function VerbAfter(m: Method, i: nat): Method {
    match m
    case CHECKOUT => if i < 2 then CONNECT else m
    case COPY => if i < 3 then CONNECT else m
    case MOVE | MERGE | MSEARCH => if i < 2 then MKCOL else m
    case MKACTIVITY => if i < 3 then MKCOL else m
    case PUT | PROPFIND => if i < 2 then POST else m
    case PROPPATCH => if i < 2 then POST else if i < 5 then PROPFIND else m
    case UNSUBSCRIBE => if i < 3 then UNLOCK else m
    case _ => m
  }

  lemma NameLetters(m: Method, i: nat)
    requires i < |MethodName(m)|
    ensures MethodName(m)[i] != '\0' && MethodName(m)[i] != ' '
  {
  }

  lemma FirstLetter(p: Parser, m: Method)
    ensures |MethodName(m)| >= 3
    ensures StartMethod(p, MethodName(m)[0]) ==
            Next(p.(index := 1, state := ReqMethod, verb := VerbAfter(m, 1)), [Raise(MessageBegin)])
  {
  }

  lemma NextLetter(p: Parser, m: Method, i: nat)
    requires 1 <= i < |MethodName(m)| && p.index == i && p.verb == VerbAfter(m, i)
    ensures MethodMove(p, MethodName(m)[i]) == Next(p.(index := i + 1, verb := VerbAfter(m, i + 1)), [])
  {
    NameLetters(m, i);
    if VerbAfter(m, i) == m {
    } else {
      assert i == 1 || i == 2 || i == 3 || i == 4;
    }
  }

  lemma StartStep(p: Parser, ch: Byte)
    requires p.state == StartReq && p.nread < MAX_HEADER_SIZE && ch != CR && ch != LF
    ensures Step(p, ch) == StartMethod(Begun(p).(nread := p.nread + 1), ch)
  {
    hide ProtocolMove, ResponseMove, VersionMove, HostMove, UrlMove, MethodMove, HeadersDone, FieldStartMove,
         HeaderDone, FieldMove, ValueStartMove, ValueMove, ChunkMove, BodyMove, StartMethod;
  }

  lemma MethodStep(p: Parser, ch: Byte)
    requires p.state == ReqMethod && p.nread < MAX_HEADER_SIZE
    ensures Step(p, ch) == MethodMove(p.(nread := p.nread + 1), ch)
  {
    hide StartMove, ProtocolMove, ResponseMove, VersionMove, HostMove, UrlMove, MethodMove, HeadersDone, FieldStartMove,
         HeaderDone, FieldMove, ValueStartMove, ValueMove, ChunkMove, BodyMove;
  }

  function InMethod(p: Parser, m: Method, i: nat): Parser {
    Begun(p).(state := ReqMethod, index := i, verb := VerbAfter(m, i), nread := p.nread + i)
  }

  lemma PlainLetter(m: Method)
    ensures |MethodName(m)| >= 3 && MethodName(m)[0] != CR && MethodName(m)[0] != LF
  {
  }

  /** The letters of a method begin a message. */
  lemma {:induction false} LettersRead(p: Parser, m: Method, i: nat)
    requires p.state == StartReq && 1 <= i <= |MethodName(m)| && p.nread + i <= MAX_HEADER_SIZE
    ensures Leads(p, MethodName(m)[..i], InMethod(p, m, i), [Event(MessageBegin)], [Event(MessageBegin)])
  {
    hide Leads, Step, StartMethod, MethodMove, MethodName, VerbAfter;
    PlainLetter(m);
    var name := MethodName(m);
    if i == 1 {
      assert name[..1] == [name[0]];
      StartStep(p, name[0]);
      FirstLetter(Begun(p).(nread := p.nread + 1), m);
      NoticeByte(p, name[0], InMethod(p, m, 1), MessageBegin);
    } else {
      LettersRead(p, m, i - 1);
      var r := InMethod(p, m, i - 1);
      MethodStep(r, name[i - 1]);
      NextLetter(r.(nread := r.nread + 1), m, i - 1);
      QuietByte(r, name[i - 1], InMethod(p, m, i));
      LeadsOn(p, name[..i - 1], r, [Event(MessageBegin)], [Event(MessageBegin)], [name[i - 1]], InMethod(p, m, i), [],
        []);
      assert name[..i] == name[..i - 1] + [name[i - 1]];
      assert [Event(MessageBegin)] + NOTHING == [Event(MessageBegin)];
    }
  }

  lemma VerbIs(m: Method)
    ensures VerbAfter(m, |MethodName(m)|) == m
  {
  }

  lemma MethodReads(p: Parser, m: Method) returns (q: Parser)
    requires p.state == StartReq && p.nread + |MethodName(m)| + 1 <= MAX_HEADER_SIZE
    ensures Leads(p, MethodName(m) + [' '], q, [Event(MessageBegin)], [Event(MessageBegin)])
    ensures q == Begun(p).(state := ReqSpaces, verb := m, index := q.index, nread := p.nread + |MethodName(m)| + 1)
  {
    hide Leads, Step, MethodName, VerbAfter;
    var name := MethodName(m);
    PlainLetter(m);
    LettersRead(p, m, |name|);
    assert name[..|name|] == name;
    VerbIs(m);
    var r := InMethod(p, m, |name|);
    MethodStep(r, ' ');
    q := r.(state := ReqSpaces, index := r.index + 1, nread := r.nread + 1);
    QuietByte(r, ' ', q);
    LeadsOn(p, name, r, [Event(MessageBegin)], [Event(MessageBegin)], [' '], q, [], []);
    assert [Event(MessageBegin)] + NOTHING == [Event(MessageBegin)];
  }

  // ---- what is passed over

  predicate LineBreaks(s: seq<Byte>) { forall i | 0 <= i < |s| :: s[i] == CR || s[i] == LF }

  lemma BreakStep(p: Parser, ch: Byte)
    requires p.state == StartReq && p.nread < MAX_HEADER_SIZE && (ch == CR || ch == LF)
    ensures Step(p, ch) == Next(p.(nread := p.nread + 1), []) && Kinds(StartReq) == {}
  {
    hide ProtocolMove, ResponseMove, VersionMove, HostMove, UrlMove, MethodMove, HeadersDone, FieldStartMove,
         HeaderDone, FieldMove, ValueStartMove, ValueMove, ChunkMove, BodyMove, StartMethod;
  }

  /** Empty lines before a request. */
  lemma {:induction false} BreaksRead(p: Parser, s: seq<Byte>)
    requires p.state == StartReq && LineBreaks(s) && p.nread + |s| <= MAX_HEADER_SIZE
    ensures Leads(p, s, p.(nread := p.nread + |s|), [], [])
  {
    hide Leads, Step, Kinds;
    if s == [] {
      LeadsNowhere(p);
    } else {
      var init, ch := s[..|s| - 1], s[|s| - 1];
      BreaksRead(p, init);
      var r := p.(nread := p.nread + |init|);
      BreakStep(r, ch);
      ThenQuiet(p, init, r, [], [], ch, p.(nread := p.nread + |s|));
      assert s == init + [ch];
    }
  }

  lemma SpaceStep(p: Parser)
    requires (p.state == ReqSpaces || p.state == ReqHttpStart) && p.nread < MAX_HEADER_SIZE
    ensures Step(p, ' ') == Next(p.(nread := p.nread + 1), []) && Kinds(p.state) == {}
  {
    hide StartMove, ResponseMove, VersionMove, UrlMove, MethodMove, HeadersDone, FieldStartMove,
         HeaderDone, FieldMove, ValueStartMove, ValueMove, ChunkMove, BodyMove;
  }

  /** More spaces than one, before or after the URL. */
  lemma {:induction false} SpacesRead(p: Parser, n: nat)
    requires (p.state == ReqSpaces || p.state == ReqHttpStart) && p.nread + n <= MAX_HEADER_SIZE
    ensures Leads(p, Spaces(n), p.(nread := p.nread + n), [], [])
  {
    hide Leads, Step, Kinds;
    if n == 0 {
      assert Spaces(0) == [];
      LeadsNowhere(p);
    } else {
      SpacesRead(p, n - 1);
      var r := p.(nread := p.nread + (n - 1));
      SpaceStep(r);
      ThenQuiet(p, Spaces(n - 1), r, [], [], ' ', p.(nread := p.nread + n));
      assert Spaces(n) == Spaces(n - 1) + [' '];
    }
  }

  // ---- the URL

  /** A byte that leaves the parser in a part of the URL. */
  predicate Stays(s: State, ch: Byte) {
    match s
    case ReqSchema => Letter(ch)
    case ReqHost => Letter(ch) || Digit(ch) || ch == '.' || ch == '-'
    case ReqPort => Digit(ch)
    case ReqPath => NormalUrl(ch)
    case ReqQueryStart => ch == '?'
    case ReqFragmentStart => ch == '#'
    case ReqQuery => NormalUrl(ch) || ch == '?'
    case ReqFragment => NormalUrl(ch) || ch == '?' || ch == '#'
    case _ => false
  }

  /** Where a byte leads from one part of a request line to another. */
  predicate Turns(s: State, ch: Byte, t: State) {
    match s
    case ReqSpaces => ((ch == '/' || ch == '*') && t == ReqPath) || (Letter(ch) && t == ReqSchema)
    case ReqSchema => (ch == ':' && t == ReqSchemaSlash) || ((ch == '.' || Digit(ch)) && t == ReqHost)
    case ReqSchemaSlash => ch == '/' && t == ReqSchemaSlashSlash
    case ReqSchemaSlashSlash => ch == '/' && t == ReqHost
    case ReqHost => (ch == ':' && t == ReqPort) || (ch == '/' && t == ReqPath) || (ch == ' ' && t == ReqHttpStart)
    case ReqPort => (ch == '/' && t == ReqPath) || (ch == ' ' && t == ReqHttpStart)
    case ReqPath => (ch == '?' && t == ReqQueryStart) || (ch == '#' && t == ReqFragmentStart) ||
      (ch == ' ' && t == ReqHttpStart)
    case ReqQueryStart =>
      (NormalUrl(ch) && t == ReqQuery) || (ch == '#' && t == ReqFragmentStart) || (ch == ' ' && t == ReqHttpStart)
    case ReqQuery => (ch == '#' && t == ReqFragmentStart) || (ch == ' ' && t == ReqHttpStart)
    case ReqFragmentStart => ((NormalUrl(ch) || ch == '?') && t == ReqFragment) || (ch == ' ' && t == ReqHttpStart)
    case ReqFragment => ch == ' ' && t == ReqHttpStart
    case _ => false
  }

  predicate InUrl(s: State) {
    s.ReqSpaces? || s.ReqSchema? || s.ReqSchemaSlash? || s.ReqSchemaSlashSlash? || s.ReqHost? || s.ReqPort? ||
    s.ReqPath? || s.ReqQueryStart? || s.ReqQuery? || s.ReqFragmentStart? || s.ReqFragment?
  }

  predicate InHost(s: State) {
    s.ReqSpaces? || s.ReqSchema? || s.ReqSchemaSlash? || s.ReqSchemaSlashSlash? || s.ReqHost? || s.ReqPort?
  }

  lemma UrlStepIs(p: Parser, ch: Byte)
    requires InUrl(p.state) && p.nread < MAX_HEADER_SIZE
    ensures var q := p.(nread := p.nread + 1);
            Step(p, ch) == if InHost(p.state) then HostMove(q, ch) else UrlMove(q, ch)
  {
    hide StartMove, ProtocolMove, ResponseMove, VersionMove, HostMove, UrlMove, MethodMove, HeadersDone, FieldStartMove,
         HeaderDone, FieldMove, ValueStartMove, ValueMove, ChunkMove, BodyMove;
  }

  predicate OnlyMarks(acts: seq<Action>) { forall i | 0 <= i < |acts| :: acts[i].Mark? || acts[i].Flush? }

  lemma StayStep(p: Parser, ch: Byte)
    requires Stays(p.state, ch) && p.nread < MAX_HEADER_SIZE
    ensures Step(p, ch) == Next(p.(nread := p.nread + 1), [])
  {
    hide Step;
    UrlStepIs(p, ch);
  }

  lemma TurnStep(p: Parser, ch: Byte, t: State)
    requires Turns(p.state, ch, t) && p.nread < MAX_HEADER_SIZE
    ensures Step(p, ch).Next? && Step(p, ch).q == p.(state := t, nread := p.nread + 1) && OnlyMarks(Step(p, ch).acts)
  {
    hide Step, HostMove, UrlMove;
    UrlStepIs(p, ch);
    if InHost(p.state) { HostTurn(p.(nread := p.nread + 1), ch, t); } else { UrlTurn(p.(nread := p.nread + 1), ch, t); }
  }

  lemma HostTurn(p: Parser, ch: Byte, t: State)
    requires InHost(p.state) && Turns(p.state, ch, t)
    ensures HostMove(p, ch).Next? && HostMove(p, ch).q == p.(state := t) && OnlyMarks(HostMove(p, ch).acts)
  {
  }

  lemma UrlTurn(p: Parser, ch: Byte, t: State)
    requires !InHost(p.state) && Turns(p.state, ch, t)
    ensures UrlMove(p, ch).Next? && UrlMove(p, ch).q == p.(state := t) && OnlyMarks(UrlMove(p, ch).acts)
  {
  }

  /** What a text says that is read in one state. */
  function Text(s: State, v: seq<Byte>, url: bool): seq<Item> {
    match Active(Kinds(s), url) case Unmarked => [] case As(k) => Bytes(k, v)
  }

  lemma TextNext(s: State, v: seq<Byte>, ch: Byte, url: bool)
    ensures Text(s, v + [ch], url) == Text(s, v, url) + MarkedByte(s, ch, url)
    ensures Text(s, [ch], url) == MarkedByte(s, ch, url) && Text(s, [], url) == []
  {
    hide Kinds;
    match Active(Kinds(s), url) {
      case Unmarked =>
      case As(k) => assert Bytes(k, v + [ch]) == Bytes(k, v) + [Datum(k, ch)];
    }
  }

  lemma {:induction false} StayReads(p: Parser, v: seq<Byte>)
    requires (forall i | 0 <= i < |v| :: Stays(p.state, v[i])) && p.nread + |v| <= MAX_HEADER_SIZE
    ensures Leads(p, v, p.(nread := p.nread + |v|), Text(p.state, v, false), Text(p.state, v, true))
  {
    hide Leads, Step, Text, MarkedByte, Stays;
    if v == [] {
      LeadsNowhere(p);
      TextNext(p.state, [], ' ', false);
      TextNext(p.state, [], ' ', true);
    } else {
      var init, ch := v[..|v| - 1], v[|v| - 1];
      StayReads(p, init);
      var r, q := p.(nread := p.nread + |init|), p.(nread := p.nread + |v|);
      StayStep(r, ch);
      SilentByte(r, ch, q, []);
      LeadsOn(p, init, r, Text(p.state, init, false), Text(p.state, init, true), [ch], q,
              MarkedByte(p.state, ch, false), MarkedByte(p.state, ch, true));
      assert v == init + [ch];
      TextNext(p.state, init, ch, false);
      TextNext(p.state, init, ch, true);
    }
  }

  /** A byte that turns to a new part, and the text that stays in it. */
  lemma PartReads(p: Parser, ch: Byte, t: State, v: seq<Byte>)
    requires Turns(p.state, ch, t) && (forall i | 0 <= i < |v| :: Stays(t, v[i])) &&
             p.nread + 1 + |v| <= MAX_HEADER_SIZE
    ensures Leads(p, [ch] + v, p.(state := t, nread := p.nread + 1 + |v|), Text(t, [ch] + v, false),
            Text(t, [ch] + v, true))
  {
    hide Leads, Step, Turns, Stays, MarkedByte;
    var q := p.(state := t, nread := p.nread + 1);
    TurnStep(p, ch, t);
    SilentByte(p, ch, q, Step(p, ch).acts);
    StayReads(q, v);
    LeadsOn(p, [ch], q, MarkedByte(t, ch, false), MarkedByte(t, ch, true), v,
      p.(state := t, nread := p.nread + 1 + |v|),
            Text(t, v, false), Text(t, v, true));
    TextCons(t, ch, v, false);
    TextCons(t, ch, v, true);
  }

  lemma TextCons(s: State, ch: Byte, v: seq<Byte>, url: bool)
    ensures Text(s, [ch] + v, url) == MarkedByte(s, ch, url) + Text(s, v, url)
  {
    hide Kinds;
    match Active(Kinds(s), url) {
      case Unmarked =>
      case As(k) => assert Bytes(k, [ch] + v) == [Datum(k, ch)] + Bytes(k, v);
    }
  }

  /** A text and the part that follows it. */
  lemma ThenPart(p: Parser, s: seq<Byte>, q: Parser, m: seq<Item>, u: seq<Item>, ch: Byte, t: State, v: seq<Byte>)
      returns (r: Parser)
    requires Leads(p, s, q, m, u) && Turns(q.state, ch, t) && (forall i | 0 <= i < |v| :: Stays(t, v[i]))
    requires q.nread + 1 + |v| <= MAX_HEADER_SIZE
    ensures r == q.(state := t, nread := q.nread + 1 + |v|)
    ensures Leads(p, s + ([ch] + v), r, m + Text(t, [ch] + v, false), u + Text(t, [ch] + v, true))
  {
    hide Leads, Turns, Stays, Text;
    r := q.(state := t, nread := q.nread + 1 + |v|);
    PartReads(q, ch, t, v);
    LeadsOn(p, s, q, m, u, [ch] + v, r, Text(t, [ch] + v, false), Text(t, [ch] + v, true));
  }

  /** With a scheme, any host; without one, a host with a dot or a digit after its first word. */
  datatype Authority =
    | Authority(scheme: seq<Byte>, host: seq<Byte>, port: Option<seq<Byte>>)
    | Bare(word: seq<Byte>, tail: seq<Byte>, port: Option<seq<Byte>>)

  datatype Target = Target(authority: Option<Authority>, path: seq<Byte>, query: Option<seq<Byte>>,
      fragment: Option<seq<Byte>>)

  predicate AllStay(s: State, v: seq<Byte>) { forall i | 0 <= i < |v| :: Stays(s, v[i]) }

  predicate HostOk(a: Authority) {
    match a
    case Authority(scheme, host, _) => scheme != [] && AllStay(ReqSchema, scheme) && AllStay(ReqHost, host)
    case Bare(word, tail, _) =>
      word != [] && AllStay(ReqSchema, word) && tail != [] && (tail[0] == '.' || Digit(tail[0])) &&
        AllStay(ReqHost, tail[1..])
  }

  predicate AuthorityOk(a: Authority) { HostOk(a) && (a.port.Some? ==> AllStay(ReqPort, a.port.value)) }

  /** The part of a URL without the marks that are repeated in front of it, which the parser skips. */
  function Stripped(mark: Byte, v: seq<Byte>): seq<Byte> {
    if v != [] && v[0] == mark then Stripped(mark, v[1..]) else v
  }

  lemma {:induction false} StrippedIs(mark: Byte, v: seq<Byte>) returns (n: nat)
    ensures n <= |v| && Stripped(mark, v) == v[n..] && (forall i | 0 <= i < n :: v[i] == mark) &&
            (n < |v| ==> v[n] != mark)
  {
    if v != [] && v[0] == mark {
      var k := StrippedIs(mark, v[1..]);
      n := k + 1;
      assert v[1..][k..] == v[n..];
      forall i | 0 <= i < n ensures v[i] == mark { if i > 0 { assert v[1..][i - 1] == mark; } }
    } else {
      n := 0;
    }
  }

  /** Only a URL with a host can do without a path, and then it has no query and no fragment. */
  predicate TargetOk(t: Target) {
    && (if t.path == [] then t.authority.Some? && t.query == t.fragment == None
        else (t.path[0] == '/' || (t.path[0] == '*' && t.authority.None?)) && AllStay(ReqPath, t.path[1..]))
    && (t.authority.Some? ==> AuthorityOk(t.authority.value))
    && (t.query.Some? ==> AllStay(ReqQuery, t.query.value))
    && (t.fragment.Some? ==> AllStay(ReqFragment, t.fragment.value))
  }

  function AuthorityText(a: Option<Authority>): seq<Byte> {
    match a
    case None => []
    case Some(x) => HostText(x) + (if x.port.Some? then [':'] + x.port.value else [])
  }

  function HostText(a: Authority): seq<Byte> {
    match a
    case Authority(scheme, host, _) => scheme + [':'] + ['/'] + ['/'] + host
    case Bare(word, tail, _) => word + tail
  }

  /** A part of the URL with the mark in front of it. */
  function PartText(mark: char, part: Option<seq<Byte>>): seq<Byte>
    requires mark as int < 256
  {
    match part case None => [] case Some(v) => [mark] + v
  }

  function TargetText(t: Target): seq<Byte> {
    AuthorityText(t.authority) + t.path + PartText('?', t.query) + PartText('#', t.fragment)
  }

  function PartItems(k: Piece, mark: char, part: Option<seq<Byte>>): seq<Item>
    requires mark as int < 256
  {
    match part case None => [] case Some(v) => Bytes(k, Stripped(mark, v))
  }

  lemma BytesCat(k: Piece, a: seq<Byte>, b: seq<Byte>)
    ensures Bytes(k, a) + Bytes(k, b) == Bytes(k, a + b) && Bytes(k, []) == []
  {
  }

  lemma TextIs(s: State, v: seq<Byte>)
    ensures Text(s, v, true) == if Url in Kinds(s) then Bytes(Url, v) else []
    ensures s.ReqPath? ==> Text(s, v, false) == Bytes(Path, v)
    ensures s.ReqQuery? ==> Text(s, v, false) == Bytes(Query, v)
    ensures s.ReqFragment? ==> Text(s, v, false) == Bytes(Fragment, v)
    ensures s.ReqSchema? || s.ReqSchemaSlash? || s.ReqSchemaSlashSlash? || s.ReqHost? || s.ReqPort? ||
            s.ReqQueryStart? || s.ReqFragmentStart? || s.ReqHttpStart? ==>
              Text(s, v, false) == []
  {
  }

  /** Like `ThenPart`, with the URL spelled out. */
  lemma ThenUrl(p: Parser, s: seq<Byte>, q: Parser, m: seq<Item>, ch: Byte, t: State, v: seq<Byte>) returns (r: Parser)
    requires Leads(p, s, q, m, Bytes(Url, s)) && Turns(q.state, ch, t) && AllStay(t, v) && Url in Kinds(t)
    requires q.nread + 1 + |v| <= MAX_HEADER_SIZE
    ensures r == q.(state := t, nread := q.nread + 1 + |v|)
    ensures Leads(p, s + ([ch] + v), r, m + Text(t, [ch] + v, false), Bytes(Url, s + ([ch] + v)))
  {
    hide Leads, Turns, Stays, Text, Bytes, Kinds;
    r := ThenPart(p, s, q, m, Bytes(Url, s), ch, t, v);
    TextIs(t, [ch] + v);
    BytesCat(Url, s, [ch] + v);
  }

  lemma UrlKind(s: State)
    requires InUrl(s) && !s.ReqSpaces?
    ensures Url in Kinds(s)
  {
  }

  /** A part of the URL that is no piece of its own. */
  lemma ThenPlain(p: Parser, s: seq<Byte>, q: Parser, m: seq<Item>, ch: Byte, t: State, v: seq<Byte>)
      returns (r: Parser)
    requires Leads(p, s, q, m, Bytes(Url, s)) && Turns(q.state, ch, t) && AllStay(t, v)
    requires t.ReqSchemaSlash? || t.ReqSchemaSlashSlash? || t.ReqHost? || t.ReqPort? || t.ReqQueryStart? ||
             t.ReqFragmentStart?
    requires q.nread + 1 + |v| <= MAX_HEADER_SIZE
    ensures r == q.(state := t, nread := q.nread + 1 + |v|)
    ensures Leads(p, s + [ch] + v, r, m, Bytes(Url, s + [ch] + v))
  {
    hide Leads, Turns, Stays, Text, Bytes, Kinds;
    UrlKind(t);
    r := ThenUrl(p, s, q, m, ch, t, v);
    TextIs(t, [ch] + v);
    assert s + ([ch] + v) == s + [ch] + v && m + NOTHING == m;
  }

  lemma SchemeReads(p: Parser, x: seq<Byte>) returns (q: Parser)
    requires p.state == ReqSpaces && x != [] && Turns(ReqSpaces, x[0], ReqSchema) && AllStay(ReqSchema, x[1..])
    requires p.nread + |x| <= MAX_HEADER_SIZE
    ensures Leads(p, x, q, [], Bytes(Url, x)) && q == p.(state := ReqSchema, nread := p.nread + |x|)
  {
    hide Leads, Turns, Stays, Text, Bytes, Kinds;
    q := p.(state := ReqSchema, nread := p.nread + |x|);
    PartReads(p, x[0], ReqSchema, x[1..]);
    assert x == [x[0]] + x[1..];
    TextIs(ReqSchema, x);
    UrlKind(ReqSchema);
  }

  lemma SlashesTurn()
    ensures Turns(ReqSchema, ':', ReqSchemaSlash) && Turns(ReqSchemaSlash, '/', ReqSchemaSlashSlash)
    ensures Turns(ReqSchemaSlashSlash, '/', ReqHost) && Turns(ReqHost, ':', ReqPort)
    ensures AllStay(ReqSchemaSlash, []) && AllStay(ReqSchemaSlashSlash, [])
  {
  }

  /** Scheme and host, or a host alone. */
  lemma HostReads(p: Parser, a: Authority) returns (q: Parser)
    requires p.state == ReqSpaces && HostOk(a) && p.nread + |HostText(a)| <= MAX_HEADER_SIZE
    ensures Leads(p, HostText(a), q, [], Bytes(Url, HostText(a)))
    ensures q == p.(state := ReqHost, nread := p.nread + |HostText(a)|)
  {
    hide Leads, Bytes, Text, Kinds, Turns, AllStay;
    SlashesTurn();
    HostTurns(a);
    match a {
      case Authority(x, host, _) =>
        var r := SchemeReads(p, x);
        r := ThenPlain(p, x, r, [], ':', ReqSchemaSlash, []);
        assert x + [':'] + [] == x + [':'];
        r := ThenPlain(p, x + [':'], r, [], '/', ReqSchemaSlashSlash, []);
        assert x + [':'] + ['/'] + [] == x + [':'] + ['/'];
        q := ThenPlain(p, x + [':'] + ['/'], r, [], '/', ReqHost, host);
      case Bare(x, tail, _) =>
        var r := SchemeReads(p, x);
        q := ThenPlain(p, x, r, [], tail[0], ReqHost, tail[1..]);
        assert x + [tail[0]] + tail[1..] == x + tail;
    }
  }

  lemma AuthorityReads(p: Parser, a: Authority) returns (q: Parser)
    requires p.state == ReqSpaces && AuthorityOk(a) && p.nread + |AuthorityText(Some(a))| <= MAX_HEADER_SIZE
    ensures Leads(p, AuthorityText(Some(a)), q, [], Bytes(Url, AuthorityText(Some(a))))
    ensures q == p.(state := q.state, nread := p.nread + |AuthorityText(Some(a))|) &&
            (q.state == ReqHost || q.state == ReqPort)
  {
    hide Leads, Bytes, Text, Kinds, Turns, AllStay, HostText, HostOk;
    SlashesTurn();
    var s := HostText(a);
    q := HostReads(p, a);
    if a.port.Some? {
      q := ThenPlain(p, s, q, [], ':', ReqPort, a.port.value);
      assert s + [':'] + a.port.value == AuthorityText(Some(a));
    } else {
      assert s + [] == s;
    }
  }

  lemma HostTurns(a: Authority)
    requires HostOk(a)
    ensures var word := if a.Bare? then a.word else a.scheme;
            word != [] && Turns(ReqSpaces, word[0], ReqSchema) && AllStay(ReqSchema, word[1..])
    ensures a.Bare? ==> Turns(ReqSchema, a.tail[0], ReqHost)
  {
  }

  predicate AfterPath(s: State, t: Target) { if t.path == [] then s == ReqHost || s == ReqPort else s == ReqPath }

  /** Authority and path. */
  lemma PathReads(p: Parser, t: Target) returns (q: Parser)
    requires p.state == ReqSpaces && TargetOk(t) && p.nread + |AuthorityText(t.authority) + t.path| <= MAX_HEADER_SIZE
    ensures Leads(p, AuthorityText(t.authority) + t.path, q, Bytes(Path, t.path),
            Bytes(Url, AuthorityText(t.authority) + t.path))
    ensures q == p.(state := q.state, nread := p.nread + |AuthorityText(t.authority) + t.path|) && AfterPath(q.state, t)
  {
    hide Leads, Bytes, Text, Kinds, AuthorityText, AuthorityOk, AllStay;
    var a := AuthorityText(t.authority);
    var r := p;
    BytesCat(Url, [], []);
    BytesCat(Path, [], []);
    if t.authority.Some? {
      r := AuthorityReads(p, t.authority.value);
    } else {
      NoAuthority();
      LeadsNowhere(p);
    }
    if t.path == [] {
      q := r;
      assert a + t.path == a;
    } else {
      UrlKind(ReqPath);
      q := ThenUrl(p, a, r, [], t.path[0], ReqPath, t.path[1..]);
      assert [t.path[0]] + t.path[1..] == t.path;
      TextIs(ReqPath, t.path);
      assert NOTHING + Bytes(Path, t.path) == Bytes(Path, t.path);
    }
  }

  lemma NoAuthority()
    ensures AuthorityText(None) == []
  {
  }

  predicate PartStates(start: State, part: State, k: Piece, mark: Byte) {
    || (start == ReqQueryStart && part == ReqQuery && k == Query && mark == '?')
    || (start == ReqFragmentStart && part == ReqFragment && k == Fragment && mark == '#')
  }

  lemma PartStart(start: State, part: State, k: Piece, mark: Byte, v: seq<Byte>, n: nat)
    requires PartStates(start, part, k, mark) && AllStay(part, v) && n <= |v| && forall i | 0 <= i < n :: v[i] == mark
    ensures AllStay(start, v[..n]) &&
            (n < |v| && v[n] != mark ==> Turns(start, v[n], part) && AllStay(part, v[n..][1..]))
  {
  }

  /** Query or fragment: the marks lead to the start, the first byte after them into the piece. */
  lemma MarkedPartReads(p: Parser, s: seq<Byte>, q: Parser, m: seq<Item>, mark: Byte, start: State, part: State,
      k: Piece, v: seq<Byte>)
    returns (r: Parser)
    requires Leads(p, s, q, m, Bytes(Url, s)) && Turns(q.state, mark, start) && q.nread + 1 + |v| <= MAX_HEADER_SIZE
    requires PartStates(start, part, k, mark) && AllStay(part, v)
    ensures Leads(p, s + ([mark] + v), r, m + Bytes(k, Stripped(mark, v)), Bytes(Url, s + ([mark] + v)))
    ensures r == q.(state := r.state, nread := q.nread + 1 + |v|) && (r.state == start || r.state == part)
  {
    hide Leads, Bytes, Text, Kinds, Turns, Stays, AllStay, Stripped;
    var n := StrippedIs(mark, v);
    PartStart(start, part, k, mark, v, n);
    r := ThenPlain(p, s, q, m, mark, start, v[..n]);
    var s1, w := s + [mark] + v[..n], v[n..];
    BytesCat(k, [], []);
    assert s1 + w == s + ([mark] + v);
    if w == [] {
      assert s1 + w == s1 && m + [] == m;
    } else {
      UrlKind(part);
      r := ThenUrl(p, s1, r, m, w[0], part, w[1..]);
      assert [w[0]] + w[1..] == w;
      TextIs(part, w);
    }
  }

  function TargetItems(t: Target): seq<Item> {
    Bytes(Path, t.path) + PartItems(Query, '?', t.query) + PartItems(Fragment, '#', t.fragment)
  }

  lemma QueryReads(p: Parser, t: Target, s: seq<Byte>, q: Parser, m: seq<Item>) returns (r: Parser)
    requires TargetOk(t) && Leads(p, s, q, m, Bytes(Url, s)) && AfterPath(q.state, t) &&
             q.nread + |PartText('?', t.query)| <= MAX_HEADER_SIZE
    ensures Leads(p, s + PartText('?', t.query), r, m + PartItems(Query, '?', t.query),
            Bytes(Url, s + PartText('?', t.query)))
    ensures r == q.(state := r.state, nread := q.nread + |PartText('?', t.query)|)
    ensures AfterPath(r.state, t) || (t.path != [] && (r.state == ReqQueryStart || r.state == ReqQuery))
  {
    hide Leads, Bytes, AllStay, Stripped;
    match t.query {
      case None =>
        r := q;
        assert s + [] == s && m + [] == m;
      case Some(v) => r := MarkedPartReads(p, s, q, m, '?', ReqQueryStart, ReqQuery, Query, v);
    }
  }

  lemma FragmentReads(p: Parser, t: Target, s: seq<Byte>, q: Parser, m: seq<Item>) returns (r: Parser)
    requires TargetOk(t) && Leads(p, s, q, m, Bytes(Url, s)) && q.nread + |PartText('#', t.fragment)| <= MAX_HEADER_SIZE
    requires AfterPath(q.state, t) || (t.path != [] && (q.state == ReqQueryStart || q.state == ReqQuery))
    ensures Leads(p, s + PartText('#', t.fragment), r, m + PartItems(Fragment, '#', t.fragment),
            Bytes(Url, s + PartText('#', t.fragment)))
    ensures r == q.(state := r.state, nread := q.nread + |PartText('#', t.fragment)|)
    ensures UrlEnds(r.state) && (t.path != [] ==> !r.state.ReqHost? && !r.state.ReqPort?)
  {
    hide Leads, Bytes, AllStay, Stripped;
    match t.fragment {
      case None =>
        r := q;
        assert s + [] == s && m + [] == m;
      case Some(v) => r := MarkedPartReads(p, s, q, m, '#', ReqFragmentStart, ReqFragment, Fragment, v);
    }
  }

  /** The states in which a URL can end. */
  predicate UrlEnds(s: State) {
    s.ReqHost? || s.ReqPort? || s.ReqPath? || s.ReqQueryStart? || s.ReqQuery? || s.ReqFragmentStart? || s.ReqFragment?
  }

  /** The URL: its parts as they are, and the whole as the URL. */
  lemma TargetReads(p: Parser, t: Target) returns (q: Parser)
    requires p.state == ReqSpaces && TargetOk(t) && p.nread + |TargetText(t)| <= MAX_HEADER_SIZE
    ensures Leads(p, TargetText(t), q, TargetItems(t), Bytes(Url, TargetText(t)))
    ensures q == p.(state := q.state, nread := p.nread + |TargetText(t)|)
    ensures UrlEnds(q.state) && (t.path != [] ==> !q.state.ReqHost? && !q.state.ReqPort?)
  {
    hide Leads, Bytes, TargetOk, AuthorityText, PartText, PartItems, Kinds, Text, UrlEnds;
    var s := AuthorityText(t.authority) + t.path;
    var r := PathReads(p, t);
    r := QueryReads(p, t, s, r, Bytes(Path, t.path));
    q := FragmentReads(p, t, s + PartText('?', t.query), r, Bytes(Path, t.path) + PartItems(Query, '?', t.query));
  }

  /** The space after it. */
  lemma TargetSpace(p: Parser, t: Target) returns (q: Parser)
    requires p.state == ReqSpaces && TargetOk(t) && p.nread + |TargetText(t)| + 1 <= MAX_HEADER_SIZE
    ensures Leads(p, TargetText(t) + [' '], q, TargetItems(t), Bytes(Url, TargetText(t)))
    ensures q == p.(state := ReqHttpStart, nread := p.nread + |TargetText(t)| + 1)
  {
    hide Leads, Bytes, TargetOk, TargetText, TargetItems, Kinds, Text;
    var r := TargetReads(p, t);
    q := ThenPart(p, TargetText(t), r, TargetItems(t), Bytes(Url, TargetText(t)), ' ', ReqHttpStart, []);
    TextIs(ReqHttpStart, [' '] + []);
    NoUrl();
    assert [' '] + [] == [' '] && TargetItems(t) + [] == TargetItems(t) &&
           Bytes(Url, TargetText(t)) + [] == Bytes(Url, TargetText(t));
  }

  /** A line that ends after the URL is HTTP/0.9. */
  lemma OldSteps(p: Parser)
    requires UrlEnds(p.state) && !p.state.ReqHost? && !p.state.ReqPort? && p.nread < MAX_HEADER_SIZE
    ensures Step(p, CR).Next? &&
            Step(p, CR).q == p.(major := 0, minor := 9, state := ReqLineAlmostDone, nread := p.nread + 1) &&
            OnlyMarks(Step(p, CR).acts)
    ensures Step(p, LF).Next? &&
            Step(p, LF).q == p.(major := 0, minor := 9, state := HeaderFieldStart, nread := p.nread + 1) &&
            OnlyMarks(Step(p, LF).acts)
  {
    hide Step, HostMove;
    UrlStepIs(p, CR);
    UrlStepIs(p, LF);
  }

  lemma OldLineEnds(p: Parser, e: Eol) returns (q: Parser)
    requires UrlEnds(p.state) && !p.state.ReqHost? && !p.state.ReqPort? && p.nread + |EolText(e)| <= MAX_HEADER_SIZE
    ensures Leads(p, EolText(e), q, [], [])
    ensures q == p.(state := HeaderFieldStart, major := 0, minor := 9, nread := p.nread + |EolText(e)|)
  {
    hide Leads, Step, MarkedByte, UrlEnds;
    OldSteps(p);
    q := p.(state := HeaderFieldStart, major := 0, minor := 9, nread := p.nread + |EolText(e)|);
    if e.Lf? {
      SilentByte(p, LF, q, Step(p, LF).acts);
      NotMarked(q.state, LF);
    } else {
      var r := p.(major := 0, minor := 9, state := ReqLineAlmostDone, nread := p.nread + 1);
      SilentByte(p, CR, r, Step(p, CR).acts);
      NotMarked(r.state, CR);
      LineFeed(r);
      ThenQuiet(p, [CR], r, [], [], LF, q);
      assert [CR] + [LF] == CRLF;
    }
  }

  lemma NoUrl()
    ensures Url !in Kinds(ReqHttpStart)
  {
  }

  // ---- the version

  lemma ProtocolStep(p: Parser, ch: Byte)
    requires p.state.ReqHttpStart? || p.state.ReqH? || p.state.ReqHT? || p.state.ReqHTT? || p.state.ReqHTTP? ||
             p.state.ReqLineAlmostDone?
    requires p.nread < MAX_HEADER_SIZE
    ensures Step(p, ch) == ProtocolMove(p.(nread := p.nread + 1), ch)
  {
    hide StartMove, ProtocolMove, ResponseMove, VersionMove, HostMove, UrlMove, MethodMove, HeadersDone, FieldStartMove,
         HeaderDone, FieldMove, ValueStartMove, ValueMove, ChunkMove, BodyMove;
  }

  lemma VersionStep(p: Parser, ch: Byte)
    requires p.state.ReqFirstMajor? || p.state.ReqMajor? || p.state.ReqFirstMinor? || p.state.ReqMinor?
    requires p.nread < MAX_HEADER_SIZE
    ensures Step(p, ch) == VersionMove(p.(nread := p.nread + 1), ch)
  {
    hide StartMove, ProtocolMove, ResponseMove, VersionMove, HostMove, UrlMove, MethodMove, HeadersDone, FieldStartMove,
         HeaderDone, FieldMove, ValueStartMove, ValueMove, ChunkMove, BodyMove;
  }

  lemma ThenQuiet(p: Parser, s: seq<Byte>, q: Parser, m: seq<Item>, u: seq<Item>, ch: Byte, r: Parser)
    requires Leads(p, s, q, m, u) && Step(q, ch) == Next(r, []) && Kinds(r.state) == {}
    ensures Leads(p, s + [ch], r, m, u)
  {
    hide Leads, Step, Kinds;
    QuietByte(q, ch, r);
    LeadsOn(p, s, q, m, u, [ch], r, [], []);
    assert m + [] == m && u + [] == u;
  }

  const HTTP: seq<Byte> := ['H', 'T', 'T', 'P', '/']

  function HttpState(k: nat): State {
    match k case 0 => ReqHttpStart case 1 => ReqH case 2 => ReqHT case 3 => ReqHTT case 4 => ReqHTTP
      case _ => ReqFirstMajor
  }

  lemma HttpLetter(p: Parser, k: nat)
    requires k < 5 && p.state == HttpState(k) && p.nread < MAX_HEADER_SIZE
    ensures Step(p, HTTP[k]) == Next(p.(state := HttpState(k + 1), nread := p.nread + 1), []) &&
            Kinds(HttpState(k + 1)) == {}
  {
    hide Step;
    ProtocolStep(p, HTTP[k]);
  }

  lemma LineFeed(p: Parser)
    requires p.state == ReqLineAlmostDone && p.nread < MAX_HEADER_SIZE
    ensures Step(p, LF) == Next(p.(state := HeaderFieldStart, nread := p.nread + 1), []) &&
            Kinds(HeaderFieldStart) == {}
  {
    hide Step;
    ProtocolStep(p, LF);
  }

  lemma {:induction false} HttpSteps(p: Parser, k: nat)
    requires p.state == ReqHttpStart && k <= 5 && p.nread + k <= MAX_HEADER_SIZE
    ensures Leads(p, HTTP[..k], p.(state := HttpState(k), nread := p.nread + k), [], [])
  {
    hide Leads, Step, Kinds;
    if k == 0 {
      LeadsNowhere(p);
    } else {
      HttpSteps(p, k - 1);
      var r := p.(state := HttpState(k - 1), nread := p.nread + (k - 1));
      HttpLetter(r, k - 1);
      HttpLength();
      assert HTTP[..k] == HTTP[..k - 1] + [HTTP[k - 1]];
      ThenQuiet(p, HTTP[..k - 1], r, [], [], HTTP[k - 1], p.(state := HttpState(k), nread := p.nread + k));
    }
  }

  lemma HttpLength()
    ensures |HTTP| == 5 && HTTP[..5] == HTTP
  {
  }

  /** One digit of a version number. */
  lemma DigitStep(p: Parser, ch: Byte)
    requires p.nread < MAX_HEADER_SIZE && Digit(ch)
    ensures p.state == ReqFirstMajor && ch != '0' ==>
              Step(p, ch) == Next(p.(state := ReqMajor, major := DigitValue(ch), nread := p.nread + 1), [])
    ensures p.state == ReqFirstMinor ==>
              Step(p, ch) == Next(p.(state := ReqMinor, minor := DigitValue(ch), nread := p.nread + 1), [])
    ensures p.state == ReqMajor && p.major * 10 + DigitValue(ch) <= 999 ==>
              Step(p, ch) == Next(p.(major := p.major * 10 + DigitValue(ch), nread := p.nread + 1), [])
    ensures p.state == ReqMinor && p.minor * 10 + DigitValue(ch) <= 999 ==>
              Step(p, ch) == Next(p.(minor := p.minor * 10 + DigitValue(ch), nread := p.nread + 1), [])
    ensures Kinds(ReqMajor) == Kinds(ReqMinor) == {}
  {
    hide Step;
    if p.state.ReqFirstMajor? || p.state.ReqMajor? || p.state.ReqFirstMinor? || p.state.ReqMinor? {
      VersionStep(p, ch);
    }
  }

  predicate DigitsOk(v: seq<Byte>) { v != [] && (forall i | 0 <= i < |v| :: Digit(v[i])) && Number(v) <= 999 }

  lemma DigitsPrefix(v: seq<Byte>)
    requires DigitsOk(v)
    ensures v != [] && Digit(v[|v| - 1]) && Number(v) <= 999
    ensures |v| > 1 ==> DigitsOk(v[..|v| - 1]) && Number(v) == Number(v[..|v| - 1]) * 10 + DigitValue(v[|v| - 1])
    ensures |v| == 1 ==> Number(v) == DigitValue(v[0])
  {
    if |v| > 1 { NumberMono(v, |v| - 1); } else { NumberOne(v[0]); assert v == [v[0]]; }
  }

  lemma {:induction false} MajorReads(p: Parser, v: seq<Byte>)
    requires p.state == ReqFirstMajor && DigitsOk(v) && v[0] != '0' && p.nread + |v| <= MAX_HEADER_SIZE
    ensures Leads(p, v, p.(state := ReqMajor, major := Number(v), nread := p.nread + |v|), [], [])
  {
    hide Leads, Step, Number, DigitsOk, Kinds;
    DigitsPrefix(v);
    var init, ch := v[..|v| - 1], v[|v| - 1];
    assert v == init + [ch];
    if |v| == 1 {
      assert v == [ch];
      DigitStep(p, ch);
      QuietByte(p, ch, p.(state := ReqMajor, major := Number(v), nread := p.nread + 1));
    } else {
      MajorReads(p, init);
      var r := p.(state := ReqMajor, major := Number(init), nread := p.nread + |init|);
      DigitStep(r, ch);
      ThenQuiet(p, init, r, [], [], ch, p.(state := ReqMajor, major := Number(v), nread := p.nread + |v|));
    }
  }

  lemma {:induction false} MinorReads(p: Parser, v: seq<Byte>)
    requires p.state == ReqFirstMinor && DigitsOk(v) && p.nread + |v| <= MAX_HEADER_SIZE
    ensures Leads(p, v, p.(state := ReqMinor, minor := Number(v), nread := p.nread + |v|), [], [])
  {
    hide Leads, Step, Number, DigitsOk, Kinds;
    DigitsPrefix(v);
    var init, ch := v[..|v| - 1], v[|v| - 1];
    assert v == init + [ch];
    if |v| == 1 {
      assert v == [ch];
      DigitStep(p, ch);
      QuietByte(p, ch, p.(state := ReqMinor, minor := Number(v), nread := p.nread + 1));
    } else {
      MinorReads(p, init);
      var r := p.(state := ReqMinor, minor := Number(init), nread := p.nread + |init|);
      DigitStep(r, ch);
      ThenQuiet(p, init, r, [], [], ch, p.(state := ReqMinor, minor := Number(v), nread := p.nread + |v|));
    }
  }

  lemma QuietThen(p: Parser, a: seq<Byte>, q: Parser, m: seq<Item>, u: seq<Item>, b: seq<Byte>, r: Parser)
    requires Leads(p, a, q, m, u) && Leads(q, b, r, [], [])
    ensures Leads(p, a + b, r, m, u)
  {
    hide Leads;
    LeadsOn(p, a, q, m, u, b, r, [], []);
    assert m + [] == m && u + [] == u;
  }

  /** The protocol version as it is spelled. */
  datatype Version = Version(major: seq<Byte>, minor: seq<Byte>)

  predicate VersionOk(v: Version) { DigitsOk(v.major) && v.major[0] != '0' && DigitsOk(v.minor) }

  function VersionText(v: Version, e: Eol): seq<Byte> { HTTP + (v.major + ['.'] + v.minor) + EolText(e) }

  lemma VersionTurn(p: Parser, ch: Byte, t: State)
    requires p.nread < MAX_HEADER_SIZE
    requires (p.state == ReqMajor && ch == '.' && t == ReqFirstMinor) ||
             (p.state == ReqMinor && ch == CR && t == ReqLineAlmostDone) ||
             (p.state == ReqMinor && ch == LF && t == HeaderFieldStart)
    ensures Step(p, ch) == Next(p.(state := t, nread := p.nread + 1), []) && Kinds(t) == {}
  {
    hide Step;
    VersionStep(p, ch);
  }

  lemma LineEndSteps(p: Parser, e: Eol)
    requires p.state == ReqMinor && p.nread + |EolText(e)| <= MAX_HEADER_SIZE
    ensures Leads(p, EolText(e), p.(state := HeaderFieldStart, nread := p.nread + |EolText(e)|), [], [])
  {
    hide Leads, Step, Kinds;
    if e.Crlf? {
      var r := p.(state := ReqLineAlmostDone, nread := p.nread + 1);
      VersionTurn(p, CR, ReqLineAlmostDone);
      LineFeed(r);
      QuietPair(p, CR, r, LF, p.(state := HeaderFieldStart, nread := p.nread + 2));
    } else {
      VersionTurn(p, LF, HeaderFieldStart);
      QuietByte(p, LF, p.(state := HeaderFieldStart, nread := p.nread + 1));
    }
  }

  lemma NumbersRead(p: Parser, major: seq<Byte>, minor: seq<Byte>) returns (q: Parser)
    requires p.state == ReqFirstMajor && DigitsOk(major) && major[0] != '0' && DigitsOk(minor)
    requires p.nread + |major| + 1 + |minor| <= MAX_HEADER_SIZE
    ensures Leads(p, major + ['.'] + minor, q, [], [])
    ensures q == p.(state := ReqMinor, major := Number(major), minor := Number(minor),
            nread := p.nread + |major| + 1 + |minor|)
  {
    hide Leads, Step, Number, DigitsOk, Kinds;
    DigitsPrefix(major);
    MajorReads(p, major);
    var b := p.(state := ReqMajor, major := Number(major), nread := p.nread + |major|);
    VersionTurn(b, '.', ReqFirstMinor);
    var c := b.(state := ReqFirstMinor, nread := b.nread + 1);
    ThenQuiet(p, major, b, [], [], '.', c);
    MinorReads(c, minor);
    q := c.(state := ReqMinor, minor := Number(minor), nread := c.nread + |minor|);
    QuietThen(p, major + ['.'], c, [], [], minor, q);
  }

  /** The protocol version and the end of the request line. */
  lemma VersionReads(p: Parser, v: Version, e: Eol) returns (q: Parser)
    requires p.state == ReqHttpStart && VersionOk(v) && p.nread + |VersionText(v, e)| <= MAX_HEADER_SIZE
    ensures Leads(p, VersionText(v, e), q, [], [])
    ensures q == p.(state := HeaderFieldStart, major := Number(v.major), minor := Number(v.minor),
            nread := p.nread + |VersionText(v, e)|)
  {
    hide Leads, Step, Number, DigitsOk, Kinds, EolText;
    DigitsPrefix(v.major);
    HttpSteps(p, 5);
    HttpLength();
    var a := p.(state := ReqFirstMajor, nread := p.nread + 5);
    var numbers := v.major + ['.'] + v.minor;
    var d := NumbersRead(a, v.major, v.minor);
    QuietThen(p, HTTP, a, [], [], numbers, d);
    LineEndSteps(d, e);
    q := d.(state := HeaderFieldStart, nread := d.nread + |EolText(e)|);
    QuietThen(p, HTTP + numbers, d, [], [], EolText(e), q);
  }
}
