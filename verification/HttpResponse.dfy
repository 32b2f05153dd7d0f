/** Responses: what the parser takes for a status line, and what it says of a whole response. */
module HttpResponse {
  import opened Common
  import opened HttpParser
  import opened HttpRun
  import opened HttpMarks
  import opened HttpExecute
  import opened HttpReads
  import opened HttpChunked
  import opened HttpHeaders
  import opened HttpLine
  import opened HttpRequest
  import opened HttpLineExact

  // ---- the status line

  datatype StatusLine = StatusLine(version: Version, gap: nat, code: seq<Byte>, reason: Option<seq<Byte>>, end: Eol)

  predicate ReasonOk(v: seq<Byte>) { forall i | 0 <= i < |v| :: TextByte(v[i]) }

  predicate StatusOk(l: StatusLine) {
    VersionOk(l.version) && DigitsOk(l.code) && (l.reason.Some? ==> ReasonOk(l.reason.value))
  }

  function VersionPart(v: Version): seq<Byte> { HTTP + v.major + ['.'] + v.minor }

  function CodePart(v: Version, gap: nat, code: seq<Byte>): seq<Byte> { VersionPart(v) + [' '] + Spaces(gap) + code }

  function StatusBody(l: StatusLine): seq<Byte> {
    CodePart(l.version, l.gap, l.code) + match l.reason case None => [] case Some(v) => [' '] + v
  }

  function StatusText(l: StatusLine): seq<Byte> { StatusBody(l) + EolText(l.end) }

  /** How far a status line has been read. */
  datatype Status =
    | Letters(k: nat)
    | InMajor(major: seq<Byte>)
    | AtDot(major: seq<Byte>)
    | InMinor(major: seq<Byte>, minor: seq<Byte>)
    | InGap(version: Version, gap: nat)
    | InCode(version: Version, gap: nat, code: seq<Byte>)
    | InReason(version: Version, gap: nat, code: seq<Byte>, reason: seq<Byte>)
    | AtReturn(l: StatusLine)
    | Complete(l: StatusLine)

  function TextOf(g: Status): seq<Byte> {
    match g
    case Letters(k) => HTTP[..if k <= 5 then k else 5]
    case InMajor(x) => HTTP + x
    case AtDot(x) => HTTP + x + ['.']
    case InMinor(x, y) => HTTP + x + ['.'] + y
    case InGap(v, n) => VersionPart(v) + [' '] + Spaces(n)
    case InCode(v, n, c) => CodePart(v, n, c)
    case InReason(v, n, c, r) => CodePart(v, n, c) + ([' '] + r)
    case AtReturn(l) => StatusBody(l) + [CR]
    case Complete(l) => StatusText(l)
  }

  predicate IsOk(g: Status) {
    match g
    case Letters(k) => 1 <= k <= 5
    case InMajor(x) => MajorOk(x)
    case AtDot(x) => MajorOk(x)
    case InMinor(x, y) => MajorOk(x) && DigitsOk(y)
    case InGap(v, _) => VersionOk(v)
    case InCode(v, _, c) => VersionOk(v) && DigitsOk(c)
    case InReason(v, _, c, r) => VersionOk(v) && DigitsOk(c) && ReasonOk(r)
    case AtReturn(l) => StatusOk(l) && l.end == Crlf
    case Complete(l) => StatusOk(l)
  }

  function LetterState(k: nat): State {
    match k case 1 => ResH case 2 => ResHT case 3 => ResHTT case 4 => ResHTTP case _ => ResFirstMajor
  }

  function Versioned(p: Parser, v: Version): Parser { p.(major := Number(v.major), minor := Number(v.minor)) }

  function Coded(p: Parser, v: Version, code: seq<Byte>): Parser { Versioned(p, v).(status := Number(code)) }

  /** The parser at a point of the status line; `p` has counted the bytes. */
  function Standing(p: Parser, g: Status): Parser {
    match g
    case Letters(k) => p.(state := LetterState(k))
    case InMajor(x) => p.(state := ResMajor, major := Number(x))
    case AtDot(x) => p.(state := ResFirstMinor, major := Number(x))
    case InMinor(x, y) => Versioned(p, Version(x, y)).(state := ResMinor)
    case InGap(v, _) => Versioned(p, v).(state := ResFirstStatus)
    case InCode(v, _, c) => Coded(p, v, c).(state := ResStatusCode)
    case InReason(v, _, c, _) => Coded(p, v, c).(state := ResStatus)
    case AtReturn(l) => Coded(p, l.version, l.code).(state := ResLineAlmostDone)
    case Complete(l) => Coded(p, l.version, l.code).(state := HeaderFieldStart)
  }

  predicate Fits(v: seq<Byte>, ch: Byte) { Digit(ch) && Number(v + [ch]) <= 999 }

  /** What a status line can go on with. */
  function Forward(g: Status, ch: Byte): Option<Status> {
    match g
    case Letters(k) =>
      if k < 5 then if ch == HTTP[k] then Some(Letters(k + 1)) else None
      else if '1' <= ch <= '9' then Some(InMajor([ch])) else None
    case InMajor(x) => if ch == '.' then Some(AtDot(x)) else if Fits(x, ch) then Some(InMajor(x + [ch])) else None
    case AtDot(x) => if Digit(ch) then Some(InMinor(x, [ch])) else None
    case InMinor(x, y) =>
      if ch == ' ' then Some(InGap(Version(x, y), 0)) else if Fits(y, ch) then Some(InMinor(x, y + [ch])) else None
    case InGap(v, n) =>
      if ch == ' ' then Some(InGap(v, n + 1)) else if Digit(ch) then Some(InCode(v, n, [ch])) else None
    case InCode(v, n, c) =>
      if ch == ' ' then Some(InReason(v, n, c, []))
      else if ch == CR then Some(AtReturn(StatusLine(v, n, c, None, Crlf)))
      else if ch == LF then Some(Complete(StatusLine(v, n, c, None, Lf)))
      else if Fits(c, ch) then Some(InCode(v, n, c + [ch])) else None
    case InReason(v, n, c, r) =>
      if ch == CR then Some(AtReturn(StatusLine(v, n, c, Some(r), Crlf)))
      else if ch == LF then Some(Complete(StatusLine(v, n, c, Some(r), Lf)))
      else Some(InReason(v, n, c, r + [ch]))
    case AtReturn(l) => if ch == LF then Some(Complete(l)) else None
    case Complete(_) => None
  }

  // ---- one byte further

  lemma VersionGrows(g: Status, ch: Byte)
    requires IsOk(g) && Forward(g, ch).Some? && (g.Letters? || g.InMajor? || g.AtDot? || g.InMinor?)
    ensures IsOk(Forward(g, ch).value) && TextOf(Forward(g, ch).value) == TextOf(g) + [ch]
  {
    hide Number, DigitsOk, Spaces;
    SpacesNext(0);
    if Digit(ch) { DigitsNext(if g.InMajor? then g.major else if g.InMinor? then g.minor else [], ch); }
    match g {
      case Letters(k) => if k < 5 { HttpNext(k); } else { HttpNext(0); }
      case InMajor(x) =>
      case AtDot(x) =>
      case InMinor(x, y) => MajorIs(x);
    }
  }

  lemma CodeGrows(g: Status, ch: Byte)
    requires IsOk(g) && Forward(g, ch).Some? && (g.InGap? || g.InCode? || g.InReason? || g.AtReturn?)
    ensures IsOk(Forward(g, ch).value) && TextOf(Forward(g, ch).value) == TextOf(g) + [ch]
  {
    hide Number, DigitsOk, VersionOk, VersionPart, Spaces;
    if Digit(ch) { DigitsNext(if g.InCode? then g.code else [], ch); }
    match g {
      case InGap(v, n) =>
        SpacesNext(n);
        assert VersionPart(v) + [' '] + (Spaces(n) + [' ']) == VersionPart(v) + [' '] + Spaces(n) + [' '];
      case InCode(v, n, c) =>
        assert [' '] + [] == [' '];
        assert VersionPart(v) + [' '] + Spaces(n) + (c + [ch]) == CodePart(v, n, c) + [ch];
        assert CodePart(v, n, c) + [] == CodePart(v, n, c);
      case InReason(v, n, c, r) =>
        assert CodePart(v, n, c) + ([' '] + (r + [ch])) == CodePart(v, n, c) + ([' '] + r) + [ch];
      case AtReturn(l) => assert StatusBody(l) + [CR] + [LF] == StatusBody(l) + CRLF;
    }
  }

  lemma Grown(g: Status, ch: Byte)
    requires IsOk(g) && Forward(g, ch).Some?
    ensures IsOk(Forward(g, ch).value) && TextOf(Forward(g, ch).value) == TextOf(g) + [ch]
  {
    hide IsOk, TextOf;
    if g.Letters? || g.InMajor? || g.AtDot? || g.InMinor? { VersionGrows(g, ch); } else { CodeGrows(g, ch); }
  }

  lemma ResponseStep(p: Parser, ch: Byte)
    requires p.nread < MAX_HEADER_SIZE
    ensures p.state.ResH? || p.state.ResHT? || p.state.ResHTT? || p.state.ResHTTP? || p.state.ResFirstStatus? ||
            p.state.ResStatusCode? || p.state.ResStatus? || p.state.ResLineAlmostDone? ==>
              Step(p, ch) == ResponseMove(p.(nread := p.nread + 1), ch)
    ensures p.state.ResFirstMajor? || p.state.ResMajor? || p.state.ResFirstMinor? || p.state.ResMinor? ==>
              Step(p, ch) == VersionMove(p.(nread := p.nread + 1), ch)
  {
    hide StartMove, ProtocolMove, ResponseMove, VersionMove, HostMove, UrlMove, MethodMove, HeadersDone, FieldStartMove,
         HeaderDone, FieldMove, ValueStartMove, ValueMove, ChunkMove, BodyMove;
  }

  /** The parser goes on as `Forward` says, without a word, or refuses the byte. */
  predicate Obeys(p: Parser, g: Status, ch: Byte) {
    var out := Step(Standing(p, g), ch);
    match Forward(g, ch)
    case Some(h) => out == Next(Standing(p.(nread := p.nread + 1), h), []) && Kinds(out.q.state) == {}
    case None => out.Fail?
  }

  lemma VersionObeys(p: Parser, g: Status, ch: Byte)
    requires IsOk(g) && p.nread < MAX_HEADER_SIZE && (g.Letters? || g.InMajor? || g.AtDot? || g.InMinor?)
    ensures Obeys(p, g, ch)
  {
    hide Step, Number, DigitsOk;
    ResponseStep(Standing(p, g), ch);
    if Digit(ch) { DigitsNext(if g.InMajor? then g.major else if g.InMinor? then g.minor else [], ch); }
  }

  lemma CodeObeys(p: Parser, g: Status, ch: Byte)
    requires IsOk(g) && p.nread < MAX_HEADER_SIZE && (g.InGap? || g.InCode?)
    ensures Obeys(p, g, ch)
  {
    hide Step, Number, DigitsOk, VersionOk;
    ResponseStep(Standing(p, g), ch);
    if Digit(ch) { DigitsNext(if g.InCode? then g.code else [], ch); }
  }

  lemma ReasonObeys(p: Parser, g: Status, ch: Byte)
    requires IsOk(g) && p.nread < MAX_HEADER_SIZE && (g.InReason? || g.AtReturn?)
    ensures Obeys(p, g, ch)
  {
    hide Step, Number, DigitsOk, VersionOk;
    ResponseStep(Standing(p, g), ch);
  }

  lemma ByteObeys(p: Parser, g: Status, ch: Byte)
    requires IsOk(g) && !g.Complete? && p.nread < MAX_HEADER_SIZE
    ensures Obeys(p, g, ch)
  {
    hide IsOk, Obeys;
    if g.Letters? || g.InMajor? || g.AtDot? || g.InMinor? { VersionObeys(p, g, ch); }
    else if g.InGap? || g.InCode? { CodeObeys(p, g, ch); }
    else { ReasonObeys(p, g, ch); }
  }

  // ---- runs over a status line

  const BEGIN: seq<Item> := [Event(MessageBegin)]

  lemma FirstStep(p: Parser, ch: Byte)
    requires p.state == StartRes && p.nread < MAX_HEADER_SIZE && TextByte(ch)
    ensures Step(p, ch) ==
            if ch == 'H' then Next(Begun(p).(state := ResH, nread := p.nread + 1), [Raise(MessageBegin)])
            else Fail([Raise(MessageBegin)])
  {
    hide ProtocolMove, ResponseMove, VersionMove, HostMove, UrlMove, MethodMove, HeadersDone, FieldStartMove,
         HeaderDone, FieldMove, ValueStartMove, ValueMove, ChunkMove, BodyMove, StartMethod;
  }

  lemma FirstLetterIs()
    ensures IsOk(Letters(1)) && TextOf(Letters(1)) == ['H']
  {
  }

  /** How a run over the beginning of a response stands. */
  ghost predicate StatusFate(p: Parser, s: seq<Byte>, o: Option<Status>) {
    match o
    case Some(g) =>
      && IsOk(g) && TextOf(g) == s && (g.Complete? <==> s != [] && s[|s| - 1] == LF)
      && Leads(p, s, Standing(Begun(p).(nread := p.nread + |s|), g), BEGIN, BEGIN)
    case None => Run(p, s, |s|).Stopped? && Run(p, s, |s|).out.Fail?
  }

  lemma FirstFate(p: Parser, ch: Byte)
    requires p.state == StartRes && p.nread < MAX_HEADER_SIZE && TextByte(ch)
    ensures StatusFate(p, [ch], if ch == 'H' then Some(Letters(1)) else None)
  {
    hide Step, Leads, Kinds;
    FirstStep(p, ch);
    FirstLetterIs();
    if ch == 'H' {
      LetterKind();
      NoticeByte(p, ch, Begun(p).(state := ResH, nread := p.nread + 1), MessageBegin);
    } else {
      assert Run(p, [ch], 0) == Reached(p);
    }
  }

  lemma LetterKind()
    ensures Kinds(ResH) == {}
  {
  }

  lemma FeedCompletes(g: Status, ch: Byte)
    requires Forward(g, ch).Some?
    ensures Forward(g, ch).value.Complete? <==> ch == LF
  {
    hide Number;
  }

  lemma NextFate(p: Parser, s: seq<Byte>, g: Status, ch: Byte)
    requires StatusFate(p, s, Some(g)) && !g.Complete? && p.nread + |s| < MAX_HEADER_SIZE
    ensures StatusFate(p, s + [ch], Forward(g, ch))
  {
    hide Step, Leads, IsOk, TextOf, Forward, Standing, Kinds, Run;
    var q := Begun(p).(nread := p.nread + |s|);
    ByteObeys(q, g, ch);
    if Forward(g, ch).Some? {
      Grown(g, ch);
      FeedCompletes(g, ch);
      ThenQuiet(p, s, Standing(q, g), BEGIN, BEGIN, ch, Standing(q.(nread := q.nread + 1), Forward(g, ch).value));
    } else {
      LeadsRuns(p, s, Standing(q, g), BEGIN, BEGIN);
      Halts(p, s, Standing(q, g), ch);
    }
  }

  lemma Halts(p: Parser, s: seq<Byte>, q: Parser, ch: Byte)
    requires Run(p, s, |s|) == Reached(q) && Step(q, ch).Fail?
    ensures Run(p, s + [ch], |s| + 1).Stopped? && Run(p, s + [ch], |s| + 1).out.Fail?
  {
    hide Step;
    RunPrefix(p, s, [ch], |s|, false);
    assert (s + [ch])[|s|] == ch;
  }

  lemma StaysHalted(p: Parser, s: seq<Byte>, ch: Byte)
    requires StatusFate(p, s, None)
    ensures StatusFate(p, s + [ch], None)
  {
    hide Step;
    RunPrefix(p, s, [ch], |s|, false);
  }

  lemma {:induction false} RunStatus(p: Parser, s: seq<Byte>) returns (o: Option<Status>)
    requires p.state == StartRes && p.nread + |s| <= MAX_HEADER_SIZE
    requires s != [] && TextByte(s[0]) && forall i | 0 <= i < |s| - 1 :: s[i] != LF
    ensures StatusFate(p, s, o)
    decreases |s|
  {
    hide StatusFate, Forward, TextByte;
    var init, ch := s[..|s| - 1], s[|s| - 1];
    assert s == init + [ch];
    if init == [] {
      o := if ch == 'H' then Some(Letters(1)) else None;
      FirstFate(p, ch);
    } else {
      o := RunStatus(p, init);
      if o.Some? {
        Incomplete(p, init, o.value);
        NextFate(p, init, o.value, ch);
        o := Forward(o.value, ch);
      } else {
        StaysHalted(p, init, ch);
      }
    }
  }

  lemma Incomplete(p: Parser, s: seq<Byte>, g: Status)
    requires StatusFate(p, s, Some(g)) && (s == [] || s[|s| - 1] != LF)
    ensures !g.Complete?
  {
  }

  // ---- every status line is read

  function Shorter(v: seq<Byte>): seq<Byte> { if v == [] then [] else v[..|v| - 1] }

  /** Where the parser stands one byte before. */
  function Before(g: Status): Status {
    match g
    case Letters(k) => Letters(if k > 1 then k - 1 else 1)
    case InMajor(x) => if |x| == 1 then Letters(5) else InMajor(Shorter(x))
    case AtDot(x) => InMajor(x)
    case InMinor(x, y) => if |y| == 1 then AtDot(x) else InMinor(x, Shorter(y))
    case InGap(v, n) => if n == 0 then InMinor(v.major, v.minor) else InGap(v, n - 1)
    case InCode(v, n, c) => if |c| == 1 then InGap(v, n) else InCode(v, n, Shorter(c))
    case InReason(v, n, c, r) => if r == [] then InCode(v, n, c) else InReason(v, n, c, Shorter(r))
    case AtReturn(l) => Ended(l)
    case Complete(l) => if l.end == Crlf then AtReturn(l) else Ended(l)
  }

  function Ended(l: StatusLine): Status {
    match l.reason
    case None => InCode(l.version, l.gap, l.code)
    case Some(r) => InReason(l.version, l.gap, l.code, r)
  }

  function LastByte(g: Status): Byte {
    match g
    case Letters(k) => HTTP[if 1 <= k <= 5 then k - 1 else 0]
    case InMajor(x) => if x == [] then ' ' else x[|x| - 1]
    case AtDot(_) => '.'
    case InMinor(_, y) => if y == [] then ' ' else y[|y| - 1]
    case InGap(_, _) => ' '
    case InCode(_, _, c) => if c == [] then ' ' else c[|c| - 1]
    case InReason(_, _, _, r) => if r == [] then ' ' else r[|r| - 1]
    case AtReturn(_) => CR
    case Complete(_) => LF
  }

  lemma DigitsShorter(v: seq<Byte>)
    requires DigitsOk(v)
    ensures Digit(v[|v| - 1]) && v == Shorter(v) + [v[|v| - 1]]
    ensures |v| > 1 ==> DigitsOk(Shorter(v)) && Fits(Shorter(v), v[|v| - 1])
    ensures |v| > 1 && MajorOk(v) ==> MajorOk(Shorter(v))
    ensures |v| == 1 ==> v == [v[0]]
  {
    DigitsPrefix(v);
  }

  lemma VersionBefore(g: Status)
    requires IsOk(g) && g != Letters(1) && (g.Letters? || g.InMajor? || g.AtDot? || g.InMinor?)
    ensures IsOk(Before(g)) && Forward(Before(g), LastByte(g)) == Some(g)
  {
    hide Fits, DigitsOk, Shorter;
    match g {
      case Letters(k) =>
      case InMajor(x) =>
        MajorIs(x);
        DigitsShorter(x);
      case AtDot(x) =>
      case InMinor(x, y) => DigitsShorter(y);
    }
  }

  lemma CodeBefore(g: Status)
    requires IsOk(g) && (g.InGap? || g.InCode? || g.InReason? || g.AtReturn? || g.Complete?)
    ensures IsOk(Before(g)) && Forward(Before(g), LastByte(g)) == Some(g)
  {
    hide Fits, DigitsOk;
    match g {
      case InGap(v, n) => MajorIs(v.major);
      case InCode(v, n, c) => DigitsShorter(c);
      case InReason(v, n, c, r) =>
        if r != [] {
          assert r == Shorter(r) + [r[|r| - 1]];
          assert TextByte(r[|r| - 1]);
        }
      case AtReturn(l) =>
      case Complete(l) =>
    }
  }

  lemma BeforeIs(g: Status)
    requires IsOk(g) && g != Letters(1)
    ensures IsOk(Before(g)) && Forward(Before(g), LastByte(g)) == Some(g)
    ensures TextOf(g) == TextOf(Before(g)) + [LastByte(g)]
  {
    hide IsOk, TextOf, Before, LastByte, Forward;
    if g.Letters? || g.InMajor? || g.AtDot? || g.InMinor? { VersionBefore(g); } else { CodeBefore(g); }
    Grown(Before(g), LastByte(g));
  }

  lemma {:induction false} EveryStatus(p: Parser, g: Status)
    requires p.state == StartRes && IsOk(g) && p.nread + |TextOf(g)| <= MAX_HEADER_SIZE
    ensures Leads(p, TextOf(g), Standing(Begun(p).(nread := p.nread + |TextOf(g)|), g), BEGIN, BEGIN)
    decreases |TextOf(g)|
  {
    hide IsOk, TextOf, Before, LastByte, Forward, Leads, Standing, Step, Kinds, Obeys;
    if g == Letters(1) {
      FirstLetterIs();
      FirstFate(p, 'H');
    } else {
      var b, ch := Before(g), LastByte(g);
      BeforeIs(g);
      EveryStatus(p, b);
      var q := Begun(p).(nread := p.nread + |TextOf(b)|);
      NotComplete(b, ch);
      ByteObeys(q, b, ch);
      Obeyed(q, b, ch, g);
      ThenQuiet(p, TextOf(b), Standing(q, b), BEGIN, BEGIN, ch, Standing(q.(nread := q.nread + 1), g));
    }
  }

  lemma NotComplete(g: Status, ch: Byte)
    requires Forward(g, ch).Some?
    ensures !g.Complete?
  {
  }

  lemma Obeyed(p: Parser, g: Status, ch: Byte, h: Status)
    requires Obeys(p, g, ch) && Forward(g, ch) == Some(h)
    ensures Step(Standing(p, g), ch) == Next(Standing(p.(nread := p.nread + 1), h), [])
    ensures Kinds(Standing(p.(nread := p.nread + 1), h).state) == {}
  {
    hide Step, Standing, Kinds, Forward;
  }

  /** A status line begins a message and gives version and status. */
  lemma StatusReads(p: Parser, l: StatusLine)
    requires p.state == StartRes && StatusOk(l) && p.nread + |StatusText(l)| <= MAX_HEADER_SIZE
    ensures Leads(p, StatusText(l), Coded(Begun(p), l.version, l.code).(state := HeaderFieldStart,
                  nread := p.nread + |StatusText(l)|), BEGIN, BEGIN)
  {
    hide Leads, StatusOk, StatusText;
    EveryStatus(p, Complete(l));
  }

  lemma CompleteFate(p: Parser, s: seq<Byte>, g: Status)
    requires StatusFate(p, s, Some(g)) && s != [] && s[|s| - 1] == LF
    ensures g.Complete? && StatusOk(g.l) && StatusText(g.l) == s
    ensures Run(p, s, |s|).Reached? && Run(p, s, |s|).q.state == HeaderFieldStart
  {
    hide StatusOk, StatusText, Run, Leads, Coded;
    LeadsRuns(p, s, Standing(Begun(p).(nread := p.nread + |s|), g), BEGIN, BEGIN);
  }

  lemma StatusRuns(p: Parser, l: StatusLine)
    requires p.state == StartRes && StatusOk(l) && p.nread + |StatusText(l)| <= MAX_HEADER_SIZE
    ensures Run(p, StatusText(l), |StatusText(l)|).Reached?
  {
    hide StatusOk, StatusText, Run, Leads, Coded;
    StatusReads(p, l);
    LeadsRuns(p, StatusText(l), Coded(Begun(p), l.version, l.code).(state := HeaderFieldStart,
              nread := p.nread + |StatusText(l)|), BEGIN, BEGIN);
  }

  /** The parser gets past the first line of a response exactly if it is a status line, and refuses every
      other. */
  lemma StatusExactly(p: Parser, s: seq<Byte>)
    requires p.state == StartRes && IsLine(s) && TextByte(s[0]) && p.nread + |s| <= MAX_HEADER_SIZE
    ensures Run(p, s, |s|).Reached? <==> exists l: StatusLine :: StatusOk(l) && StatusText(l) == s
    ensures match Run(p, s, |s|) case Reached(q) => q.state == HeaderFieldStart case Stopped(_, out) => out.Fail?
  {
    hide StatusOk, StatusText, Run, TextByte, Leads, IsOk, TextOf, Standing;
    var o := RunStatus(p, s);
    if o.Some? { CompleteFate(p, s, o.value); }
    forall l: StatusLine | StatusOk(l) && StatusText(l) == s ensures Run(p, s, |s|).Reached? { StatusRuns(p, l); }
  }

  // ---- whole responses

  /** A body as in a request, or all that comes until the connection is closed. */
  datatype Body = Framed(content: Content) | UntilClose(data: seq<Byte>)

  datatype Reply = Reply(line: StatusLine, headers: seq<Header>, headEnd: Eol, body: Body)

  /** The body is sent as the headers announce it; a response that announces none has one until the
      connection is closed, unless it is to be kept. */
  predicate BodyOk(b: Body, flags: Flags, length: int) {
    match b
    case Framed(c) => ContentOk(c, flags, length) && (c.Nothing? ==> length == 0 || flags.keepAlive)
    case UntilClose(_) => !flags.chunked && length < 0 && !flags.keepAlive
  }

  predicate ReplyHeadOk(r: Reply) { StatusOk(r.line) && forall i | 0 <= i < |r.headers| :: HeaderOk(r.headers[i]) }

  predicate ReplyOk(r: Reply) {
    ReplyHeadOk(r) && !FlagsAll(r.headers).upgrade && BodyOk(r.body, FlagsAll(r.headers), LengthAll(r.headers))
  }

  function ReplyHead(r: Reply): seq<Byte> { StatusText(r.line) + EncodeHeaders(r.headers) + EolText(r.headEnd) }

  function BodyText(b: Body): seq<Byte> { match b case Framed(c) => ContentText(c) case UntilClose(data) => data }

  function ReplyText(r: Reply): seq<Byte> { ReplyHead(r) + BodyText(r.body) }

  /** What is said after the head. */
  function BodySays(b: Body): seq<Item> {
    match b case Framed(c) => ContentItems(c) case UntilClose(data) => Bytes(HttpParser.Body, data)
  }

  function BodyUrl(b: Body): seq<Item> { match b case Framed(c) => ContentUrl(c) case UntilClose(_) => [] }

  predicate NoBody(b: Body) { b.Framed? && b.content.Nothing? }

  /** Everything that a response consists of, in its order. */
  function ReplySays(r: Reply): seq<Item> {
    BEGIN + HeaderItems(r.headers) + HeadNotices(NoBody(r.body)) + BodySays(r.body)
  }

  function ReplyUrl(r: Reply): seq<Item> { BEGIN + HeadNotices(NoBody(r.body)) + BodyUrl(r.body) }

  /** What the empty line leads to. */
  function AfterReplyHead(p: Parser): Parser {
    var q := p.(nread := 0);
    if p.flags.chunked then q.(state := ChunkSizeStart)
    else if p.length > 0 then q.(state := BodyIdentity)
    else if p.length == 0 || p.flags.keepAlive then q.(state := NewMessage(q))
    else q.(state := BodyIdentityEof)
  }

  lemma ReplyDone(p: Parser, b: Body)
    requires p.kind == Response && !p.upgraded && !p.flags.upgrade && !p.flags.trailing && p.verb != CONNECT &&
             p.length >= -1 && BodyOk(b, p.flags, p.length)
    ensures HeadersDone(p, LF) ==
            Next(AfterReplyHead(p), if NoBody(b) then [Raise(HeadersComplete), Raise(MessageComplete)]
              else [Raise(HeadersComplete)])
    ensures Kinds(AfterReplyHead(p).state) == {}
  {
  }

  /** Status line, headers and empty line. */
  lemma ReplyHeadLeads(p: Parser, r: Reply) returns (q: Parser)
    requires p.state == StartRes && p.kind == Response && !p.upgraded && p.verb != CONNECT
    requires ReplyOk(r) && p.nread + |ReplyHead(r)| <= MAX_HEADER_SIZE
    ensures Leads(p, ReplyHead(r), q, BEGIN + HeaderItems(r.headers) + HeadNotices(NoBody(r.body)),
                  BEGIN + HeadNotices(NoBody(r.body)))
    ensures q == AfterReplyHead(Coded(p, r.line.version, r.line.code).(flags := FlagsAll(r.headers),
                                length := LengthAll(r.headers), index := q.index, hs := q.hs))
  {
    hide Leads, StatusOk, StatusText, HeaderOk, HeaderItems, EncodeHeaders, FlagsFrom, LengthFrom, EolText, BodyOk,
         HeadersDone, Kinds, NoBody, Number;
    StatusReads(p, r.line);
    var a := Coded(Begun(p), r.line.version, r.line.code).(state := HeaderFieldStart,
      nread := p.nread + |StatusText(r.line)|);
    var b := HeadersRead(a, r.headers);
    NeverTrailing(r.headers);
    LeadsOn(p, StatusText(r.line), a, BEGIN, BEGIN, EncodeHeaders(r.headers), b, HeaderItems(r.headers), []);
    assert BEGIN + [] == BEGIN;
    var c := b.(state := HeadersAlmostDone, nread := b.nread + |EolText(r.headEnd)|);
    ReplyDone(c, r.body);
    q := AfterReplyHead(c);
    BlankLeads(b, r.headEnd, q, NoBody(r.body));
    LeadsOn(p, StatusText(r.line) + EncodeHeaders(r.headers), b, BEGIN + HeaderItems(r.headers), BEGIN,
            EolText(r.headEnd), q, HeadNotices(NoBody(r.body)), HeadNotices(NoBody(r.body)));
  }

  lemma UntilCloseLeads(p: Parser, data: seq<Byte>)
    requires p.state == BodyIdentityEof && Inv(p)
    ensures Leads(p, data, p, Bytes(HttpParser.Body, data), [])
  {
    hide Step, Run, Said, Bytes, Inv, Spoken;
    var n := |data|;
    NothingRun(p, data, false);
    NothingRun(p, data, true);
    BodyRun(p, data, 0, n, false);
    BodyRun(p, data, 0, n, true);
    assert data[0..0 + n] == data && 0 + n == n;
    assert NOTHING + (Bytes(HttpParser.Body, data) + NOTHING) == Bytes(HttpParser.Body, data);
  }

  /** Where the parser is after a response: in a body without end, or before the next response if headers
      and trailer asked to keep the connection. */
  function StateAfter(r: Reply): State {
    match r.body
    case UntilClose(_) => BodyIdentityEof
    case Framed(c) => if FlagsFrom(FlagsAll(r.headers), Trailer(c)).keepAlive then StartRes else Dead
  }

  lemma BodyLeads(p: Parser, b: Body) returns (q: Parser)
    requires BodyOk(b, p.flags, p.length) && p.nread == 0 && p.index <= 17 && -1 <= p.length < INT64_LIMIT &&
             p.kind == Response && p.state == AfterReplyHead(p).state
    ensures Leads(p, BodyText(b), q, BodySays(b), BodyUrl(b))
    ensures q == p.(state := q.state, length := q.length, hs := q.hs, index := q.index, nread := q.nread,
            flags := q.flags)
    ensures q.state == match b case UntilClose(_) => BodyIdentityEof
                               case Framed(c) => if FlagsFrom(p.flags, Trailer(c)).keepAlive then StartRes else Dead
  {
    hide Leads, ContentOk, ContentText, ContentItems, ContentUrl, FlagsFrom;
    match b {
      case UntilClose(data) =>
        q := p;
        UntilCloseLeads(p, data);
      case Framed(c) =>
        FramedState(p, c);
        q := ContentLeads(p, c);
    }
  }

  lemma FramedState(p: Parser, c: Content)
    requires BodyOk(Framed(c), p.flags, p.length) && p.nread == 0 && p.state == AfterReplyHead(p).state
    ensures p.state == if p.flags.chunked then ChunkSizeStart else if p.length > 0 then BodyIdentity else NewMessage(p)
  {
    hide ChunkOk, Spells, HeaderOk;
  }

  /** A response is read as what it consists of: version and status are the numbers spelled, the body is
      delivered whole, and the parser then waits for more of it, for the next response, or for nothing. */
  lemma ReplyReads(p: Parser, r: Reply) returns (q: Parser)
    requires p.state == StartRes && p.kind == Response && !p.upgraded && p.verb != CONNECT && Inv(p)
    requires ReplyOk(r) && p.nread + |ReplyHead(r)| <= MAX_HEADER_SIZE
    ensures Leads(p, ReplyText(r), q, ReplySays(r), ReplyUrl(r)) && q.state == StateAfter(r)
    ensures q.status == Number(r.line.code) && q.major == Number(r.line.version.major) &&
            q.minor == Number(r.line.version.minor)
  {
    hide Leads, ReplyHead, BodyText, BodySays, BodyUrl, HeaderItems, FlagsFrom, LengthFrom, StatusOk, HeaderOk, BodyOk,
         Number, NoBody, Inv;
    var a := ReplyHeadLeads(p, r);
    LengthFits(r.headers);
    ReplyInv(p, r, a);
    q := BodyLeads(a, r.body);
    LeadsOn(p, ReplyHead(r), a, BEGIN + HeaderItems(r.headers) + HeadNotices(NoBody(r.body)),
            BEGIN + HeadNotices(NoBody(r.body)), BodyText(r.body), q, BodySays(r.body), BodyUrl(r.body));
  }

  lemma ReplyInv(p: Parser, r: Reply, q: Parser)
    requires Inv(p) &&
             Leads(p, ReplyHead(r), q, BEGIN + HeaderItems(r.headers) + HeadNotices(NoBody(r.body)),
                   BEGIN + HeadNotices(NoBody(r.body)))
    ensures q.index <= 17
  {
    hide Leads, ReplyHead;
    LeadsInv(p, ReplyHead(r), q, BEGIN + HeaderItems(r.headers) + HeadNotices(NoBody(r.body)),
             BEGIN + HeadNotices(NoBody(r.body)));
  }

  // ---- line breaks before a response

  function Announced(n: nat): seq<Item> { seq(n, _ => Event(MessageBegin)) }

  lemma BreakAnnounced(p: Parser, ch: Byte)
    requires p.state == StartRes && p.nread < MAX_HEADER_SIZE && (ch == CR || ch == LF)
    ensures Step(p, ch) == Next(Begun(p).(nread := p.nread + 1), [Raise(MessageBegin)]) && Kinds(StartRes) == {}
  {
    hide ProtocolMove, ResponseMove, VersionMove, HostMove, UrlMove, MethodMove, HeadersDone, FieldStartMove,
         HeaderDone, FieldMove, ValueStartMove, ValueMove, ChunkMove, BodyMove, StartMethod;
  }

  /** Every line break before a response announces another message; before a request none does. */
  lemma {:induction false} EveryBreakAnnounced(p: Parser, s: seq<Byte>)
    requires p.state == StartRes && LineBreaks(s) && p.nread + |s| <= MAX_HEADER_SIZE
    ensures Leads(p, s, if s == [] then p else Begun(p).(nread := p.nread + |s|), Announced(|s|), Announced(|s|))
  {
    hide Leads, Step, Kinds;
    if s == [] {
      LeadsNowhere(p);
      assert Announced(0) == [];
    } else {
      var init, ch := s[..|s| - 1], s[|s| - 1];
      EveryBreakAnnounced(p, init);
      var q := if init == [] then p else Begun(p).(nread := p.nread + |init|);
      BreakAnnounced(q, ch);
      NoticeByte(q, ch, Begun(p).(nread := p.nread + |s|), MessageBegin);
      LeadsOn(p, init, q, Announced(|init|), Announced(|init|), [ch], Begun(p).(nread := p.nread + |s|), BEGIN, BEGIN);
      assert s == init + [ch] && Announced(|s|) == Announced(|init|) + BEGIN;
    }
  }

  // ---- a parser for either kind

  /** The parser for one kind that a parser for either turns into. */
  function Turned(p: Parser, s: seq<Byte>): Parser
    requires |s| >= 2
  {
    if s[0] == 'H' && s[1] == 'T' then p.(state := StartRes, kind := Response)
    else p.(state := StartReq, kind := Request)
  }

  lemma EitherFirst(p: Parser, ch: Byte)
    requires p.state == StartReqOrRes && p.nread + 2 <= MAX_HEADER_SIZE && TextByte(ch)
    ensures ch != 'H' ==> Step(p, ch) == Step(p.(state := StartReq, kind := Request), ch)
    ensures ch == 'H' ==>
            Step(p, ch) == Next(Begun(p).(state := ResOrRespH, nread := p.nread + 1), [Raise(MessageBegin)])
    ensures ch == 'H' ==>
              Step(p.(state := StartReq, kind := Request), ch) ==
                Next(Begun(p).(state := ReqMethod, kind := Request, verb := HEAD, index := 1, nread := p.nread + 1),
                [Raise(MessageBegin)])
  {
    hide ProtocolMove, ResponseMove, VersionMove, HostMove, UrlMove, MethodMove, HeadersDone, FieldStartMove,
         HeaderDone, FieldMove, ValueStartMove, ValueMove, ChunkMove, BodyMove;
  }

  lemma EitherSecond(p: Parser, ch: Byte)
    requires p.state == ResOrRespH && p.nread < MAX_HEADER_SIZE
    ensures ch == 'T' ==> Step(p, ch) == Step(p.(state := ResH, kind := Response), ch)
    ensures ch != 'T' ==>
            Step(p, ch) == Step(p.(state := ReqMethod, kind := Request, verb := HEAD, index := 1), ch)
  {
    hide ProtocolMove, VersionMove, HostMove, UrlMove, HeadersDone, FieldStartMove,
         HeaderDone, FieldMove, ValueStartMove, ValueMove, ChunkMove, BodyMove, StartMethod;
  }

  lemma QuietBeginning(ch: Byte, url: bool)
    ensures MarkedByte(ResOrRespH, ch, url) == MarkedByte(ResH, ch, url) == MarkedByte(ReqMethod, ch, url)
  {
  }

  /** A parser for either kind reads a text that begins with `HT` like a parser for responses, and any
      other like a parser for requests. */
  lemma {:induction false} EitherReads(p: Parser, s: seq<Byte>, i: nat, url: bool)
    requires p.state == StartReqOrRes && p.nread + 2 <= MAX_HEADER_SIZE && |s| >= 2 && TextByte(s[0]) && 2 <= i <= |s|
    ensures Run(p, s, i) == Run(Turned(p, s), s, i) && Said(p, s, i, url) == Said(Turned(p, s), s, i, url)
  {
    hide Step, Events, MarkedByte, TextByte, Begun;
    if i > 2 {
      EitherReads(p, s, i - 1, url);
    } else {
      var q := Turned(p, s);
      EitherOne(p, s, url);
      if s[0] == 'H' { EitherSecond(Begun(p).(state := ResOrRespH, nread := p.nread + 1), s[1]); }
      assert Run(p, s, 2 - 1) == Run(p, s, 1) && Run(q, s, 2 - 1) == Run(q, s, 1);
    }
  }

  lemma EitherOne(p: Parser, s: seq<Byte>, url: bool)
    requires p.state == StartReqOrRes && p.nread + 2 <= MAX_HEADER_SIZE && |s| >= 2 && TextByte(s[0])
    ensures Said(p, s, 1, url) == Said(Turned(p, s), s, 1, url)
    ensures s[0] != 'H' ==> Run(p, s, 1) == Run(Turned(p, s), s, 1)
    ensures s[0] == 'H' ==>
            var b := Begun(p).(nread := p.nread + 1);
            && Run(p, s, 1) == Reached(b.(state := ResOrRespH))
            && Run(Turned(p, s), s, 1) == if s[1] == 'T' then Reached(b.(state := ResH, kind := Response))
                 else Reached(b.(state := ReqMethod, kind := Request, verb := HEAD, index := 1))
  {
    hide Step, Events, MarkedByte, TextByte;
    EitherFirst(p, s[0]);
    FirstStep(p.(state := StartRes, kind := Response), s[0]);
    QuietBeginning(s[0], url);
    assert Run(p, s, 0) == Reached(p) && Run(Turned(p, s), s, 0) == Reached(Turned(p, s));
    assert Said(p, s, 0, url) == Said(Turned(p, s), s, 0, url) == [];
  }
}
