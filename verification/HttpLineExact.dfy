/** What the parser takes for a request line, and nothing else: after the method, a run gets past a line
    exactly if the line is one that a request can have, and it stops at the first byte with which no
    request line can go on. */
module HttpLineExact {
  import opened Common
  import opened HttpParser
  import opened HttpRun
  import opened HttpMarks
  import opened HttpReads
  import opened HttpHeaders
  import opened HttpLine
  import opened HttpRequest

  // ---- how far a line has been read

  /** What has been read of a request line after the method and its space. */
  datatype Stage =
    | Gap(before: nat)
    | Word(before: nat, word: seq<Byte>)
    | Colon(before: nat, word: seq<Byte>)
    | Slash(before: nat, word: seq<Byte>)
    | AtUrl(before: nat, target: Target)
    | Protocol(before: nat, target: Target, after: nat, k: nat)
    | Major(before: nat, target: Target, after: nat, major: seq<Byte>)
    | Dot(before: nat, target: Target, after: nat, major: seq<Byte>)
    | Minor(before: nat, target: Target, after: nat, major: seq<Byte>, minor: seq<Byte>)
    | Return(r: Message)
    | Done(r: Message)

  /** The spaces that may precede the URL, and the line to its end. */
  function LineRest(r: Message): seq<Byte> { Spaces(r.layout.before) + RestOfLine(r) }

  function LineOf(before: nat, t: Target, after: nat, version: Option<Version>, e: Eol): Message {
    Message(Layout([], before, after), GET, t, version, e, [], Lf, Nothing)
  }

  function Opening(before: nat, t: Target, after: nat): seq<Byte> {
    Spaces(before) + TargetText(t) + [' '] + Spaces(after)
  }

  /** The line without its end. */
  function LineBody(r: Message): seq<Byte> {
    match r.version
    case None => Spaces(r.layout.before) + TargetText(r.target)
    case Some(v) => Opening(r.layout.before, r.target, r.layout.after) + HTTP + v.major + ['.'] + v.minor
  }

  lemma BodyThenEnd(r: Message)
    ensures LineRest(r) == LineBody(r) + EolText(r.lineEnd)
  {
    hide TargetText, Spaces, EolText;
  }

  function StageText(g: Stage): seq<Byte> {
    match g
    case Gap(n) => Spaces(n)
    case Word(n, w) => Spaces(n) + w
    case Colon(n, w) => Spaces(n) + w + [':']
    case Slash(n, w) => Spaces(n) + w + [':'] + ['/']
    case AtUrl(n, t) => Spaces(n) + TargetText(t)
    case Protocol(n, t, m, k) => Opening(n, t, m) + HTTP[..if k <= 5 then k else 5]
    case Major(n, t, m, x) => Opening(n, t, m) + HTTP + x
    case Dot(n, t, m, x) => Opening(n, t, m) + HTTP + x + ['.']
    case Minor(n, t, m, x, y) => Opening(n, t, m) + HTTP + x + ['.'] + y
    case Return(r) => LineBody(r) + [CR]
    case Done(r) => LineRest(r)
  }

  predicate MajorOk(v: seq<Byte>) { DigitsOk(v) && v[0] != '0' }

  predicate WordOk(v: seq<Byte>) { v != [] && AllStay(ReqSchema, v) }

  predicate StageOk(g: Stage) {
    match g
    case Gap(_) => true
    case Word(_, w) => WordOk(w)
    case Colon(_, w) => WordOk(w)
    case Slash(_, w) => WordOk(w)
    case AtUrl(_, t) => TargetOk(t)
    case Protocol(_, t, _, k) => TargetOk(t) && k <= 5
    case Major(_, t, _, x) => TargetOk(t) && MajorOk(x)
    case Dot(_, t, _, x) => TargetOk(t) && MajorOk(x)
    case Minor(_, t, _, x, y) => TargetOk(t) && MajorOk(x) && DigitsOk(y)
    case Return(r) => LineOk(r) && r.lineEnd == Crlf
    case Done(r) => LineOk(r)
  }

  /** The state at the end of a URL. */
  function UrlState(t: Target): State {
    if t.fragment.Some? then if Stripped('#', t.fragment.value) == [] then ReqFragmentStart else ReqFragment
    else if t.query.Some? then if Stripped('?', t.query.value) == [] then ReqQueryStart else ReqQuery
    else if t.path != [] then ReqPath
    else if t.authority.Some? && t.authority.value.port.Some? then ReqPort else ReqHost
  }

  /** The parser at a stage; `q` has counted the bytes. */
  function AtStage(q: Parser, g: Stage): Parser
    requires StageOk(g)
  {
    match g
    case Gap(_) => q.(state := ReqSpaces)
    case Word(_, _) => q.(state := ReqSchema)
    case Colon(_, _) => q.(state := ReqSchemaSlash)
    case Slash(_, _) => q.(state := ReqSchemaSlashSlash)
    case AtUrl(_, t) => q.(state := UrlState(t))
    case Protocol(_, _, _, k) => q.(state := HttpState(k))
    case Major(_, _, _, x) => q.(state := ReqMajor, major := Number(x))
    case Dot(_, _, _, x) => q.(state := ReqFirstMinor, major := Number(x))
    case Minor(_, _, _, x, y) => q.(state := ReqMinor, major := Number(x), minor := Number(y))
    case Return(r) => q.(state := ReqLineAlmostDone, major := MajorOf(r), minor := MinorOf(r))
    case Done(r) => q.(state := HeaderFieldStart, major := MajorOf(r), minor := MinorOf(r))
  }

  // ---- what a line can go on with

  function HostMore(a: Authority, ch: Byte): Option<Authority> {
    if a.port.Some? then if Digit(ch) then Some(a.(port := Some(a.port.value + [ch]))) else None
    else if ch == ':' then Some(a.(port := Some([])))
    else if !Stays(ReqHost, ch) then None
    else match a
      case Authority(s, h, p) => Some(Authority(s, h + [ch], p))
      case Bare(w, t, p) => Some(Bare(w, t + [ch], p))
  }

  /** The URL with one more byte. */
  function UrlMore(t: Target, ch: Byte): Option<Target> {
    if t.fragment.Some? then
      if Stays(ReqFragment, ch) then Some(t.(fragment := Some(t.fragment.value + [ch]))) else None
    else if ch == '#' && t.path != [] then Some(t.(fragment := Some([])))
    else if t.query.Some? then
      if Stays(ReqQuery, ch) then Some(t.(query := Some(t.query.value + [ch]))) else None
    else if t.path != [] then
      if ch == '?' then Some(t.(query := Some([])))
      else if NormalUrl(ch) then Some(t.(path := t.path + [ch])) else None
    else if ch == '/' then Some(t.(path := [ch]))
    else if t.authority.None? then None
    else match HostMore(t.authority.value, ch) case Some(a) => Some(t.(authority := Some(a))) case None => None
  }

  function Onward(g: Stage, ch: Byte): Option<Stage> {
    match g
    case Gap(n) =>
      if ch == ' ' then Some(Gap(n + 1))
      else if ch == '/' || ch == '*' then Some(AtUrl(n, Target(None, [ch], None, None)))
      else if Letter(ch) then Some(Word(n, [ch])) else None
    case Word(n, w) =>
      if Letter(ch) then Some(Word(n, w + [ch]))
      else if ch == ':' then Some(Colon(n, w))
      else if ch == '.' || Digit(ch) then Some(AtUrl(n, Target(Some(Bare(w, [ch], None)), [], None, None))) else None
    case Colon(n, w) => if ch == '/' then Some(Slash(n, w)) else None
    case Slash(n, w) =>
      if ch == '/' then Some(AtUrl(n, Target(Some(Authority(w, [], None)), [], None, None))) else None
    case AtUrl(n, t) =>
      if ch == ' ' then Some(Protocol(n, t, 0, 0))
      else if t.path != [] && ch == CR then Some(Return(LineOf(n, t, 0, None, Crlf)))
      else if t.path != [] && ch == LF then Some(Done(LineOf(n, t, 0, None, Lf)))
      else (match UrlMore(t, ch) case Some(u) => Some(AtUrl(n, u)) case None => None)
    case Protocol(n, t, m, k) =>
      if k == 0 && ch == ' ' then Some(Protocol(n, t, m + 1, 0))
      else if k < 5 then if ch == HTTP[k] then Some(Protocol(n, t, m, k + 1)) else None
      else if '1' <= ch <= '9' then Some(Major(n, t, m, [ch])) else None
    case Major(n, t, m, x) =>
      if ch == '.' then Some(Dot(n, t, m, x))
      else if Digit(ch) && Number(x + [ch]) <= 999 then Some(Major(n, t, m, x + [ch])) else None
    case Dot(n, t, m, x) => if Digit(ch) then Some(Minor(n, t, m, x, [ch])) else None
    case Minor(n, t, m, x, y) =>
      if ch == CR then Some(Return(LineOf(n, t, m, Some(Version(x, y)), Crlf)))
      else if ch == LF then Some(Done(LineOf(n, t, m, Some(Version(x, y)), Lf)))
      else if Digit(ch) && Number(y + [ch]) <= 999 then Some(Minor(n, t, m, x, y + [ch])) else None
    case Return(r) => if ch == LF then Some(Done(r)) else None
    case Done(_) => None
  }

  // ---- the URL grows

  lemma {:induction false} StrippedNext(mark: Byte, v: seq<Byte>, ch: Byte)
    ensures Stripped(mark, v + [ch]) == [] <==> Stripped(mark, v) == [] && ch == mark
    ensures Stripped(mark, []) == []
  {
    if v != [] && v[0] == mark {
      assert (v + [ch])[1..] == v[1..] + [ch];
      StrippedNext(mark, v[1..], ch);
    } else if v == [] {
      assert v + [ch] == [ch] && [ch][1..] == [];
    }
  }

  lemma StayNext(s: State, v: seq<Byte>, ch: Byte)
    requires AllStay(s, v) && Stays(s, ch)
    ensures AllStay(s, v + [ch]) && AllStay(s, [])
  {
    hide Stays;
  }

  lemma TailNext(s: State, v: seq<Byte>, ch: Byte)
    requires v != [] && AllStay(s, v[1..]) && Stays(s, ch)
    ensures AllStay(s, (v + [ch])[1..]) && (v + [ch])[0] == v[0]
  {
    hide Stays;
    assert (v + [ch])[1..] == v[1..] + [ch];
  }

  lemma HostGrows(a: Authority, ch: Byte)
    requires AuthorityOk(a) && HostMore(a, ch).Some?
    ensures AuthorityOk(HostMore(a, ch).value)
    ensures AuthorityText(Some(HostMore(a, ch).value)) == AuthorityText(Some(a)) + [ch]
  {
    hide Stays, AllStay;
    PortStays(ch);
    if a.port.Some? {
      StayNext(ReqPort, a.port.value, ch);
    } else if ch == ':' {
    } else if a.Bare? {
      TailNext(ReqHost, a.tail, ch);
      assert a.word + (a.tail + [ch]) == a.word + a.tail + [ch];
    } else {
      StayNext(ReqHost, a.host, ch);
    }
  }

  lemma PortStays(ch: Byte)
    ensures Digit(ch) ==> Stays(ReqPort, ch)
    ensures AllStay(ReqPort, []) && AllStay(ReqQuery, []) && AllStay(ReqFragment, []) && AllStay(ReqPath, [])
    ensures NormalUrl(ch) ==> Stays(ReqPath, ch)
  {
  }

  lemma UrlGrows(t: Target, ch: Byte)
    requires TargetOk(t) && UrlMore(t, ch).Some?
    ensures TargetOk(UrlMore(t, ch).value) && TargetText(UrlMore(t, ch).value) == TargetText(t) + [ch]
  {
    hide Stays, AllStay, AuthorityOk, AuthorityText, HostMore, NormalUrl;
    PortStays(ch);
    if t.fragment.Some? {
      StayNext(ReqFragment, t.fragment.value, ch);
    } else if ch == '#' && t.path != [] {
    } else if t.query.Some? {
      StayNext(ReqQuery, t.query.value, ch);
    } else if t.path != [] {
      if ch != '?' { TailNext(ReqPath, t.path, ch); }
    } else if ch == '/' {
      assert [ch][1..] == [];
    } else {
      HostGrows(t.authority.value, ch);
    }
  }

  lemma UrlStateNext(t: Target, ch: Byte)
    requires TargetOk(t) && UrlMore(t, ch).Some?
    ensures var s, s' := UrlState(t), UrlState(UrlMore(t, ch).value); if Stays(s, ch) then s == s' else Turns(s, ch, s')
  {
    hide AuthorityOk, AllStay, Stripped;
    if t.fragment.Some? {
      StrippedNext('#', t.fragment.value, ch);
    } else if ch == '#' && t.path != [] {
      StrippedNext('#', [], ch);
    } else if t.query.Some? {
      StrippedNext('?', t.query.value, ch);
    } else {
      StrippedNext('?', [], ch);
    }
  }

  lemma UrlStateEnds(t: Target)
    ensures UrlEnds(UrlState(t)) && (t.path != [] ==> !UrlState(t).ReqHost? && !UrlState(t).ReqPort?)
    ensures Turns(UrlState(t), ' ', ReqHttpStart)
  {
  }

  // ---- a step from stage to stage

  lemma SpacesNext(n: nat)
    ensures Spaces(n + 1) == Spaces(n) + [' '] && Spaces(0) == []
  {
  }

  lemma HttpNext(k: nat)
    requires k < 5
    ensures HTTP[..k] + [HTTP[k]] == HTTP[..k + 1] && HTTP[..5] == HTTP && HTTP[..0] == []
  {
  }

  lemma DigitsNext(v: seq<Byte>, ch: Byte)
    requires Digit(ch)
    ensures DigitsOk([ch]) && Number([ch]) == DigitValue(ch) && Number(v + [ch]) == Number(v) * 10 + DigitValue(ch)
    ensures DigitsOk(v) && Number(v + [ch]) <= 999 ==> DigitsOk(v + [ch])
    ensures MajorOk(v) && Number(v + [ch]) <= 999 ==> MajorOk(v + [ch])
  {
    NumberOne(ch);
    NumberNext(v, ch);
    hide Number;
  }

  lemma WordNext(w: seq<Byte>, ch: Byte)
    requires Letter(ch)
    ensures WordOk([ch]) && (WordOk(w) ==> WordOk(w + [ch]))
  {
  }

  lemma PlainTarget(ch: Byte)
    ensures ch == '/' || ch == '*' ==> TargetOk(Target(None, [ch], None, None))
    ensures TargetText(Target(None, [ch], None, None)) == [ch]
  {
    assert [ch][1..] == [];
  }

  lemma HostTarget(w: seq<Byte>, ch: Byte)
    requires WordOk(w)
    ensures TargetOk(Target(Some(Authority(w, [], None)), [], None, None))
    ensures TargetText(Target(Some(Authority(w, [], None)), [], None, None)) == w + [':'] + ['/'] + ['/']
    ensures ch == '.' || Digit(ch) ==> TargetOk(Target(Some(Bare(w, [ch], None)), [], None, None))
    ensures TargetText(Target(Some(Bare(w, [ch], None)), [], None, None)) == w + [ch]
  {
    hide Stays;
    assert [ch][1..] == [];
    assert w + [':'] + ['/'] + ['/'] + [] == w + [':'] + ['/'] + ['/'];
  }

  lemma WordOnward(g: Stage, ch: Byte)
    requires StageOk(g) && Onward(g, ch).Some? && (g.Gap? || g.Word? || g.Colon? || g.Slash?)
    ensures StageOk(Onward(g, ch).value) && StageText(Onward(g, ch).value) == StageText(g) + [ch]
  {
    hide TargetOk, TargetText, WordOk, Spaces, Letter, Digit, Opening;
    SpacesNext(g.before);
    PlainTarget(ch);
    match g {
      case Gap(n) => if Letter(ch) { WordNext([], ch); }
      case Word(n, w) =>
        HostTarget(w, ch);
        if Letter(ch) { WordNext(w, ch); }
      case Colon(n, w) =>
      case Slash(n, w) =>
        HostTarget(w, ch);
        assert Spaces(n) + w + [':'] + ['/'] + ['/'] == Spaces(n) + (w + [':'] + ['/'] + ['/']);
    }
  }

  lemma UrlOnward(g: Stage, ch: Byte)
    requires StageOk(g) && Onward(g, ch).Some? && g.AtUrl?
    ensures StageOk(Onward(g, ch).value) && StageText(Onward(g, ch).value) == StageText(g) + [ch]
  {
    hide TargetOk, TargetText, UrlMore, Spaces;
    var n, t := g.before, g.target;
    SpacesNext(0);
    HttpNext(0);
    if ch == ' ' {
      assert Opening(n, t, 0) == Spaces(n) + TargetText(t) + [' '];
    } else if t.path != [] && (ch == CR || ch == LF) {
      BodyThenEnd(LineOf(n, t, 0, None, Lf));
    } else {
      UrlGrows(t, ch);
    }
  }

  lemma VersionOnward(g: Stage, ch: Byte)
    requires StageOk(g) && Onward(g, ch).Some? && (g.Protocol? || g.Major? || g.Dot? || g.Minor? || g.Return?)
    ensures StageOk(Onward(g, ch).value) && StageText(Onward(g, ch).value) == StageText(g) + [ch]
  {
    hide TargetOk, TargetText, Spaces, Number, DigitsOk, MajorOk;
    match g {
      case Protocol(n, t, m, k) => ProtocolOnward(n, t, m, k, ch);
      case Major(n, t, m, x) => if Digit(ch) { DigitsNext(x, ch); }
      case Dot(n, t, m, x) => DigitsNext([], ch);
      case Minor(n, t, m, x, y) =>
        if Digit(ch) { DigitsNext(y, ch); }
        MajorIs(x);
        BodyThenEnd(LineOf(n, t, m, Some(Version(x, y)), Lf));
      case Return(r) =>
        BodyThenEnd(r);
        assert LineBody(r) + [CR] + [LF] == LineBody(r) + CRLF;
    }
  }

  lemma MajorIs(x: seq<Byte>)
    ensures MajorOk(x) <==> DigitsOk(x) && x[0] != '0'
  {
  }

  lemma ProtocolOnward(n: nat, t: Target, m: nat, k: nat, ch: Byte)
    requires var g := Protocol(n, t, m, k); StageOk(g) && Onward(g, ch).Some?
    ensures var g := Protocol(n, t, m, k);
            StageOk(Onward(g, ch).value) && StageText(Onward(g, ch).value) == StageText(g) + [ch]
  {
    hide TargetOk, TargetText, Spaces, Number, DigitsOk;
    SpacesNext(m);
    HttpNext(0);
    if k == 0 && ch == ' ' {
      assert Opening(n, t, m + 1) == Opening(n, t, m) + [' '];
    } else if k < 5 {
      HttpNext(k);
    } else {
      DigitsNext([], ch);
    }
  }

  /** The next stage has one byte more. */
  lemma StageGrows(g: Stage, ch: Byte)
    requires StageOk(g) && Onward(g, ch).Some?
    ensures StageOk(Onward(g, ch).value) && StageText(Onward(g, ch).value) == StageText(g) + [ch]
  {
    hide StageOk, StageText;
    match g {
      case Gap(_) => WordOnward(g, ch);
      case Word(_, _) => WordOnward(g, ch);
      case Colon(_, _) => WordOnward(g, ch);
      case Slash(_, _) => WordOnward(g, ch);
      case AtUrl(_, _) => UrlOnward(g, ch);
      case Protocol(_, _, _, _) => VersionOnward(g, ch);
      case Major(_, _, _, _) => VersionOnward(g, ch);
      case Dot(_, _, _, _) => VersionOnward(g, ch);
      case Minor(_, _, _, _, _) => VersionOnward(g, ch);
      case Return(_) => VersionOnward(g, ch);
    }
  }

  /** The parser goes on to the next stage, or refuses the byte if there is none. */
  predicate GoesOn(p: Parser, g: Stage, ch: Byte)
    requires StageOk(g)
  {
    var out := Step(AtStage(p, g), ch);
    match Onward(g, ch)
    case Some(h) => StageOk(h) && out.Next? && out.q == AtStage(p.(nread := p.nread + 1), h)
    case None => out.Fail?
  }

  lemma WordStep(p: Parser, g: Stage, ch: Byte)
    requires StageOk(g) && p.nread < MAX_HEADER_SIZE && (g.Gap? || g.Word? || g.Colon? || g.Slash?)
    ensures GoesOn(p, g, ch)
  {
    hide StageText, TargetOk, WordOk, Step;
    if Onward(g, ch).Some? { WordOnward(g, ch); }
    UrlStepIs(AtStage(p, g), ch);
    hide StageOk;
  }

  lemma HostRefuses(p: Parser, t: Target, ch: Byte)
    requires TargetOk(t) && UrlMore(t, ch).None? && ch != ' ' && t.path == [] && p.state == UrlState(t)
    ensures InHost(p.state) && HostMove(p, ch).Fail?
  {
  }

  lemma UrlRefuses(p: Parser, t: Target, ch: Byte)
    requires TargetOk(t) && UrlMore(t, ch).None? && ch != ' ' && t.path != [] && ch != CR && ch != LF
    requires p.state == UrlState(t)
    ensures InUrl(p.state) && !InHost(p.state) && UrlMove(p, ch).Fail?
  {
    hide AllStay, Stripped;
  }

  lemma UrlStep(p: Parser, n: nat, t: Target, ch: Byte)
    requires TargetOk(t) && p.nread < MAX_HEADER_SIZE
    ensures GoesOn(p, AtUrl(n, t), ch)
  {
    hide TargetOk, UrlState, UrlMore, Step, StageText, HostMove, UrlMove, Stays, Turns;
    var q := p.(state := UrlState(t));
    UrlStateEnds(t);
    if ch == ' ' {
      TurnStep(q, ch, ReqHttpStart);
    } else if t.path != [] && (ch == CR || ch == LF) {
      OldSteps(q);
      assert LineOk(LineOf(n, t, 0, None, Lf)) && LineOk(LineOf(n, t, 0, None, Crlf));
    } else if UrlMore(t, ch).Some? {
      UrlGrows(t, ch);
      UrlStateNext(t, ch);
      if Stays(q.state, ch) { StayStep(q, ch); } else { TurnStep(q, ch, UrlState(UrlMore(t, ch).value)); }
    } else {
      var r := q.(nread := q.nread + 1);
      UrlStepIs(q, ch);
      if t.path == [] { HostRefuses(r, t, ch); } else { UrlRefuses(r, t, ch); }
    }
  }

  lemma ProtocolSteps(p: Parser, g: Stage, ch: Byte)
    requires StageOk(g) && p.nread < MAX_HEADER_SIZE && (g.Return? || (g.Protocol? && g.k < 5))
    ensures GoesOn(p, g, ch)
  {
    hide StageText, TargetOk, Step, LineOk;
    ProtocolStep(AtStage(p, g), ch);
  }

  lemma MajorSteps(p: Parser, g: Stage, ch: Byte)
    requires StageOk(g) && p.nread < MAX_HEADER_SIZE && ((g.Protocol? && g.k == 5) || g.Major?)
    ensures GoesOn(p, g, ch)
  {
    hide StageText, TargetOk, Step, Number, DigitsOk, MajorOk;
    VersionStep(AtStage(p, g), ch);
    if Onward(g, ch).Some? { VersionOnward(g, ch); }
    if Digit(ch) { DigitsNext(if g.Major? then g.major else [], ch); }
  }

  lemma MinorSteps(p: Parser, g: Stage, ch: Byte)
    requires StageOk(g) && p.nread < MAX_HEADER_SIZE && (g.Dot? || g.Minor?)
    ensures GoesOn(p, g, ch)
  {
    hide StageText, TargetOk, Step, Number, DigitsOk, MajorOk;
    VersionStep(AtStage(p, g), ch);
    if Onward(g, ch).Some? { VersionOnward(g, ch); }
    if Digit(ch) { DigitsNext(if g.Minor? then g.minor else [], ch); }
  }

  lemma StageStep(p: Parser, g: Stage, ch: Byte)
    requires StageOk(g) && !g.Done? && p.nread < MAX_HEADER_SIZE
    ensures GoesOn(p, g, ch)
  {
    hide StageText, TargetOk, GoesOn, LineOk, DigitsOk, MajorOk;
    match g {
      case Gap(_) => WordStep(p, g, ch);
      case Word(_, _) => WordStep(p, g, ch);
      case Colon(_, _) => WordStep(p, g, ch);
      case Slash(_, _) => WordStep(p, g, ch);
      case AtUrl(n, t) => UrlStep(p, n, t, ch);
      case Protocol(_, _, _, k) => if k < 5 { ProtocolSteps(p, g, ch); } else { MajorSteps(p, g, ch); }
      case Major(_, _, _, _) => MajorSteps(p, g, ch);
      case Dot(_, _, _, _) => MinorSteps(p, g, ch);
      case Minor(_, _, _, _, _) => MinorSteps(p, g, ch);
      case Return(_) => ProtocolSteps(p, g, ch);
    }
  }

  // ---- runs over a line

  lemma FeedEndsLine(g: Stage, ch: Byte)
    requires Onward(g, ch).Some?
    ensures Onward(g, ch).value.Done? <==> ch == LF
  {
    hide Number;
    if ch == LF { assert !NormalUrl(ch) && !Letter(ch); }
  }

  /** How a run over a text without line feeds, or with one at its end, stands. */
  lemma {:induction false} RunStage(p: Parser, s: seq<Byte>) returns (o: Option<Stage>)
    requires p.state == ReqSpaces && p.nread + |s| <= MAX_HEADER_SIZE && forall i | 0 <= i < |s| - 1 :: s[i] != LF
    ensures match o
            case Some(g) =>
              && StageOk(g) && StageText(g) == s && (g.Done? <==> s != [] && s[|s| - 1] == LF)
              && Run(p, s, |s|) == Reached(AtStage(p.(nread := p.nread + |s|), g))
            case None => Run(p, s, |s|).Stopped? && Run(p, s, |s|).out.Fail?
    decreases |s|
  {
    hide StageOk, StageText, AtStage, Step, Onward, GoesOn;
    if s == [] {
      o := Some(Gap(0));
      StartStage(p);
    } else {
      var init, ch := s[..|s| - 1], s[|s| - 1];
      assert s == init + [ch];
      o := RunStage(p, init);
      RunPrefix(p, init, [ch], |init|, false);
      if o.Some? {
        var g := o.value;
        StageStep(p.(nread := p.nread + |init|), g, ch);
        OneStep(p.(nread := p.nread + |init|), g, ch);
        o := Onward(g, ch);
        if o.Some? {
          StageGrows(g, ch);
          FeedEndsLine(g, ch);
        }
      }
    }
  }

  lemma StartStage(p: Parser)
    ensures StageOk(Gap(0)) && StageText(Gap(0)) == [] && AtStage(p, Gap(0)) == p.(state := ReqSpaces)
  {
    SpacesNext(0);
  }

  lemma OneStep(p: Parser, g: Stage, ch: Byte)
    requires StageOk(g) && GoesOn(p, g, ch)
    ensures match Onward(g, ch)
            case Some(h) =>
              StageOk(h) && Step(AtStage(p, g), ch).Next? &&
              Step(AtStage(p, g), ch).q == AtStage(p.(nread := p.nread + 1), h)
            case None => Step(AtStage(p, g), ch).Fail?
  {
    hide Step, AtStage, StageOk, Onward;
  }

  /** A text that ends with its only line feed. */
  predicate IsLine(s: seq<Byte>) { s != [] && s[|s| - 1] == LF && forall i | 0 <= i < |s| - 1 :: s[i] != LF }

  lemma LineRestReads(p: Parser, r: Message)
    requires p.state == ReqSpaces && LineOk(r) && p.nread + |LineRest(r)| <= MAX_HEADER_SIZE
    ensures Run(p, LineRest(r), |LineRest(r)|).Reached?
  {
    hide Leads, LineOk, RestOfLine, TargetItems, Bytes, TargetText, MajorOf, MinorOf, Spaces;
    var n := r.layout.before;
    SpacesLength(n);
    SpacesRead(p, n);
    var b := p.(nread := p.nread + n);
    var q := RestOfLineReads(b, r);
    LeadsOn(p, Spaces(n), b, [], [], RestOfLine(r), q, TargetItems(r.target), Bytes(Url, TargetText(r.target)));
    LeadsRuns(p, LineRest(r), q, NOTHING + TargetItems(r.target), NOTHING + Bytes(Url, TargetText(r.target)));
  }

  lemma LeadsRuns(p: Parser, s: seq<Byte>, q: Parser, m: seq<Item>, u: seq<Item>)
    requires Leads(p, s, q, m, u)
    ensures Run(p, s, |s|) == Reached(q)
  {
  }

  /** After the method, the parser gets past a line exactly if it is the rest of a request line, and it
      refuses every other. */
  lemma LineExactly(p: Parser, s: seq<Byte>)
    requires p.state == ReqSpaces && IsLine(s) && p.nread + |s| <= MAX_HEADER_SIZE
    ensures Run(p, s, |s|).Reached? <==> exists r: Message :: LineOk(r) && LineRest(r) == s
    ensures match Run(p, s, |s|)
            case Reached(q) => q.state == HeaderFieldStart && q.nread == p.nread + |s|
            case Stopped(_, out) => out.Fail?
  {
    hide LineOk, LineRest, Run, MajorOf, MinorOf;
    var o := RunStage(p, s);
    if o.Some? { assert LineOk(o.value.r) && LineRest(o.value.r) == s; }
    forall r: Message | LineOk(r) && LineRest(r) == s ensures Run(p, s, |s|).Reached? { LineRestReads(p, r); }
  }

  // ---- refused at once

  const HTTP_1_0 := Version(['1'], ['0'])

  /** A line that a stage can be completed to. */
  function Completed(g: Stage): Message {
    match g
    case Gap(n) => LineOf(n, Target(None, ['/'], None, None), 0, None, Lf)
    case Word(n, w) => LineOf(n, Target(Some(Bare(w, ['.'], None)), [], None, None), 0, Some(HTTP_1_0), Lf)
    case Colon(n, w) => LineOf(n, Target(Some(Authority(w, [], None)), [], None, None), 0, Some(HTTP_1_0), Lf)
    case Slash(n, w) => LineOf(n, Target(Some(Authority(w, [], None)), [], None, None), 0, Some(HTTP_1_0), Lf)
    case AtUrl(n, t) => LineOf(n, t, 0, Some(HTTP_1_0), Lf)
    case Protocol(n, t, m, k) => LineOf(n, t, m, Some(HTTP_1_0), Lf)
    case Major(n, t, m, x) => LineOf(n, t, m, Some(Version(x, ['0'])), Lf)
    case Dot(n, t, m, x) => LineOf(n, t, m, Some(Version(x, ['0'])), Lf)
    case Minor(n, t, m, x, y) => LineOf(n, t, m, Some(Version(x, y)), Lf)
    case Return(r) => r
    case Done(r) => r
  }

  lemma OneDigit(ch: Byte)
    requires Digit(ch)
    ensures DigitsOk([ch])
  {
    DigitsNext([], ch);
  }

  lemma {:induction false} CompletedOk(g: Stage)
    requires StageOk(g)
    ensures LineOk(Completed(g))
  {
    hide TargetOk, DigitsOk, TargetText;
    OneDigit('1');
    OneDigit('0');
    PlainTarget('/');
    if g.Word? || g.Colon? || g.Slash? { HostTarget(g.word, '.'); }
  }

  const LAST: seq<Byte> := [' ', 'H', 'T', 'T', 'P', '/', '1', '.', '0', LF]

  lemma AfterUrl(n: nat, t: Target)
    ensures LineRest(LineOf(n, t, 0, Some(HTTP_1_0), Lf)) == Spaces(n) + TargetText(t) + LAST
  {
    hide TargetText, Spaces, LineRest;
    var r := LineOf(n, t, 0, Some(HTTP_1_0), Lf);
    BodyThenEnd(r);
    SpacesNext(0);
    assert Opening(n, t, 0) == Spaces(n) + TargetText(t) + [' '];
    assert [' '] + HTTP + ['1'] + ['.'] + ['0'] + [LF] == LAST;
  }

  /** What is missing from the stages before the version. */
  lemma {:induction false} EarlyRest(g: Stage) returns (tail: seq<Byte>)
    requires StageOk(g) && (g.Gap? || g.Word? || g.Colon? || g.Slash? || g.AtUrl?)
    ensures LineRest(Completed(g)) == StageText(g) + tail && |tail| <= 16
  {
    hide TargetOk, TargetText, Spaces, StageOk, LineRest, WordOk;
    match g {
      case Gap(n) =>
        tail := ['/', LF];
        ShortLine(n);
      case AtUrl(n, t) =>
        tail := LAST;
        AfterUrl(n, t);
      case Word(n, w) =>
        tail := ['.'] + LAST;
        WordStage(g);
        HostTarget(w, '.');
        AfterUrl(n, Completed(g).target);
        assert Spaces(n) + (w + ['.']) + LAST == Spaces(n) + w + (['.'] + LAST);
      case Colon(n, w) => tail := SchemeRest(g);
      case Slash(n, w) => tail := SchemeRest(g);
    }
  }

  lemma ShortLine(n: nat)
    ensures LineRest(Completed(Gap(n))) == Spaces(n) + ['/', LF]
  {
    hide Spaces, LineRest, TargetText;
    BodyThenEnd(Completed(Gap(n)));
    PlainTarget('/');
  }

  lemma {:induction false} SchemeRest(g: Stage) returns (tail: seq<Byte>)
    requires StageOk(g) && (g.Colon? || g.Slash?)
    ensures LineRest(Completed(g)) == StageText(g) + tail && |tail| <= 16
  {
    hide TargetOk, TargetText, Spaces, StageOk, LineRest, WordOk;
    var n, w := g.before, g.word;
    WordStage(g);
    HostTarget(w, '.');
    AfterUrl(n, Target(Some(Authority(w, [], None)), [], None, None));
    var s := Spaces(n) + w + [':'];
    assert Spaces(n) + (w + [':'] + ['/'] + ['/']) == s + ['/'] + ['/'];
    if g.Colon? {
      tail := ['/'] + ['/'] + LAST;
    } else {
      tail := ['/'] + LAST;
    }
  }

  lemma WordStage(g: Stage)
    requires StageOk(g) && (g.Word? || g.Colon? || g.Slash?)
    ensures WordOk(g.word)
  {
  }

  lemma {:induction false} LateRest(g: Stage) returns (tail: seq<Byte>)
    requires StageOk(g) && (g.Protocol? || g.Major? || g.Dot? || g.Minor? || g.Return? || g.Done?)
    ensures LineRest(Completed(g)) == StageText(g) + tail && |tail| <= 16
  {
    hide TargetOk, DigitsOk, MajorOk, TargetText, Spaces, Opening, LineRest;
    BodyThenEnd(Completed(g));
    match g {
      case Protocol(n, t, m, k) => tail := ProtocolRest(n, t, m, k);
      case Major(n, t, m, x) => tail := ['.'] + ['0'] + [LF];
      case Dot(n, t, m, x) => tail := ['0'] + [LF];
      case Minor(n, t, m, x, y) => tail := [LF];
      case Return(r) => tail := [LF];
      case Done(r) => tail := [];
    }
  }

  lemma ProtocolRest(n: nat, t: Target, m: nat, k: nat) returns (tail: seq<Byte>)
    requires k <= 5
    ensures var g := Protocol(n, t, m, k); LineRest(Completed(g)) == StageText(g) + tail && |tail| <= 16
  {
    hide TargetText, Spaces, Opening, LineRest;
    BodyThenEnd(Completed(Protocol(n, t, m, k)));
    tail := HTTP[k..] + ['1'] + ['.'] + ['0'] + [LF];
    assert HTTP == HTTP[..k] + HTTP[k..];
  }

  /** The parser stops at the first byte with which no request line goes on: as long as it reads, a
      request line with no more than 16 further bytes begins like this. */
  lemma RefusedAtOnce(p: Parser, s: seq<Byte>)
    requires p.state == ReqSpaces && LF !in s && p.nread + |s| + 16 <= MAX_HEADER_SIZE
    ensures Run(p, s, |s|).Reached? <==>
              exists r: Message :: LineOk(r) && s <= LineRest(r) && |LineRest(r)| <= |s| + 16
  {
    hide LineOk, LineRest, Run, StageOk, StageText, Completed;
    var o := RunStage(p, s);
    if o.Some? {
      var g := o.value;
      CompletedOk(g);
      var tail: seq<Byte>;
      if g.Gap? || g.Word? || g.Colon? || g.Slash? || g.AtUrl? { tail := EarlyRest(g); } else { tail := LateRest(g); }
      assert s <= LineRest(Completed(g));
    }
    forall r: Message | LineOk(r) && s <= LineRest(r) && |LineRest(r)| <= |s| + 16
      ensures Run(p, s, |s|).Reached?
    {
      var t := LineRest(r);
      LineRestReads(p, r);
      assert t == s + t[|s|..];
      RunPrefix(p, s, t[|s|..], |s|, false);
      if Run(p, t, |s|).Stopped? { RunStopped(p, t, |s|, |t|, false); }
    }
  }
}
