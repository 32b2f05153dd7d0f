/** What the parser takes for header lines and for the head of a request, and nothing else. */
module HttpHeadExact {
  import opened Common
  import opened HttpParser
  import opened HttpRun
  import opened HttpMarks
  import opened HttpReads
  import opened HttpHeaders
  import opened HttpLine
  import opened HttpRequest
  import opened HttpLineExact

  // ---- how far a header line has been read

  datatype Part =
    | Name(name: seq<Byte>)
    | Before(name: seq<Byte>, gap: nat)
    | Within(name: seq<Byte>, gap: nat, value: seq<Byte>)
    | Ending(h: Header)
    | Ended(h: Header)

  function Colon(name: seq<Byte>, gap: nat): seq<Byte> { name + [':'] + Spaces(gap) }

  /** A header line without its end. */
  function HeaderBody(h: Header): seq<Byte> { if h.Lone? then h.name else Colon(h.name, h.gap) + h.value }

  function PartText(d: Part): seq<Byte> {
    match d
    case Name(v) => v
    case Before(v, n) => Colon(v, n)
    case Within(v, n, x) => Colon(v, n) + x
    case Ending(h) => HeaderBody(h) + [CR]
    case Ended(h) => EncodeHeader(h)
  }

  predicate PartOk(d: Part) {
    match d
    case Name(v) => NameOk(v)
    case Before(v, _) => NameOk(v)
    case Within(v, _, x) => NameOk(v) && TextOk(FieldOf(v), x)
    case Ending(h) => HeaderOk(h) && h.end == Crlf
    case Ended(h) => HeaderOk(h)
  }

  function PartState(d: Part): State {
    match d
    case Name(_) => HeaderField
    case Before(_, _) => HeaderValueStart
    case Within(_, _, _) => HeaderValue
    case Ending(_) => HeaderAlmostDone
    case Ended(_) => HeaderFieldStart
  }

  lemma BodyThenEol(h: Header)
    ensures EncodeHeader(h) == HeaderBody(h) + EolText(h.end)
  {
    hide Spaces, EolText;
  }

  /** The parser knows the field that the name stands for, and a length as far as it has been read. */
  predicate Knows(q: Parser, d: Part) {
    match d
    case Name(_) => !FullValue(q.hs)
    case Before(v, _) => q.hs == ContentLength <==> FieldOf(v) == ContentLength
    case Within(v, _, x) =>
      (q.hs == ContentLength <==> FieldOf(v) == ContentLength) && ValueOk(q) &&
      (FieldOf(v) == ContentLength ==> q.length == Number(x))
    case _ => true
  }

  lemma StandsLength(hs: HeaderState, f: HeaderState)
    requires Stands(hs, f)
    ensures hs == ContentLength <==> f == ContentLength
  {
  }

  lemma ReachBefore(p: Parser, name: seq<Byte>, gap: nat) returns (q: Parser)
    requires p.state == HeaderFieldStart && NameOk(name) && p.nread + |Colon(name, gap)| <= MAX_HEADER_SIZE
    ensures Leads(p, Colon(name, gap), q, Bytes(Field, name), []) && Stands(q.hs, FieldOf(name))
    ensures q.state == HeaderValueStart && q.nread == p.nread + |Colon(name, gap)| && Knows(q, Before(name, gap))
  {
    hide Leads, Stands, NameOk, FieldOf, Bytes;
    q := HeadReads(p, Header(name, gap, [], Lf));
    StandsLength(q.hs, FieldOf(name));
  }

  lemma ValuingKnows(f: HeaderState, q: Parser, v: seq<Byte>)
    requires Valuing(f, q.hs, q.index, LoweredText(v), v) && v != [] && (f == ContentLength ==> q.length >= 0)
    ensures (q.hs == ContentLength <==> f == ContentLength) && ValueOk(q)
  {
    hide Begins, Spaced;
  }

  lemma ReachWithin(p: Parser, name: seq<Byte>, gap: nat, v: seq<Byte>) returns (q: Parser)
    requires p.state == HeaderFieldStart && NameOk(name) && TextOk(FieldOf(name), v)
    requires p.nread + |Colon(name, gap) + v| <= MAX_HEADER_SIZE
    ensures Run(p, Colon(name, gap) + v, |Colon(name, gap) + v|) == Reached(q) && q.state == HeaderValue
    ensures q.nread == p.nread + |Colon(name, gap) + v| && Knows(q, Within(name, gap, v))
  {
    hide Leads, Stands, NameOk, FieldOf, Bytes, Valuing, TextOk, Number, Run, ValueOk;
    var b := ReachBefore(p, name, gap);
    TextStands(b.hs, Header(name, gap, v, Lf));
    TextIsNot(b.hs, v);
    q := ValueTextReads(b, v);
    LeadsOn(p, Colon(name, gap), b, Bytes(Field, name), [], v, q, Bytes(Value, v), []);
    LeadsRuns(p, Colon(name, gap) + v, q, Bytes(Field, name) + Bytes(Value, v), NOTHING + NOTHING);
    ValuingKnows(b.hs, q, v);
  }

  lemma TextIsNot(f: HeaderState, v: seq<Byte>)
    requires TextOk(f, v)
    ensures v != []
  {
  }

  function BodyPart(h: Header): Part {
    if h.Lone? then Name(h.name) else if h.value == [] then Before(h.name, h.gap) else Within(h.name, h.gap, h.value)
  }

  /** Every part of a header line is read. */
  lemma ReachOpen(p: Parser, d: Part) returns (q: Parser)
    requires p.state == HeaderFieldStart && PartOk(d) && !d.Ending? && !d.Ended?
    requires p.nread + |PartText(d)| <= MAX_HEADER_SIZE
    ensures Run(p, PartText(d), |PartText(d)|) == Reached(q) && q.state == PartState(d)
    ensures q.nread == p.nread + |PartText(d)| && Knows(q, d)
  {
    hide Leads, Reading, NameOk, FieldOf, Bytes, TextOk, Number, Run, ValueOk, Colon, Stands, FullValue;
    match d {
      case Name(v) =>
        q := NameReads(p, v);
        NameIsNoValue(q.hs, q.index, v);
        LeadsRuns(p, v, q, Bytes(Field, v), []);
      case Before(v, n) =>
        q := ReachBefore(p, v, n);
        LeadsRuns(p, Colon(v, n), q, Bytes(Field, v), []);
      case Within(v, n, x) => q := ReachWithin(p, v, n, x);
    }
  }

  lemma BodyPartIs(h: Header)
    requires HeaderOk(h)
    ensures PartOk(BodyPart(h)) && PartText(BodyPart(h)) == HeaderBody(h)
  {
    hide NameOk, FieldOf, TextOk, Spaces;
  }

  lemma ReachEnding(p: Parser, h: Header) returns (q: Parser)
    requires p.state == HeaderFieldStart && HeaderOk(h) && p.nread + |HeaderBody(h)| + 1 <= MAX_HEADER_SIZE
    ensures Run(p, HeaderBody(h) + [CR], |HeaderBody(h)| + 1) == Reached(q) && q.state == HeaderAlmostDone
    ensures q.nread == p.nread + |HeaderBody(h)| + 1
  {
    hide HeaderOk, PartOk, PartText, HeaderBody, Leads, Run, Step;
    BodyPartIs(h);
    var b := ReachOpen(p, BodyPart(h));
    q := ReturnReads(b);
    LeadsRuns(b, [CR], q, [], []);
    RunAppend(p, HeaderBody(h), [CR], 1, false);
  }

  lemma ReachPart(p: Parser, d: Part) returns (q: Parser)
    requires p.state == HeaderFieldStart && PartOk(d) && p.nread + |PartText(d)| <= MAX_HEADER_SIZE
    ensures Run(p, PartText(d), |PartText(d)|) == Reached(q) && q.state == PartState(d)
    ensures q.nread == p.nread + |PartText(d)| && Knows(q, d)
  {
    hide HeaderOk, NameOk, TextOk, EncodeHeader, HeaderBody, Run, Leads, FieldOf, Number, Colon;
    match d {
      case Ending(h) => q := ReachEnding(p, h);
      case Ended(h) =>
        q := HeaderLine(p, h);
        LeadsRuns(p, EncodeHeader(h), q, Bytes(Field, h.name) + Bytes(Value, ValueOf(h)), []);
      case _ => q := ReachOpen(p, d);
    }
  }

  // ---- what a header line can go on with

  predicate LengthByte(v: seq<Byte>, ch: Byte) {
    if v == [] then Digit(ch) else (Digit(ch) || ch == ' ') && Number(v + [ch]) < INT64_LIMIT
  }

  function Further(d: Part, ch: Byte): Option<Part> {
    match d
    case Name(v) =>
      if IsToken(ch) then Some(Name(v + [ch]))
      else if ch == ':' then Some(Before(v, 0))
      else if ch == CR then Some(Ending(Lone(v, Crlf)))
      else if ch == LF then Some(Ended(Lone(v, Lf))) else None
    case Before(v, n) =>
      if ch == ' ' then Some(Before(v, n + 1))
      else if ch == CR then Some(Ending(Header(v, n, [], Crlf)))
      else if ch == LF then Some(Ended(Header(v, n, [], Lf)))
      else if FieldOf(v) == ContentLength && !LengthByte([], ch) then None
      else Some(Within(v, n, [ch]))
    case Within(v, n, x) =>
      if ch == CR then Some(Ending(Header(v, n, x, Crlf)))
      else if ch == LF then Some(Ended(Header(v, n, x, Lf)))
      else if FieldOf(v) == ContentLength && !LengthByte(x, ch) then None
      else Some(Within(v, n, x + [ch]))
    case Ending(h) => if ch == LF then Some(Ended(h)) else None
    case Ended(_) => None
  }

  lemma OneText(f: HeaderState, ch: Byte)
    requires TextByte(ch) && ch != ' ' && (f == ContentLength ==> Digit(ch))
    ensures TextOk(f, [ch])
  {
    if Digit(ch) { NumberOne(ch); }
  }

  lemma TextNext(f: HeaderState, v: seq<Byte>, ch: Byte)
    requires TextOk(f, v) && TextByte(ch) && (f == ContentLength ==> LengthByte(v, ch))
    ensures TextOk(f, v + [ch])
  {
    hide Number;
  }

  lemma NameNext(v: seq<Byte>, ch: Byte)
    requires NameOk(v) && IsToken(ch)
    ensures NameOk(v + [ch])
  {
    hide IsToken;
  }

  lemma ColonText(v: seq<Byte>, n: nat)
    ensures Colon(v, n + 1) == Colon(v, n) + [' '] && Colon(v, 0) == v + [':']
  {
  }

  lemma PartGrows(d: Part, ch: Byte)
    requires PartOk(d) && Further(d, ch).Some?
    ensures PartOk(Further(d, ch).value) && PartText(Further(d, ch).value) == PartText(d) + [ch]
    ensures Further(d, ch).value.Ended? <==> ch == LF
  {
    hide NameOk, TextOk, FieldOf, Colon, EncodeHeader, IsToken, Number, LengthByte;
    match d {
      case Name(v) =>
        ColonText(v, 0);
        BodyThenEol(Lone(v, Lf));
        if IsToken(ch) { NameNext(v, ch); NameBytes(ch); }
      case Before(v, n) =>
        ColonText(v, n);
        BodyThenEol(Header(v, n, [], Lf));
        NoLength(ch);
        if Further(d, ch).value.Within? { OneText(FieldOf(v), ch); }
      case Within(v, n, x) =>
        BodyThenEol(Header(v, n, x, Lf));
        if Further(d, ch).value.Within? { TextNext(FieldOf(v), x, ch); }
        assert Colon(v, n) + (x + [ch]) == Colon(v, n) + x + [ch];
      case Ending(h) =>
        BodyThenEol(h);
        assert HeaderBody(h) + [CR] + [LF] == HeaderBody(h) + CRLF;
    }
  }

  lemma NoLength(ch: Byte)
    ensures LengthByte([], ch) <==> Digit(ch)
  {
  }

  // ---- refusals

  /** The length of a Content-Length header that leaves 64 bits. */
  ghost predicate TooLong(s: seq<Byte>) {
    exists name: seq<Byte>, gap: nat, v: seq<Byte> ::
      && s == Colon(name, gap) + v && NameOk(name) && FieldOf(name) == ContentLength
      && (forall i | 0 <= i < |v| :: Digit(v[i]) || v[i] == ' ') && Number(v) >= INT64_LIMIT
  }

  lemma NameRefuses(q: Parser, ch: Byte)
    requires q.state == HeaderField && q.nread < MAX_HEADER_SIZE && !IsToken(ch) && ch != ':' && ch != CR && ch != LF
    ensures Step(q, ch) == Fail([])
  {
    hide StartMove, ProtocolMove, ResponseMove, VersionMove, HostMove, UrlMove, MethodMove, HeadersDone, FieldStartMove,
         HeaderDone, ValueStartMove, ValueMove, ChunkMove, BodyMove, Token, FieldByte;
  }

  lemma BeforeRefuses(q: Parser, ch: Byte)
    requires q.state == HeaderValueStart && q.nread < MAX_HEADER_SIZE && q.hs == ContentLength
    requires !Digit(ch) && ch != ' ' && TextByte(ch)
    ensures Step(q, ch) == Fail([])
  {
    hide Step, Lower;
    ValueStartStep(q, ch);
  }

  lemma WithinRefuses(q: Parser, v: seq<Byte>, ch: Byte)
    requires q.state == HeaderValue && q.nread < MAX_HEADER_SIZE && q.hs == ContentLength && q.length == Number(v)
    requires v != [] && !LengthByte(v, ch) && TextByte(ch) && Number(v) < INT64_LIMIT
    ensures Step(q, ch) == if Digit(ch) then Undefined else Fail([])
  {
    hide Step, Number, Lower;
    ValueStep(q, ch);
    NumberNext(v, ch);
  }

  lemma EndingRefuses(q: Parser, ch: Byte)
    requires q.state == HeaderAlmostDone && q.nread < MAX_HEADER_SIZE && ch != LF
    ensures Step(q, ch) == Fail([])
  {
    hide StartMove, ProtocolMove, ResponseMove, VersionMove, HostMove, UrlMove, MethodMove, HeadersDone, FieldStartMove,
         FieldMove, ValueStartMove, ValueMove, ChunkMove, BodyMove;
  }

  lemma NumberText(f: HeaderState, v: seq<Byte>)
    requires TextOk(f, v) && f == ContentLength
    ensures v != [] && (forall i | 0 <= i < |v| :: Digit(v[i]) || v[i] == ' ') && Number(v) < INT64_LIMIT
  {
  }

  /** A byte that a header line cannot go on with is refused, or a length leaves its range. */
  lemma PartRefuses(q: Parser, d: Part, ch: Byte)
    requires PartOk(d) && !d.Ended? && Further(d, ch).None?
    requires q.state == PartState(d) && q.nread < MAX_HEADER_SIZE && Knows(q, d)
    ensures var out := Step(q, ch); out.Fail? || (out.Undefined? && TooLong(PartText(d) + [ch]))
  {
    hide NameOk, TextOk, FieldOf, Colon, IsToken, Number, LengthByte, Step, TooLong, ValueOk, HeaderOk, FullValue;
    match d {
      case Name(v) => NameRefuses(q, ch);
      case Before(v, n) =>
        NoLength(ch);
        BeforeRefuses(q, ch);
      case Within(v, n, x) =>
        NumberText(FieldOf(v), x);
        WithinRefuses(q, x, ch);
        if Digit(ch) { Overflows(v, n, x, ch); }
      case Ending(h) => EndingRefuses(q, ch);
    }
  }

  lemma Overflows(name: seq<Byte>, gap: nat, v: seq<Byte>, ch: Byte)
    requires NameOk(name) && FieldOf(name) == ContentLength && v != [] && Digit(ch) && !LengthByte(v, ch)
    requires forall i | 0 <= i < |v| :: Digit(v[i]) || v[i] == ' '
    ensures TooLong(Colon(name, gap) + v + [ch])
  {
    hide NameOk, FieldOf, Colon, Number;
    var x := v + [ch];
    assert Colon(name, gap) + v + [ch] == Colon(name, gap) + x;
    assert forall i | 0 <= i < |x| :: Digit(x[i]) || x[i] == ' ';
  }

  // ---- runs over a header line

  lemma FirstPart(p: Parser, ch: Byte)
    requires p.state == HeaderFieldStart && p.nread < MAX_HEADER_SIZE && !IsToken(ch) && TextByte(ch)
    ensures Step(p, ch) == Fail([])
  {
    hide StartMove, ProtocolMove, ResponseMove, VersionMove, HostMove, UrlMove, MethodMove, HeadersDone,
         HeaderDone, FieldMove, ValueStartMove, ValueMove, ChunkMove, BodyMove, Token;
  }

  /** How a run over the beginning of a header line stands. */
  ghost predicate PartFate(p: Parser, s: seq<Byte>, o: Option<Part>) {
    var run := Run(p, s, |s|);
    match o
    case Some(d) =>
      PartOk(d) && PartText(d) == s && run.Reached? && (d.Ended? <==> s != [] && s[|s| - 1] == LF)
    case None =>
      run.Stopped? && run.at < |s| && (run.out.Fail? || (run.out.Undefined? && TooLong(s[..run.at + 1])))
  }

  lemma PartGoes(p: Parser, d: Part)
    requires p.state == HeaderFieldStart && p.nread + |PartText(d)| <= MAX_HEADER_SIZE && PartOk(d)
    requires d.Ended? <==> PartText(d) != [] && PartText(d)[|PartText(d)| - 1] == LF
    ensures PartFate(p, PartText(d), Some(d))
  {
    hide PartOk, PartText, TooLong, Knows, Run;
    var q := ReachPart(p, d);
  }

  lemma PartHalts(p: Parser, d: Part, ch: Byte)
    requires p.state == HeaderFieldStart && p.nread + |PartText(d)| + 1 <= MAX_HEADER_SIZE && PartOk(d)
    requires !d.Ended? && Further(d, ch).None?
    ensures PartFate(p, PartText(d) + [ch], None)
  {
    hide PartOk, PartText, Step, Further, TooLong, Knows, Run;
    var s := PartText(d) + [ch];
    var q := ReachPart(p, d);
    PartRefuses(q, d, ch);
    StopsWith(p, PartText(d), q, ch, Step(q, ch));
    assert s[..|s|] == s;
  }

  lemma PartNext(p: Parser, init: seq<Byte>, d: Part, ch: Byte)
    requires p.state == HeaderFieldStart && p.nread + |init| + 1 <= MAX_HEADER_SIZE
    requires PartFate(p, init, Some(d)) && !d.Ended?
    ensures PartFate(p, init + [ch], Further(d, ch))
  {
    hide PartOk, PartText, Further, TooLong, Run;
    if Further(d, ch).Some? {
      PartGrows(d, ch);
      PartGoes(p, Further(d, ch).value);
    } else {
      PartHalts(p, d, ch);
    }
  }

  lemma PartStays(p: Parser, init: seq<Byte>, ch: Byte)
    requires PartFate(p, init, None)
    ensures PartFate(p, init + [ch], None)
  {
    hide Step, TooLong;
    RunPrefix(p, init, [ch], |init|, false);
    var s, at := init + [ch], Run(p, init, |init|).at;
    assert s[..at + 1] == init[..at + 1];
  }

  lemma PartStarts(p: Parser, ch: Byte)
    requires p.state == HeaderFieldStart && p.nread < MAX_HEADER_SIZE && TextByte(ch)
    ensures PartFate(p, [ch], if IsToken(ch) then Some(Name([ch])) else None)
  {
    hide PartOk, PartText, Step, TooLong, Knows, IsToken, TextByte;
    if IsToken(ch) {
      OnePart(ch);
      var q := ReachPart(p, Name([ch]));
    } else {
      FirstPart(p, ch);
      assert Run(p, [ch], 0) == Reached(p);
    }
  }

  lemma {:induction false} RunPart(p: Parser, s: seq<Byte>) returns (o: Option<Part>)
    requires p.state == HeaderFieldStart && p.nread + |s| <= MAX_HEADER_SIZE
    requires s != [] && TextByte(s[0]) && forall i | 0 <= i < |s| - 1 :: s[i] != LF
    ensures PartFate(p, s, o)
    decreases |s|
  {
    hide PartFate, Further, IsToken, TextByte;
    var init, ch := s[..|s| - 1], s[|s| - 1];
    assert s == init + [ch];
    if init == [] {
      o := if IsToken(ch) then Some(Name([ch])) else None;
      PartStarts(p, ch);
    } else {
      o := RunPart(p, init);
      if o.Some? {
        NotEnded(p, init, o.value);
        PartNext(p, init, o.value, ch);
        o := Further(o.value, ch);
      } else {
        PartStays(p, init, ch);
      }
    }
  }

  lemma NotEnded(p: Parser, s: seq<Byte>, d: Part)
    requires PartFate(p, s, Some(d)) && (s == [] || s[|s| - 1] != LF)
    ensures !d.Ended?
  {
  }

  lemma OnePart(ch: Byte)
    requires IsToken(ch)
    ensures PartOk(Name([ch])) && PartText(Name([ch])) == [ch] && ch != LF
  {
    NameBytes(ch);
    hide IsToken;
  }

  /** A line that is not empty. */
  predicate IsHeaderLine(s: seq<Byte>) { IsLine(s) && TextByte(s[0]) }

  /** The parser gets past a line that is not empty exactly if it is a header line; it refuses every
      other, or a length leaves its range. */
  lemma HeaderExactly(p: Parser, s: seq<Byte>)
    requires p.state == HeaderFieldStart && IsHeaderLine(s) && p.nread + |s| <= MAX_HEADER_SIZE
    ensures Run(p, s, |s|).Reached? <==> exists h: Header :: HeaderOk(h) && EncodeHeader(h) == s
    ensures match Run(p, s, |s|)
            case Reached(q) => q.state == HeaderFieldStart && q.nread == p.nread + |s|
            case Stopped(at, out) => at < |s| && (out.Fail? || (out.Undefined? && TooLong(s[..at + 1])))
  {
    hide HeaderOk, EncodeHeader, Run, TooLong, TextByte, Knows, NameOk, TextOk, FieldOf, HeaderBody, Colon;
    var o := RunPart(p, s);
    if o.Some? {
      assert HeaderOk(o.value.h) && EncodeHeader(o.value.h) == s;
      var q := ReachPart(p, o.value);
    }
    forall h: Header | HeaderOk(h) && EncodeHeader(h) == s ensures Run(p, s, |s|).Reached? {
      var q := ReachPart(p, Ended(h));
    }
  }

  /** In the value of a Content-Length header, the first byte that is neither a digit nor a space after
      the first digit is refused, and no other byte is. */
  lemma LengthExactly(p: Parser, name: seq<Byte>, gap: nat, v: seq<Byte>, ch: Byte)
    requires p.state == HeaderFieldStart && NameOk(name) && FieldOf(name) == ContentLength
    requires (v == [] || NumberOk(v)) && p.nread + |Colon(name, gap) + v| < MAX_HEADER_SIZE
    ensures var s := Colon(name, gap) + v;
            var run := Run(p, s + [ch], |s| + 1);
            if ch == ' ' || ch == CR || ch == LF || (Digit(ch) && Number(v + [ch]) < INT64_LIMIT) then run.Reached?
            else run == Stopped(|s|, if Digit(ch) then Undefined else Fail([]))
  {
    hide NameOk, FieldOf, Colon, Step, Number, PartText, PartOk, Further, NumberOk, Run, Knows, PartState;
    var s := Colon(name, gap) + v;
    var d := if v == [] then Before(name, gap) else Within(name, gap, v);
    LengthPart(name, gap, v, ch);
    if Further(d, ch).Some? {
      PartGrows(d, ch);
      var r := ReachPart(p, Further(d, ch).value);
    } else {
      var q := ReachPart(p, d);
      LengthRefuses(q, d, v, ch);
      StopsWith(p, s, q, ch, if Digit(ch) then Undefined else Fail([]));
    }
  }

  lemma StopsWith(p: Parser, s: seq<Byte>, q: Parser, ch: Byte, out: Outcome)
    requires Run(p, s, |s|) == Reached(q) && Step(q, ch) == out && !out.Next?
    ensures Run(p, s + [ch], |s| + 1) == Stopped(|s|, out)
  {
    hide Step;
    RunPrefix(p, s, [ch], |s|, false);
    assert (s + [ch])[|s|] == ch;
  }

  lemma LengthRefuses(q: Parser, d: Part, v: seq<Byte>, ch: Byte)
    requires q.state == PartState(d) && q.nread < MAX_HEADER_SIZE && Knows(q, d)
    requires d.Before? || d.Within?
    requires FieldOf(d.name) == ContentLength && v == (if d.Before? then [] else d.value)
    requires (d.Within? ==> NumberOk(v)) && Further(d, ch).None?
    ensures Step(q, ch) == if Digit(ch) then Undefined else Fail([])
  {
    hide FieldOf, Step, Number, ValueOk;
    if d.Before? { BeforeRefuses(q, ch); } else { WithinRefuses(q, v, ch); }
  }

  lemma LengthPart(name: seq<Byte>, gap: nat, v: seq<Byte>, ch: Byte)
    requires NameOk(name) && FieldOf(name) == ContentLength && (v == [] || NumberOk(v))
    ensures var d := if v == [] then Before(name, gap) else Within(name, gap, v);
            && PartOk(d) && PartText(d) == Colon(name, gap) + v
            && (Further(d, ch).Some? <==>
                ch == ' ' || ch == CR || ch == LF || (Digit(ch) && Number(v + [ch]) < INT64_LIMIT))
  {
    hide NameOk, FieldOf, Colon, Number;
    NextLength(v, ch);
    if v == [] {
      assert Colon(name, gap) + v == Colon(name, gap);
    } else {
      NumberIsText(v);
    }
    hide NumberOk;
  }

  lemma NextLength(v: seq<Byte>, ch: Byte)
    requires v == [] || Number(v) < INT64_LIMIT
    ensures Digit(ch) && v == [] ==> Number(v + [ch]) < INT64_LIMIT
    ensures v != [] && ch == ' ' ==> Number(v + [ch]) < INT64_LIMIT
  {
    NumberNext(v, ch);
    if v == [] && Digit(ch) { NumberOne(ch); assert v + [ch] == [ch]; }
  }

  lemma NumberIsText(v: seq<Byte>)
    requires NumberOk(v)
    ensures TextOk(ContentLength, v)
  {
    hide Number;
    assert !Digit(' ') && !Digit(CR) && !Digit(LF);
  }

  // ---- the head of a request

  function Joined(lines: seq<seq<Byte>>): seq<Byte> {
    if lines == [] then [] else Joined(lines[..|lines| - 1]) + lines[|lines| - 1]
  }

  ghost predicate IsHeader(s: seq<Byte>) { exists h: Header :: HeaderOk(h) && EncodeHeader(h) == s }

  /** A refusal, or a length out of range. */
  predicate Refused(run: Progress) { run.Stopped? && (run.out.Fail? || run.out.Undefined?) }

  lemma RunSplit(p: Parser, a: seq<Byte>, b: seq<Byte>)
    ensures var run := Run(p, a, |a|);
            Run(p, a + b, |a + b|) == match run case Reached(q) => Shift(Run(q, b, |b|), |a|) case Stopped(_, _) => run
  {
    hide Run;
    if Run(p, a, |a|).Reached? {
      RunAppend(p, a, b, |b|, false);
    } else {
      RunPrefix(p, a, b, |a|, false);
      RunStopped(p, a + b, |a|, |a + b|, false);
    }
  }

  lemma {:induction false} HeadersExactly(p: Parser, lines: seq<seq<Byte>>)
    requires p.state == HeaderFieldStart && p.nread + |Joined(lines)| <= MAX_HEADER_SIZE
    requires forall i | 0 <= i < |lines| :: IsHeaderLine(lines[i])
    ensures var run := Run(p, Joined(lines), |Joined(lines)|);
            && (run.Reached? <==> forall i | 0 <= i < |lines| :: IsHeader(lines[i])) && (run.Reached? || Refused(run))
            && (run.Reached? ==> run.q.state == HeaderFieldStart && run.q.nread == p.nread + |Joined(lines)|)
    decreases |lines|
  {
    hide IsHeader, IsHeaderLine, Run;
    if lines == [] {
      NoBytes(p);
    } else {
      var init, s := lines[..|lines| - 1], lines[|lines| - 1];
      HeadersExactly(p, init);
      RunSplit(p, Joined(init), s);
      var run := Run(p, Joined(init), |Joined(init)|);
      if run.Reached? { OneLine(run.q, s); }
      assert forall i | 0 <= i < |init| :: lines[i] == init[i];
    }
  }

  lemma NoBytes(p: Parser)
    ensures Run(p, [], 0) == Reached(p)
  {
  }

  lemma OneLine(p: Parser, s: seq<Byte>)
    requires p.state == HeaderFieldStart && IsHeaderLine(s) && p.nread + |s| <= MAX_HEADER_SIZE
    ensures var run := Run(p, s, |s|);
            && (run.Reached? <==> IsHeader(s)) && (run.Reached? || Refused(run))
            && (run.Reached? ==> run.q.state == HeaderFieldStart && run.q.nread == p.nread + |s|)
  {
    hide HeaderOk, EncodeHeader, Run, TooLong, IsHeaderLine;
    HeaderExactly(p, s);
  }

  lemma {:induction false} HeadersOf(lines: seq<seq<Byte>>) returns (hs: seq<Header>)
    requires forall i | 0 <= i < |lines| :: IsHeader(lines[i])
    ensures (forall i | 0 <= i < |hs| :: HeaderOk(hs[i])) && EncodeHeaders(hs) == Joined(lines)
    decreases |lines|
  {
    hide HeaderOk, EncodeHeader;
    if lines == [] {
      hs := [];
    } else {
      var init := HeadersOf(lines[..|lines| - 1]);
      var h: Header :| HeaderOk(h) && EncodeHeader(h) == lines[|lines| - 1];
      hs := init + [h];
      assert hs[..|hs| - 1] == init;
    }
  }

  function After(m: Method, s: seq<Byte>): seq<Byte> { MethodName(m) + [' '] + s }

  /** Method, space, the rest of the request line and header lines. */
  function LinesText(m: Method, first: seq<Byte>, lines: seq<seq<Byte>>): seq<Byte> {
    After(m, first + Joined(lines))
  }

  ghost predicate IsHead(m: Method, s: seq<Byte>) {
    exists r: Message :: HeadOk(r) && r.verb == m && LineText(r) + EncodeHeaders(r.headers) == s
  }

  lemma LineOfHead(m: Method, r: Message, hs: seq<Header>)
    requires LineOk(r) && forall i | 0 <= i < |hs| :: HeaderOk(hs[i])
    ensures IsHead(m, After(m, LineRest(r) + EncodeHeaders(hs)))
  {
    hide LineOk, LineText, LineRest, After, EncodeHeaders, HeaderOk;
    var x := r.(verb := m, layout := r.layout.(breaks := []), headers := hs);
    LineKept(r, x);
    LineTextIs(x, EncodeHeaders(hs));
    assert HeadOk(x) && x.verb == m && LineText(x) + EncodeHeaders(x.headers) ==
           After(m, LineRest(r) + EncodeHeaders(hs));
  }

  lemma LineKept(r: Message, x: Message)
    requires LineOk(r) && x == r.(verb := x.verb, layout := r.layout.(breaks := []), headers := x.headers)
    ensures LineOk(x) && LineRest(x) == LineRest(r)
  {
    hide TargetOk, VersionOk, TargetText, VersionText;
  }

  lemma LineTextIs(x: Message, s: seq<Byte>)
    requires x.layout.breaks == []
    ensures LineText(x) + s == After(x.verb, LineRest(x) + s)
  {
    hide RestOfLine, MethodName;
  }

  /** Of all texts that begin with a method and go on in lines, the parser reads exactly those that are a
      request line and headers; it refuses every other. */
  lemma HeadExactly(p: Parser, m: Method, first: seq<Byte>, lines: seq<seq<Byte>>)
    requires p.state == StartReq && IsLine(first) && forall i | 0 <= i < |lines| :: IsHeaderLine(lines[i])
    requires p.nread + |LinesText(m, first, lines)| <= MAX_HEADER_SIZE
    ensures var s := LinesText(m, first, lines);
            var run := Run(p, s, |s|);
            (run.Reached? <==> IsHead(m, s)) && (run.Reached? || Refused(run))
  {
    hide IsLine, IsHeaderLine, IsHeader, IsHead, Run, Leads, MethodName, HeadOk, LineText, EncodeHeaders, Joined,
         LineOk, LineRest;
    var s, name := LinesText(m, first, lines), MethodName(m) + [' '];
    var a := MethodReads(p, m);
    LeadsRuns(p, name, a, [Event(MessageBegin)], [Event(MessageBegin)]);
    RunSplit(p, name, first + Joined(lines));
    RunSplit(a, first, Joined(lines));
    LineExactly(a, first);
    var run := Run(a, first, |first|);
    if run.Reached? {
      HeadersExactly(run.q, lines);
      if Run(p, s, |s|).Reached? {
        var hs := HeadersOf(lines);
        var r := LineThatIs(a, first);
        LineOfHead(m, r, hs);
      }
    }
    if IsHead(m, s) { HeadIsRead(p, m, s); }
  }

  lemma LineThatIs(a: Parser, first: seq<Byte>) returns (r: Message)
    requires a.state == ReqSpaces && IsLine(first) && a.nread + |first| <= MAX_HEADER_SIZE
    requires Run(a, first, |first|).Reached?
    ensures LineOk(r) && LineRest(r) == first
  {
    hide IsLine, Run, LineOk, LineRest;
    LineExactly(a, first);
    r :| LineOk(r) && LineRest(r) == first;
  }

  lemma HeadIsRead(p: Parser, m: Method, s: seq<Byte>)
    requires p.state == StartReq && IsHead(m, s) && p.nread + |s| <= MAX_HEADER_SIZE
    ensures Run(p, s, |s|).Reached?
  {
    hide HeadOk, LineText, EncodeHeaders, Leads, Run, LineOk, HeaderItems, TargetItems, Bytes, TargetText;
    var r: Message :| HeadOk(r) && r.verb == m && LineText(r) + EncodeHeaders(r.headers) == s;
    var q := LinesLead(p, r);
    LeadsRuns(p, s, q, [Event(MessageBegin)] + TargetItems(r.target) + HeaderItems(r.headers),
              [Event(MessageBegin)] + Bytes(Url, TargetText(r.target)));
  }

  /** A carriage return where a header could begin is followed by a line feed, or it is refused. */
  lemma BlankExactly(p: Parser, ch: Byte)
    requires p.state == HeaderFieldStart && p.nread + 2 <= MAX_HEADER_SIZE && ch != LF
    ensures Run(p, [CR, ch], 2) == Stopped(1, Fail([]))
  {
    hide Step, HeadersDone;
    var q := p.(state := HeadersAlmostDone, nread := p.nread + 1);
    BlankSteps(p);
    BlankRefuses(q, ch);
    assert Run(p, [CR, ch], 0) == Reached(p) && Run(p, [CR, ch], 1) == Reached(q);
  }

  lemma BlankRefuses(q: Parser, ch: Byte)
    requires q.state == HeadersAlmostDone && q.nread < MAX_HEADER_SIZE && ch != LF
    ensures Step(q, ch) == Fail([])
  {
    hide StartMove, ProtocolMove, ResponseMove, VersionMove, HostMove, UrlMove, MethodMove, FieldStartMove,
         HeaderDone, FieldMove, ValueStartMove, ValueMove, ChunkMove, BodyMove;
  }
}
