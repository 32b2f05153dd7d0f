/** Reading a piece of text: where it leads the parser, and what it says on the way. */
module HttpReads {
  import opened HttpParser
  import opened HttpRun
  import opened HttpMarks

  const NOTHING: seq<Item> := []

  const CRLF: seq<Byte> := [CR, LF]

  /** The parser takes a bare line feed for the end of a line as well. */
  datatype Eol = Crlf | Lf

  function EolText(e: Eol): seq<Byte> { if e.Crlf? then CRLF else [LF] }

  /** Reading `s` leads from `p` to `q` and says `main`; `url` is what a reader of the URL gets. */
  predicate Leads(p: Parser, s: seq<Byte>, q: Parser, main: seq<Item>, url: seq<Item>) {
    Run(p, s, |s|) == Reached(q) && Said(p, s, |s|, false) == main && Said(p, s, |s|, true) == url
  }

  lemma LeadsOn(p: Parser, a: seq<Byte>, q: Parser, m: seq<Item>, u: seq<Item>, b: seq<Byte>, r: Parser,
      m': seq<Item>, u': seq<Item>)
    requires Leads(p, a, q, m, u) && Leads(q, b, r, m', u')
    ensures Leads(p, a + b, r, m + m', u + u')
  {
    hide Run, Said;
    RunAppend(p, a, b, |b|, false);
    RunAppend(p, a, b, |b|, true);
  }

  lemma LeadsNowhere(p: Parser)
    ensures Leads(p, [], p, [], [])
  {
  }

  lemma LeadsByte(p: Parser, ch: Byte, q: Parser, acts: seq<Action>)
    requires Step(p, ch) == Next(q, acts)
    ensures Leads(p, [ch], q, Events(acts, ch, false) + MarkedByte(q.state, ch, false),
            Events(acts, ch, true) + MarkedByte(q.state, ch, true))
  {
    hide Step, Events, MarkedByte;
    assert Run(p, [ch], 0) == Reached(p);
    forall url: bool ensures Said(p, [ch], 1, url) == Events(acts, ch, url) + MarkedByte(q.state, ch, url) {
      assert Said(p, [ch], 0, url) == [];
    }
  }

  lemma {:induction false} NoEvents(acts: seq<Action>, ch: Byte, url: bool)
    requires forall i | 0 <= i < |acts| :: acts[i].Mark? || acts[i].Flush?
    ensures Events(acts, ch, url) == []
  {
    if acts != [] { NoEvents(acts[..|acts| - 1], ch, url); }
  }

  /** A byte that calls nothing back at once: it may become part of marked pieces. */
  lemma SilentByte(p: Parser, ch: Byte, q: Parser, acts: seq<Action>)
    requires Step(p, ch) == Next(q, acts) && forall i | 0 <= i < |acts| :: acts[i].Mark? || acts[i].Flush?
    ensures Leads(p, [ch], q, MarkedByte(q.state, ch, false), MarkedByte(q.state, ch, true))
  {
    hide Step, Leads, MarkedByte, Events;
    LeadsByte(p, ch, q, acts);
    NoEvents(acts, ch, false);
    NoEvents(acts, ch, true);
    assert NOTHING + MarkedByte(q.state, ch, false) == MarkedByte(q.state, ch, false);
    assert NOTHING + MarkedByte(q.state, ch, true) == MarkedByte(q.state, ch, true);
  }

  lemma NotMarked(s: State, ch: Byte)
    requires Kinds(s) == {}
    ensures MarkedByte(s, ch, false) == [] && MarkedByte(s, ch, true) == []
  {
  }

  /** A byte that changes the state and says nothing. */
  lemma QuietByte(p: Parser, ch: Byte, q: Parser)
    requires Step(p, ch) == Next(q, []) && Kinds(q.state) == {}
    ensures Leads(p, [ch], q, [], [])
  {
    hide Step, Leads, MarkedByte;
    SilentByte(p, ch, q, []);
    NotMarked(q.state, ch);
  }

  lemma QuietPair(p: Parser, a: Byte, q: Parser, b: Byte, r: Parser)
    requires Step(p, a) == Next(q, []) && Kinds(q.state) == {}
    requires Step(q, b) == Next(r, []) && Kinds(r.state) == {}
    ensures Leads(p, [a, b], r, [], [])
  {
    hide Step, Kinds, Leads;
    QuietByte(p, a, q);
    QuietByte(q, b, r);
    LeadsOn(p, [a], q, [], [], [b], r, [], []);
    assert [a] + [b] == [a, b] && NOTHING + NOTHING == NOTHING;
  }

  lemma RaiseSays(n: Notice, ch: Byte, url: bool)
    ensures Events([Raise(n)], ch, url) == [Event(n)]
  {
    assert [Raise(n)][..0] == [];
    assert Events([], ch, url) == [];
  }

  /** A byte that raises one notice. */
  lemma NoticeByte(p: Parser, ch: Byte, q: Parser, n: Notice)
    requires Step(p, ch) == Next(q, [Raise(n)]) && Kinds(q.state) == {}
    ensures Leads(p, [ch], q, [Event(n)], [Event(n)])
  {
    hide Step, Leads, MarkedByte, Events;
    LeadsByte(p, ch, q, [Raise(n)]);
    NotMarked(q.state, ch);
    RaiseSays(n, ch, false);
    RaiseSays(n, ch, true);
    assert [Event(n)] + NOTHING == [Event(n)];
  }

  /** The bytes of an empty line. */
  lemma BlankSteps(p: Parser)
    requires p.state == HeaderFieldStart && p.nread < MAX_HEADER_SIZE
    ensures Step(p, CR) == Next(p.(state := HeadersAlmostDone, nread := p.nread + 1), [])
    ensures p.nread + 2 <= MAX_HEADER_SIZE ==>
              Step(p.(state := HeadersAlmostDone, nread := p.nread + 1), LF) ==
                HeadersDone(p.(state := HeadersAlmostDone, nread := p.nread + 2), LF)
    ensures Step(p, LF) == HeadersDone(p.(state := HeadersAlmostDone, nread := p.nread + 1), LF)
  {
    hide StartMove, ProtocolMove, ResponseMove, VersionMove, HostMove, UrlMove, MethodMove,
         HeaderDone, FieldMove, ValueStartMove, ValueMove, ChunkMove, BodyMove, Token, HeadersDone;
  }
}
